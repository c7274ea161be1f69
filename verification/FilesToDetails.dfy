/**
 From the listing of a directory to the details of the backup: a file that is taken over
 from a base keeps its details, under its new path.
 */
module FilesToDetails {
  import opened Wrappers
  import opened PathEscaping
  import opened MergeModel
  import opened BaseTraversal
  import opened MergeDetails
  import Progress
  import DirectoryIterator
  import DetailsMerge

  /** What is put once stays as it was put. */
  lemma {:induction false} PutStays(tenant: string, env: Progress.Env, es: seq<Progress.Event>, i: nat)
    requires Progress.PutsFresh(tenant, env, es) && i < |es| && es[i].PutFile?
    ensures var p, r := es[i].put, Progress.RunOf(env, es);
      p.key in r.put && r.put[p.key] == p.details
    decreases |es|
  {
    var init := es[..|es| - 1];
    if i < |init| {
      PutStays(tenant, env, init, i);
      assert init[i] == es[i];
    }
  }

  /**
   A base file that the tracker was told about, and that landed in the list to merge, is
   registered under the reference of the path it had, with the path it has now.
   */
  lemma MergedFileIsRegistered(tenant: string, env: Progress.Env, es: seq<Progress.Event>, i: nat,
                               n: Node, isMeta: Elements -> bool, e: Emitted)
    requires Progress.PutsFresh(tenant, env, es) && i < |es| && es[i].PutFile?
    requires DirectoryIterator.Told(n, isMeta, e, es[i].put) && e.FromBase? && e.name != ""
    requires Progress.LandedIn(Progress.RunOf(env, es), es[i].put.key, Progress.InMerge)
    ensures var refs, key := Progress.RunOf(env, es).s.refs, env.shortRef(e.prevDir + [e.name]);
      && key in refs && refs[key].repoRef == e.dir + [e.name] && refs[key].modTime == Some(e.modTime)
      && forall location :: refs[key].locRef == Some(location) <==> DirectoryIterator.KnownLocation(n, location)
  {
    var r, p := Progress.RunOf(env, es), es[i].put;
    PutStays(tenant, env, es, i);
    Progress.RunConserves(tenant, env, es);
    assert Progress.RefFor(env, r, p.key);
    assert p.details.repoPath == e.dir + [e.name];
    assert p.details.prevPath.value == e.prevDir + [e.name];
  }

  /**
   The details of such a file are taken from a base that has an entry for the path it had, of
   the same time, in the subtree of one of its reasons.  The new entry has the path the file
   has now, and the location of its directory, or else the relocated one of the old entry.
   */
  lemma MergedFileKeepsItsDetails(tenant: string, env: Progress.Env, es: seq<Progress.Event>, i: nat,
                                  n: Node, isMeta: Elements -> bool, e: Emitted,
                                  into: DetailsMerge.Env, assists: seq<DetailsMerge.DetailsBase>,
                                  merges: seq<DetailsMerge.DetailsBase>, base: DetailsMerge.DetailsBase,
                                  entry: DetailsMerge.Entry)
    requires Progress.PutsFresh(tenant, env, es) && i < |es| && es[i].PutFile?
    requires DirectoryIterator.Told(n, isMeta, e, es[i].put) && e.FromBase? && e.name != ""
    requires Progress.LandedIn(Progress.RunOf(env, es), es[i].put.key, Progress.InMerge)
    requires into.refs == Progress.RunOf(env, es).s.refs && into.shortRef == env.shortRef
    requires DetailsMerge.ParsesPaths(into) && DetailsMerge.MergeAll(into, assists, merges).Ok?
    requires base in merges && base.details.Some? && entry in base.details.value && entry.modified == e.modTime
    requires into.parse(entry.repoRef).Ok? && into.parse(entry.repoRef).value.elements == e.prevDir + [e.name]
    requires DetailsMerge.LiesInSome(e.prevDir + [e.name], base.reasons)
    ensures exists a :: a in DetailsMerge.MergeAll(into, assists, merges).value.added && IsEntryFor(into, n, e, a)
  {
    var key := env.shortRef(e.prevDir + [e.name]);
    MergedFileIsRegistered(tenant, env, es, i, n, isMeta, e);
    DetailsMerge.RegisteredIsMatched(into, assists, merges, base, entry, key);
    var added := DetailsMerge.MergeAll(into, assists, merges).value.added;
    var j :| 0 <= j < |added| && added[j].key == key;
    DetailsMerge.AddedAreRight(into, assists, merges, j);
    assert IsEntryFor(into, n, e, added[j]);
  }

  ghost predicate IsEntryFor(into: DetailsMerge.Env, n: Node, e: Emitted, a: DetailsMerge.Added)
    requires e.FromBase?
  {
    && a.key == into.shortRef(e.prevDir + [e.name]) && a.ref.repoRef == e.dir + [e.name]
    && a.source.modified == e.modTime
    && (forall location :: DirectoryIterator.KnownLocation(n, location) ==> a.ref.location == location)
    && ((forall location :: !DirectoryIterator.KnownLocation(n, location)) ==>
          a.source.location.Known? && a.ref.location == into.relocate(a.source.location.id))
  }
}
