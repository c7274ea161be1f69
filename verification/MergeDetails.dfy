/**
 `mergeDetails` of src/internal/kopia/merge_details.go: the items whose details must be
 taken from a base backup, by the short reference of the path they had.
 */
module MergeDetails {
  import opened Wrappers
  import opened PathEscaping

  /** A mod time of None is not compared. */
  datatype PrevRef = PrevRef(repoRef: Elements, locRef: Option<Elements>, modTime: Option<int>)

  datatype NewRef = NewRef(repoRef: Elements, location: Elements)

  datatype RefError = NilRepoRef | DuplicateRepoRef | EmptyLocationKey

  predicate ModTimeMatches(pr: PrevRef, modTime: int) {
    pr.modTime.None? || pr.modTime.value == modTime
  }

  /**
   The new path and location of an item, or nothing if it is not to be merged.  How a
   location follows a moved parent folder is left to `relocate`.
   */
  function NewPathRefs(refs: map<string, PrevRef>, key: string, modTime: int, oldLoc: Option<Elements>,
                       relocate: Elements -> Elements): Result<Option<NewRef>, RefError>
  {
    if key !in refs || !ModTimeMatches(refs[key], modTime) then Ok(None)
    else if refs[key].locRef.Some? then Ok(Some(NewRef(refs[key].repoRef, refs[key].locRef.value)))
    else if oldLoc.None? || oldLoc.value == [] then Err(EmptyLocationKey)
    else Ok(Some(NewRef(refs[key].repoRef, relocate(oldLoc.value))))
  }

  datatype Registration = Registration(oldRef: Elements, modTime: Option<int>, newRef: Option<Elements>,
                                       newLocRef: Option<Elements>)

  /** A reference is registered once; what is registered is never replaced. */
  function Register(shortRef: Elements -> string, refs: map<string, PrevRef>, r: Registration): map<string, PrevRef> {
    if r.newRef.None? || shortRef(r.oldRef) in refs then refs
    else refs[shortRef(r.oldRef) := PrevRef(r.newRef.value, r.newLocRef, r.modTime)]
  }

  function RegisterAll(shortRef: Elements -> string, rs: seq<Registration>): map<string, PrevRef> {
    if rs == [] then map[] else Register(shortRef, RegisterAll(shortRef, rs[..|rs| - 1]), rs[|rs| - 1])
  }

  /** The first registration for the short reference of `p`. */
  ghost predicate FirstFor(shortRef: Elements -> string, rs: seq<Registration>, p: Elements, i: int) {
    && 0 <= i < |rs| && rs[i].newRef.Some? && shortRef(rs[i].oldRef) == shortRef(p)
    && forall j :: 0 <= j < i ==> rs[j].newRef.None? || shortRef(rs[j].oldRef) != shortRef(p)
  }

  lemma {:induction false} RegisteredFirst(shortRef: Elements -> string, rs: seq<Registration>, p: Elements)
    ensures shortRef(p) in RegisterAll(shortRef, rs) <==> exists i :: FirstFor(shortRef, rs, p, i)
    ensures forall i :: FirstFor(shortRef, rs, p, i) ==>
      && shortRef(p) in RegisterAll(shortRef, rs)
      && RegisterAll(shortRef, rs)[shortRef(p)] == PrevRef(rs[i].newRef.value, rs[i].newLocRef, rs[i].modTime)
  {
    if rs != [] {
      var init, n := rs[..|rs| - 1], |rs| - 1;
      RegisteredFirst(shortRef, init, p);
      forall i | FirstFor(shortRef, init, p, i)
        ensures FirstFor(shortRef, rs, p, i)
      {
        assert init[i] == rs[i];
      }
      forall i | FirstFor(shortRef, rs, p, i) && i < n
        ensures FirstFor(shortRef, init, p, i)
      {
        assert init[i] == rs[i];
      }
      if shortRef(p) !in RegisterAll(shortRef, init) {
        assert FirstFor(shortRef, rs, p, n) <==> rs[n].newRef.Some? && shortRef(rs[n].oldRef) == shortRef(p) by {
          NoneBefore(shortRef, init, p);
        }
      }
    }
  }

  lemma {:induction false} NoneBefore(shortRef: Elements -> string, rs: seq<Registration>, p: Elements)
    requires forall i :: !FirstFor(shortRef, rs, p, i)
    ensures forall j :: 0 <= j < |rs| ==> rs[j].newRef.None? || shortRef(rs[j].oldRef) != shortRef(p)
  {
    for n := 0 to |rs|
      invariant forall j :: 0 <= j < n ==> rs[j].newRef.None? || shortRef(rs[j].oldRef) != shortRef(p)
    {
      assert !FirstFor(shortRef, rs, p, n);
    }
  }

  /** What a lookup of version `modTime` of the item at `p` answers after the registrations `rs`. */
  ghost predicate Answers(shortRef: Elements -> string, relocate: Elements -> Elements, rs: seq<Registration>,
                          p: Elements, modTime: int, oldLoc: Option<Elements>, r: Result<Option<NewRef>, RefError>) {
    && ((forall i :: !FirstFor(shortRef, rs, p, i)) ==> r == Ok(None))
    && (forall i :: FirstFor(shortRef, rs, p, i) ==>
          if rs[i].modTime.Some? && rs[i].modTime != Some(modTime) then r == Ok(None)
          else if rs[i].newLocRef.Some? then r == Ok(Some(NewRef(rs[i].newRef.value, rs[i].newLocRef.value)))
          else if oldLoc.None? || oldLoc.value == [] then r.Err?
          else r == Ok(Some(NewRef(rs[i].newRef.value, relocate(oldLoc.value)))))
  }

  /**
   After any registrations, a lookup answers with the first one for its reference, if that
   is of the looked-up version, and with nothing otherwise.
   */
  lemma LookupFindsFirstRegistration(shortRef: Elements -> string, relocate: Elements -> Elements,
                                     rs: seq<Registration>, p: Elements, modTime: int, oldLoc: Option<Elements>)
    ensures Answers(shortRef, relocate, rs, p, modTime, oldLoc,
                    NewPathRefs(RegisterAll(shortRef, rs), shortRef(p), modTime, oldLoc, relocate))
  {
    RegisteredFirst(shortRef, rs, p);
  }

  class Merger {
    const shortRef: Elements -> string
    const relocate: Elements -> Elements
    var repoRefs: map<string, PrevRef>

    constructor (shortRef: Elements -> string, relocate: Elements -> Elements)
      ensures repoRefs == map[] && this.shortRef == shortRef && this.relocate == relocate
    {
      this.shortRef, this.relocate, repoRefs := shortRef, relocate, map[];
    }

    function ItemsToMerge(): nat
      reads this
    {
      |repoRefs|
    }

    method AddRepoRef(oldRef: Elements, modTime: Option<int>, newRef: Option<Elements>, newLocRef: Option<Elements>)
      returns (err: Option<RefError>)
      modifies this`repoRefs
      ensures err.None? <==> newRef.Some? && shortRef(oldRef) !in old(repoRefs)
      ensures repoRefs == Register(shortRef, old(repoRefs), Registration(oldRef, modTime, newRef, newLocRef))
    {
      if newRef.None? {
        return Some(NilRepoRef);
      }
      if shortRef(oldRef) in repoRefs {
        return Some(DuplicateRepoRef);
      }
      repoRefs := repoRefs[shortRef(oldRef) := PrevRef(newRef.value, newLocRef, modTime)];
      return None;
    }

    method GetNewPathRefs(oldRef: Elements, modTime: int, oldLoc: Option<Elements>)
      returns (res: Result<Option<NewRef>, RefError>)
      ensures res == NewPathRefs(repoRefs, shortRef(oldRef), modTime, oldLoc, relocate)
      ensures forall rs :: RegisterAll(shortRef, rs) == repoRefs ==>
        Answers(shortRef, relocate, rs, oldRef, modTime, oldLoc, res)
    {
      forall rs | RegisterAll(shortRef, rs) == repoRefs
        ensures Answers(shortRef, relocate, rs, oldRef, modTime, oldLoc,
                        NewPathRefs(repoRefs, shortRef(oldRef), modTime, oldLoc, relocate))
      {
        LookupFindsFirstRegistration(shortRef, relocate, rs, oldRef, modTime, oldLoc);
      }
      var key := shortRef(oldRef);
      if key !in repoRefs {
        return Ok(None);
      }
      var pr := repoRefs[key];
      if pr.modTime.Some? && pr.modTime.value != modTime {
        return Ok(None);
      }
      if pr.locRef.Some? {
        return Ok(Some(NewRef(pr.repoRef, pr.locRef.value)));
      } else if oldLoc.None? || |oldLoc.value| == 0 {
        return Err(EmptyLocationKey);
      }
      return Ok(Some(NewRef(pr.repoRef, relocate(oldLoc.value))));
    }
  }

  // ---------------------------------------------------------------------------
  // ShortRef
  // ---------------------------------------------------------------------------

  function Joined(p: Elements): string {
    if p == [] then "" else p[0] + Joined(p[1..])
  }

  /** `Builder.ShortRef`: the elements are hashed one after the other, with nothing in between. */
  function ShortRef(hash: string -> string, p: Elements): string {
    if p == [] then "" else hash(Joined(p))
  }

  /** Even with a perfect hash, paths whose elements run together alike share a reference. */
  lemma ShortRefsAgreeIff(hash: string -> string, p: Elements, q: Elements)
    requires forall a, b :: hash(a) == hash(b) ==> a == b
    requires forall a :: hash(a) != ""
    ensures ShortRef(hash, p) == ShortRef(hash, q) <==> (p == [] <==> q == []) && Joined(p) == Joined(q)
  {
    assert Joined([]) == "";
  }

  /** Moving the boundary between two elements does not change the reference. */
  lemma {:induction false} ShortRefIgnoresBoundaries(hash: string -> string, before: Elements, a: string, b: string,
                                                     c: string, after: Elements)
    ensures ShortRef(hash, before + [a + b, c] + after) == ShortRef(hash, before + [a, b + c] + after)
  {
    JoinedAround(before, a + b, c, after);
    JoinedAround(before, a, b + c, after);
    assert a + b + c == a + (b + c);
  }

  lemma JoinedAround(before: Elements, x: string, y: string, after: Elements)
    ensures before + [x, y] + after != []
    ensures Joined(before + [x, y] + after) == Joined(before) + (x + y) + Joined(after)
  {
    JoinedAppend(before + [x, y], after);
    JoinedAppend(before, [x, y]);
    JoinedPair(x, y);
  }

  lemma JoinedPair(a: string, b: string)
    ensures Joined([a, b]) == a + b
  {
    assert [a, b][1..] == [b] && [b][1..] == [];
    assert Joined([b]) == b + Joined([]);
  }

  lemma {:induction false} JoinedAppend(p: Elements, q: Elements)
    ensures Joined(p + q) == Joined(p) + Joined(q)
  {
    if p == [] {
      assert p + q == q;
    } else {
      JoinedAppend(p[1..], q);
      assert (p + q)[1..] == p[1..] + q;
      assert Joined(p + q) == p[0] + (Joined(p[1..]) + Joined(q));
    }
  }

  /** With the boundaries between its elements, a path can be read off their concatenation. */
  lemma {:induction false} JoinedSameBoundaries(p: Elements, q: Elements)
    requires Joined(p) == Joined(q) && |p| == |q| && forall i :: 0 <= i < |p| ==> |p[i]| == |q[i]|
    ensures p == q
  {
    if p != [] {
      assert p[0] == Joined(p)[..|p[0]|] == q[0];
      assert Joined(p)[|p[0]|..] == Joined(p[1..]) && Joined(q)[|q[0]|..] == Joined(q[1..]);
      JoinedSameBoundaries(p[1..], q[1..]);
    }
  }
}
