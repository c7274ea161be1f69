/** What the search for bases answers, in terms of the entries of the store alone. */
module AnswerMeans {
  import opened Wrappers
  import opened ManifestStore
  import opened BaseFinder
  import opened BackupBases
  import opened BaseSearch

  predicate IsAssistBackup(b: Backup) {
    "backup-type" in b.tags && b.tags["backup-type"] == "assist-backup"
  }

  /** Backups of versions 0 to 8 need no tag. */
  predicate IsMergeBackup(b: Backup) {
    if "backup-type" in b.tags then b.tags["backup-type"] == "merge-backup" else b.version != -1 && b.version <= 8
  }

  lemma TypeMeans(b: Backup)
    ensures b.Type() == ASSIST_BACKUP <==> IsAssistBackup(b)
    ensures b.Type() == MERGE_BACKUP <==> IsMergeBackup(b)
    ensures b.TaggedAssist() <==> IsAssistBackup(b)
  {
    assert |"assist-backup"| != |"merge-backup"|;
    assert |"merge-backup"| != |""| && |"assist-backup"| != |""|;
  }

  /** The snapshot is labelled with the resource, with service and category, and with the given tags. */
  ghost predicate Labelled(s: Snapshot, r: Reason, tags: set<string>) {
    && "tag:" + r.resource in s.labels && "tag:" + (r.service + r.category) in s.labels
    && forall t :: t in tags ==> "tag:" + t in s.labels
  }

  lemma SearchMeans(st: Store, r: Reason, tags: set<string>, s: Snapshot)
    ensures s in Metas(st, r, tags) <==> s in st.snapshots && Labelled(s, r, tags)
  {
    FoundManifests(st.snapshots, SearchTags(r, tags), s);
    var own := {"tag:" + r.resource, "tag:" + (r.service + r.category)};
    assert SearchTags(r, tags) == own + set t | t in tags :: "tag:" + t;
    forall t | t in tags
      ensures "tag:" + t in SearchTags(r, tags)
    {
    }
  }

  /** Snapshot `s` belongs to complete backup `f`, which is of the kind. */
  ghost predicate IsCandidate(kind: Kind, st: Store, r: Reason, tags: set<string>, s: Snapshot, f: FoundBase) {
    && s in st.snapshots && Labelled(s, r, tags) && LeadsTo(st, s, f)
    && if kind.MergeKind? then IsMergeBackup(f.backup) else IsAssistBackup(f.backup)
  }

  ghost predicate HasCandidate(kind: Kind, st: Store, r: Reason, tags: set<string>, s: Snapshot) {
    exists f :: IsCandidate(kind, st, r, tags, s, f)
  }

  /** The search finds `s`, and takes it for the kind. */
  ghost predicate Searched(kind: Kind, st: Store, r: Reason, tags: set<string>, s: Snapshot) {
    s in Metas(st, r, tags) && if kind.MergeKind? then CanMerge(st, s) else CanAssist(st, s)
  }

  lemma CandidateOfKind(kind: Kind, st: Store, r: Reason, tags: set<string>, s: Snapshot)
    requires DistinctSnapshots(st.snapshots)
    ensures Searched(kind, st, r, tags, s) <==> HasCandidate(kind, st, r, tags, s)
    ensures forall f :: IsCandidate(kind, st, r, tags, s, f) ==> Candidate(st, s) == Some(f)
  {
    SearchMeans(st, r, tags, s);
    if Candidate(st, s).Some? {
      CandidateMeans(st, s, Candidate(st, s).value);
      TypeMeans(Candidate(st, s).value.backup);
    }
    forall f | LeadsTo(st, s, f)
      ensures Candidate(st, s) == Some(f)
    {
      CandidateMeans(st, s, f);
    }
    if Searched(kind, st, r, tags, s) {
      assert IsCandidate(kind, st, r, tags, s, Candidate(st, s).value);
    }
  }

  /** No candidate of the kind is newer. */
  ghost predicate NoneNewer(kind: Kind, st: Store, r: Reason, tags: set<string>, t: Time) {
    forall s :: HasCandidate(kind, st, r, tags, s) ==> s.modTime <= t
  }

  lemma NewestMeans(kind: Kind, st: Store, tags: set<string>, r: Reason, m: Snapshot)
    requires DistinctSnapshots(st.snapshots)
    ensures IsNewest(kind, st, Metas(st, r, tags), m) <==>
      && HasCandidate(kind, st, r, tags, m) && NoneNewer(kind, st, r, tags, m.modTime)
      && (kind.AssistKind? ==> NoneNewer(MergeKind, st, r, tags, m.modTime))
  {
    forall x
      ensures Searched(MergeKind, st, r, tags, x) <==> HasCandidate(MergeKind, st, r, tags, x)
      ensures Searched(AssistKind, st, r, tags, x) <==> HasCandidate(AssistKind, st, r, tags, x)
    {
      CandidateOfKind(MergeKind, st, r, tags, x);
      CandidateOfKind(AssistKind, st, r, tags, x);
    }
  }

  /** `s` is where the answer comes from. */
  ghost predicate IsAnswer(kind: Kind, st: Store, r: Reason, tags: set<string>, s: Snapshot, f: FoundBase) {
    && IsCandidate(kind, st, r, tags, s, f) && NoneNewer(kind, st, r, tags, s.modTime)
    && (kind.AssistKind? ==> NoneNewer(MergeKind, st, r, tags, s.modTime))
  }

  /**
   A merge base is the newest complete merge backup labelled for the reason; an assist base
   is the newest complete assist backup, and no merge backup is newer.
   */
  lemma AnswerIs(kind: Kind, st: Store, tags: set<string>, r: Reason, f: FoundBase)
    requires DistinctSnapshots(st.snapshots)
    ensures Answers(kind, st, tags, r, f) <==> exists s :: IsAnswer(kind, st, r, tags, s, f)
  {
    if m :| IsNewest(kind, st, Metas(st, r, tags), m) && Candidate(st, m) == Some(f) {
      NewestMeans(kind, st, tags, r, m);
      CandidateOfKind(kind, st, r, tags, m);
      assert IsAnswer(kind, st, r, tags, m, f);
    }
    if s :| IsAnswer(kind, st, r, tags, s, f) {
      assert HasCandidate(kind, st, r, tags, s);
      NewestMeans(kind, st, tags, r, s);
      CandidateOfKind(kind, st, r, tags, s);
    }
  }

  /** All merge candidates are older. */
  ghost predicate MergesOlder(st: Store, r: Reason, tags: set<string>, t: Time) {
    forall m :: HasCandidate(MergeKind, st, r, tags, m) ==> m.modTime < t
  }

  /**
   There is a merge base exactly if there is a candidate, and an assist base exactly if there
   is a candidate newer than all that could be merge bases.
   */
  lemma HasAnswerIff(kind: Kind, st: Store, tags: set<string>, r: Reason)
    requires DistinctSnapshots(st.snapshots)
    ensures HasAnswer(kind, st, tags, r) <==>
      exists s :: HasCandidate(kind, st, r, tags, s) && (kind.AssistKind? ==> MergesOlder(st, r, tags, s.modTime))
  {
    forall x
      ensures Searched(MergeKind, st, r, tags, x) <==> HasCandidate(MergeKind, st, r, tags, x)
      ensures Searched(AssistKind, st, r, tags, x) <==> HasCandidate(AssistKind, st, r, tags, x)
    {
      CandidateOfKind(MergeKind, st, r, tags, x);
      CandidateOfKind(AssistKind, st, r, tags, x);
    }
    if kind.MergeKind? {
      if m :| m in Metas(st, r, tags) && CanMerge(st, m) {
        assert Searched(MergeKind, st, r, tags, m);
      }
    } else {
      assert HasAnswer(kind, st, tags, r) <==>
        exists s :: Searched(AssistKind, st, r, tags, s)
                    && forall m :: Searched(MergeKind, st, r, tags, m) ==> m.modTime < s.modTime;
    }
  }
}
