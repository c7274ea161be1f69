# Corso incremental backups, verified

This project models the part of Corso that decides what an incremental backup
contains, which older backups it may build on, and what garbage collection may
remove.  Everything is Dafny; `dafny verify dfyconfig.toml` checks all of it.

The four components, and the main theorem of each:

1. **Hierarchy merge.**  Collections delivered by a service are merged with the
   directories of base snapshots.  `inflateCollectionTree`, `traverseBaseDir`,
   `inflateBaseTree` and `inflateDirTree` are methods over a mutable tree; the
   entries are emitted by the nine-phase directory iterator.  The theorem
   (`HierarchyBuild.MergeBackups`, over `HierarchyMerge.MergeCorrect`) gives the
   set of uploaded files declaratively, without trees, traversal or pruning.
   Pruning unchanged subtrees makes no difference, although the test for a
   changed subtree compares printed paths and over-approximates
   (`PathEscaping.StringPrefixIff` says by how much).  Consistent input merges
   exactly if no collection deletes the root of a subtree that a base holds
   (`MergeSucceeds.MergeSucceedsIff`).
2. **Base selection and garbage collection.**  The finder is optimal
   (`BaseFinder.FindBasesInSet`), every reason with an answer goes to exactly one
   base (`BaseSearch.FindBases`), cleanup deletes an exactly described set
   (`OrphanCleanup.CleanupOrphanedData`), and the two agree: without previews
   a backup finds the same bases before and after a cleanup
   (`SearchAfterCleanup.FindBasesIgnoresCleanup`), and with previews
   `CleanupVsFinder.AssistAnswerIff` says exactly when it does.  A second
   cleanup deletes nothing exactly under the condition of
   `CleanupAgain.SecondCleanupIff`, and in every interleaving with running
   backups a finished backup survives each cleanup whose cutoff is before its
   write span, or whose start and cutoff are after it
   (`CleanupInterleaving.FinishedBackupSurvives`).
3. **Details merge.**  The single comparison of two counts at the end of
   `mergeDetails` is a sound and complete check that every registered item was
   matched, once, by an entry of the recorded version
   (`DetailsMerge.CountCheckIsExact`).  Over every run of the upload callbacks
   no file is lost or recorded twice (`Progress.FileIsConserved`).  A file that
   a directory takes over from a base keeps its details, under its new path
   (`FilesToDetails.MergedFileKeepsItsDetails`).
4. **Escaped paths.**  Printing and parsing are inverse, printing is injective,
   and the index-arithmetic loops refine a one-pass tokenizer.

What the operations and their specifications have in common, such as how tags
are read or what makes a reason's key, is tied to the entries of the store and
to the elements of paths by lemmas of its own: `AnswerMeans` for the search,
`DeletionMeans` for cleanup, `HierarchyMerge.NestedIs` for subtrees,
`DetailsMerge.MatchesReasonMeans` for reasons.

The fault bus family and the outcome of a backup form a smaller state machine
that says exactly when a model of which type is stored.

| files | what they hold |
|---|---|
| `PathEscaping`, `PathLoops`, `DataPaths`, `PathFilters` | escaped paths: specification, the loops, typed paths, filters |
| `MergeModel`, `CollectionInflation`, `BaseTraversal` | collections, trees, and the functions that the methods refine |
| `TraversalEmission`, `HierarchyMerge`, `TreeInvariants`, `MergeSucceeds`, `CollidingDirectories` | the theorems about the merge |
| `TreeMaps`, `HierarchyInflation`, `HierarchyBuild` | the mutable tree and the methods that build it |
| `KopiaDirs`, `DirectoryIterator` | what kopia walks, and the iterator |
| `ManifestStore`, `Cleanup`, `OrphanCleanup`, `CleanupAgain`, `CleanupInterleaving` | the store, and garbage collection |
| `PlainDeletion`, `DeletionMeans` | what cleanup deletes, in terms of the store's entries alone |
| `BaseFinder`, `BackupBases`, `BaseSearch`, `ReasonNames`, `AnswerMeans` | base selection, and what it answers in terms of the store's entries alone |
| `CleanupVsFinder`, `CleanupHypotheses`, `CleanupPreviews`, `SearchAfterCleanup` | its agreement with garbage collection, and where that ends |
| `MergeDetails`, `DetailsMerge`, `Progress`, `FilesToDetails` | the details of a backup |
| `FaultBus`, `BackupOutcome` | faults, and the model that is stored |

## Hypotheses of the main theorems

- `InjectiveResolution`: two base directories never resolve to the same live
  path, unless the collection that goes there keeps base directories out, or
  shows that one of them, which has no files of its own, has changed; such
  collisions are harmless.  Other collisions lose files: on input that the
  source accepts, a directory moved onto one that no collection mentions loses
  the file of one of the two (`CollidingDirectories.MovedOntoLosesAFile`), and
  so do all directories with surviving files that collide where a collection
  goes (`CollidingDirectories.CollisionBreaksMerge`).  A directory without files
  is not harmless where no collection goes, because an unchanged directory is
  attached whether it has files or not (`src/internal/kopia/upload.go:1172`,
  `CollidingDirectories.UnchangedReplaces`).
- `SubtreesTyped`, `CollectionsTyped`: what the types of the source guarantee;
  subtrees have the four elements of a path prefix, and each is merged from one
  base.  `SubtreeFits`: base subtrees have at most 500 levels.
- `Tidy`: each backup has a complete snapshot and existing details, all on one
  side of the cutoff; backups share no pieces, and snapshots and models were
  created in the same order.  That a backup must not straddle the cutoff is
  necessary (`CleanupHypotheses.StraddlingBackupIsLost`).  `KeysAgree` holds on
  canonical tags (`CleanupHypotheses.SearchAgreesWithKeys`).
- `NoPreviews`: every backup is tagged as a merge or as an assist backup.  The
  merge base stays the same without it (`CleanupVsFinder.SameMergeBase`); for
  the assist base `CleanupVsFinder.AssistAnswerIff` gives the exact condition.
- `Undisturbed`: each cleanup has its cutoff before the first piece of the
  backup is written, or starts and has its cutoff after the last.  That the
  start counts too is necessary: a cleanup that lists snapshots and reads the
  clock late deletes a backup that was written in between
  (`CleanupInterleaving.LateClockLosesBackup`).
- `ReasonsApart`, `AllApart`: the reasons read differently when resource, service
  and category are joined.  It holds of all reasons of one tenant with the
  services and categories of the source, whatever the resources are called
  (`ReasonNames.RealReasonsAnswered`), and of reasons that differ in the category
  only, whatever it is called (`ReasonNames.CategoriesTellApart`).
- `ParsesPaths`: what is read as a path is a valid one; the parser guarantees it
  (`DetailsMerge.ParsesRepoRefs`).
- `DistinctIDs`, `NamedSnapshots`: the store gives every manifest an ID of its
  own, and it is not empty.  `IDsIdentify`: bases of one backup ID are one
  backup.

## Where the code and its documentation differ

The model follows the code.

- `UnescapeAndAppend` and `SplitUnescapeAppend` are documented as appending to
  the receiver, but copy it into a slice of length zero
  (`src/pkg/path/builder.go:75-76`), so the receiver's elements are dropped.
  `PathLoops.Builder.SplitUnescapeAppend` states that they append exactly if
  the receiver is empty.
- The comments of the negated path filters say that they pass if some target
  does not relate to the input; the code passes only if no target does
  (`PathFilters.ComparePath`).  The two readings agree exactly if there are
  targets and all or none of them relate
  (`PathFilters.NegatedReadingsAgreeIff`).
- `ShortRef` hashes elements joined without separators, so references do not
  tell all paths apart (`MergeDetails.ShortRefsAgreeIff`).  What a lookup by
  reference then finds is `DetailsMerge.FitMeansSameJoined`.
- Garbage collection treats every complete backup that is not tagged as an
  assist backup, previews included, as a merge base; the finder skips previews.
  So cleanup deletes the assist base that the finder would select if a later
  preview exists (`CleanupPreviews.PreviewHidesAssist`).
- `inflateBaseTree` dereferences the new path of a subtree's root unchecked
  (`src/internal/kopia/upload.go:1336-1337`).  The panic is an outcome of the
  model, and `HierarchyMerge.DereferencesIff` says when it cannot occur.

## Model

| member | source | states |
|---|---|---|
| `PathEscaping.TrimDropsSeparators` | src/pkg/path/path.go:276-301 | exactly the separators at the end are dropped that no escape character protects |
| `PathEscaping.EscapedIsValid` | src/pkg/path/path.go:385-475 | an escaped element is accepted by validation and unescapes to the original |
| `PathEscaping.ValidIsEscaped` | src/pkg/path/path.go:385-475 | escaping inverts unescaping on every string that validation accepts |
| `PathEscaping.ValidIffImageOfEscape` | src/pkg/path/path.go:445-475 | validation accepts exactly the image of escaping |
| `PathEscaping.PrintedForm` | src/pkg/path/path.go:385-413 | a backslash goes before each slash and backslash of an element, and one slash between elements |
| `PathEscaping.PrintConcat` | src/pkg/path/elements.go:98-106 | the print of a concatenation is the two prints with one separator between them |
| `PathEscaping.SplitOfPrinted` | src/pkg/path/path.go:306-354 | splitting a printed path gives its escaped elements |
| `PathEscaping.PrintedNeverEndsInSeparator` | src/pkg/path/path.go:280-301 | trimming never touches a printed path |
| `PathEscaping.ParsePrint` | src/pkg/path/builder.go:74-91 | parsing the printed form of any list of non-empty elements gives the list back |
| `PathEscaping.PrintInjective` | src/pkg/path/elements.go:98-106 | two lists of non-empty elements print alike only if they are equal, so prints can be map keys |
| `PathEscaping.UnescapeAllNonEmpty` | src/pkg/path/builder.go:43-69 | parsing never yields an empty element |
| `PathEscaping.ReprintIsCanonical` | src/pkg/path/path.go:303-354 | every accepted string parses to the same elements as its canonical reprint |
| `PathEscaping.ParseAcceptsIff` | src/pkg/path/path.go:445-475 | a whole string is accepted exactly if none of its escape sequences is malformed or dangling |
| `PathEscaping.ElementPrefixIsStringPrefix` | src/internal/kopia/upload.go:1014-1030 | a proper element prefix is always caught by the string-prefix test on printed paths |
| `PathEscaping.StringPrefixIff` | src/internal/kopia/upload.go:1022-1030 | the string test relates two paths exactly if the second is below the first, or is or is below a sibling whose name begins with the first one's last element |
| `PathEscaping.StringPrefixOverApproximates` | src/internal/kopia/upload.go:1022-1030 | two such siblings, of which neither is below the other |
| `PathLoops.TrimTrailingSlash` | src/pkg/path/path.go:280-301 | the backwards loop with its escape count computes the specified trim |
| `PathLoops.Split` | src/pkg/path/path.go:306-354 | the parity-counter loop refines the one-pass tokenizer on every string |
| `PathLoops.FindEscapePositions` | src/pkg/path/path.go:385-397 | finds exactly the positions that need an escape, in increasing order |
| `PathLoops.EscapeElement` | src/pkg/path/path.go:385-413 | the copying loop escapes each special character once |
| `PathLoops.UnescapeElement` | src/pkg/path/path.go:419-439 | the index loop drops exactly the escape characters that are not escaped |
| `PathLoops.ValidateEscapedElement` | src/pkg/path/path.go:445-475 | the flag loop reports the first malformed sequence, with the same error as the specification |
| `PathLoops.JoinEscaped` | src/pkg/path/path.go:479-483 | joining escaped elements is the printed form of the list |
| `PathLoops.ElementsString` | src/pkg/path/elements.go:98-106 | the loop of `String` computes the printed form |
| `PathLoops.Builder.AppendElements` | src/pkg/path/builder.go:43-69 | raw elements are appended without the empty ones; escaped elements are appended if all parse, otherwise the first error is returned |
| `PathLoops.Builder.Append` | src/pkg/path/builder.go:32-41 | a new builder extends the receiver's elements |
| `PathLoops.Builder.UnescapeAndAppend` | src/pkg/path/builder.go:74-83 | the new builder holds the parsed elements only; the receiver's are dropped |
| `PathLoops.Builder.SplitUnescapeAppend` | src/pkg/path/builder.go:87-91 | succeeds exactly on sound escapes; appends to the receiver exactly if the receiver is empty |
| `PathLoops.Builder.UpdateParent` | src/pkg/path/builder.go:140-161 | the parent is replaced exactly if it is an element prefix, and nothing changes otherwise |
| `PathLoops.RelocateRoundTrip` | src/pkg/path/builder.go:140-161 | moving a path to a new parent and back is the identity |
| `PathLoops.PrefixErrorIsError` | src/pkg/path/builder.go:43-69 | the early return on a bad element returns the error of the whole list |
| `DataPaths.ServiceNameRoundTrip` | src/pkg/path/service_type.go:51-58 | a service is read back from its name |
| `DataPaths.CategoryNameRoundTrip` | src/pkg/path/category_type.go:48-55 | a category is read back from its name |
| `DataPaths.ServiceOf` | src/pkg/path/service_type.go:51-58 | a text is read as a service exactly if it is its name, up to case |
| `DataPaths.CategoryOf` | src/pkg/path/category_type.go:48-55 | a text is read as a category exactly if it is its name, up to case |
| `DataPaths.LowerLetters` | src/pkg/path/service_type.go:51-58 | case is that of the letters A to Z |
| `DataPaths.BuildOrPrefix` | src/pkg/path/path.go:169-199 | succeeds exactly for valid service and category with tenant and resource given |
| `DataPaths.BuildIsValid` | src/pkg/path/builder.go:283-311 | a built path is valid and holds prefix and elements, without the empty ones |
| `DataPaths.DataPathRoundTrip` | src/pkg/path/path.go:224-274 | every valid data path is read back from its printed form |
| `DataPaths.ParsedIsValid` | src/pkg/path/path.go:224-274 | what parses is valid, and reparsing its print changes nothing |
| `DataPaths.AppendThenDir` | src/pkg/path/resource_path.go:78-130 | `Dir` undoes `Append`; an appended item is the path's item below the same folders |
| `DataPaths.ReparseSucceedsIff` | src/internal/kopia/upload.go:1205-1213 | reparsing a printed path succeeds exactly if it begins with a valid prefix, and then gives the same elements |
| `PathFilters.NewPathFilter` | src/pkg/filters/filters.go:234-348 | a path filter keeps its targets and normalizes each |
| `PathFilters.Compare` | src/pkg/filters/filters.go:399-474 | the loop passes exactly if some target holds, or none if negated |
| `PathFilters.NormOfPath` | src/pkg/filters/filters.go:74-90 | normalizing gives the lower-case elements, each between separators, whatever slashes were around the path |
| `PathFilters.BlanksAround` | src/pkg/filters/filters.go:74-90 | blanks and line breaks around a path do not matter |
| `PathFilters.PrefixMeans` | src/pkg/filters/filters.go:507-509 | the prefix test on normalized strings is the prefix test on elements |
| `PathFilters.ContainsMeans` | src/pkg/filters/filters.go:497-499 | the substring test holds exactly if the target's elements are a contiguous part of the input's |
| `PathFilters.SuffixMeans` | src/pkg/filters/filters.go:512-514 | the suffix test holds exactly if the target's elements end the input's |
| `PathFilters.HoldsMeansRelates` | src/pkg/filters/filters.go:477-514 | for each comparator the string test is the element test, up to case |
| `PathFilters.ComparePath` | src/pkg/filters/filters.go:234-474 | a path passes exactly if some target's elements relate to it, or no target's if negated |
| `PathFilters.NegatedReadingsAgreeIff` | src/pkg/filters/filters.go:248-349 | the documented and the implemented reading of a negated filter agree exactly if there are targets, and all of them relate or none does |
| `PathFilters.NegatedReadingsDiffer` | src/pkg/filters/filters.go:248-253 | two targets on which they differ |
| `CollectionInflation.FoldMeans` | src/internal/kopia/upload.go:876-967 | the loop over collections succeeds exactly on loadable inputs, and its maps and tree mean what they should: moved locations are recorded with the current location of the collection that was there |
| `CollectionInflation.InflateMeans` | src/internal/kopia/upload.go:858-989 | accepted collections are exactly the consistent ones; the tree holds each live collection at its path and nothing else, and the update map is exactly previous to new |
| `CollectionInflation.InflateIgnoresOrder` | src/internal/kopia/upload.go:858-989 | neither acceptance nor the result depends on the order of the input |
| `TraversalEmission.UnchangedHasNoCollections` | src/internal/kopia/upload.go:991-1033 | where the change test says unchanged, no collection lies at or below the new path |
| `TraversalEmission.PrunedSubtree` | src/internal/kopia/upload.go:1117-1172 | streaming an untouched subtree as a whole emits what visiting each of its directories would |
| `TraversalEmission.AddBaseEmits` | src/internal/kopia/upload.go:1167-1222 | attaching a base directory adds exactly its files that are neither seen nor excluded, unless the collection forbids merging |
| `TraversalEmission.TraverseEmits` | src/internal/kopia/upload.go:1047-1222 | with injective resolution the traversal adds exactly the files of all places below, pruned or not |
| `HierarchyMerge.ReadBackFaithful` | src/internal/kopia/upload.go:1205-1213 | the reparse of printed paths never changes a path |
| `HierarchyMerge.NestedIs` | src/internal/kopia/upload.go:1302-1327 | looking up names one after the other finds exactly the directory they lead to, wherever its entries are listed |
| `HierarchyMerge.NestedFails` | src/internal/kopia/upload.go:1315-1327 | the lookup fails as missing exactly if on the way there is no entry of the name, and as no directory exactly if that entry is a file |
| `HierarchyMerge.SubtreesAre` | src/internal/kopia/upload.go:1270-1303 | exactly the reasons of complete bases are merged, each into the snapshot of its base |
| `HierarchyMerge.InflateSubtreesEmits` | src/internal/kopia/upload.go:1261-1366 | merging several subtrees one after the other adds the files of all their places |
| `HierarchyMerge.ResolveAgrees` | src/internal/kopia/upload.go:1074-1113 | the path computed top-down from the update map is the one of the nearest ancestor that a collection mentions |
| `HierarchyMerge.SubtreePlacesAre` | src/internal/kopia/upload.go:1302-1352 | the traversal reaches exactly the directories of the subtree, each with its resolved path |
| `HierarchyMerge.SubtreeChangedMeans` | src/internal/kopia/upload.go:991-1033 | the change test in elements: something is in the tree at the new path, or a collection mentions a path below the old one, or at or below a sibling whose name begins alike |
| `HierarchyMerge.DereferencesIff` | src/internal/kopia/upload.go:1315-1338 | the unchecked dereference is safe exactly if no collection deletes the root of a subtree that the snapshot holds |
| `HierarchyMerge.SuccessDeletesNoHeldRoot` | src/internal/kopia/upload.go:1315-1338 | a merge that succeeds has not dereferenced nil: no such root was deleted |
| `HierarchyMerge.MergeCorrect` | src/internal/kopia/upload.go:858-1425 | the merged tree emits exactly the live streamed items, and each base file whose directory resolves to a live path that allows merging, if its name is neither reported nor excluded |
| `HierarchyMerge.MergedFromSubtrees` | src/internal/kopia/upload.go:1403-1407 | the same in terms of complete bases and their reasons |
| `HierarchyMerge.PruningRefinesFullTraversal` | src/internal/kopia/upload.go:1117-1172 | with and without pruning the same files go from and to the same places |
| `TreeInvariants.AncestorResolves` | src/internal/kopia/upload.go:1074-1113 | a directory that resolves below a path without collections has an ancestor that resolves to that path |
| `TreeInvariants.TreeInvariant` | src/internal/kopia/upload.go:1179-1218 | in the merged tree a streamed directory has no collection and no children, and the collections are exactly the live ones at their paths |
| `TreeInvariants.NoPathTwice` | src/internal/kopia/upload.go:705-727 | a tree of that shape has a single source for every path |
| `TreeInvariants.MergedHasNoPathTwice` | src/internal/kopia/upload.go:1381-1425 | the merged snapshot emits no path twice, if item IDs are unique in each collection |
| `CollidingDirectories.MergeKeeps` | src/internal/kopia/upload.go:858-1425 | whatever resolves to what, the merge keeps all collections, and streams base subtrees only where no collection is at or below |
| `CollidingDirectories.CollisionLosesAFile` | src/internal/kopia/upload.go:1215-1218 | files of two directories that resolve to one path are never both emitted, if nothing is pruned or a collection goes there or below |
| `CollidingDirectories.CollisionBreaksMerge` | src/internal/kopia/upload.go:1215-1218 | so if both have files that should survive, the equation of the merge theorem fails for one of them |
| `CollidingDirectories.UnchangedReplaces` | src/internal/kopia/upload.go:1172-1218 | an unchanged directory, with files or without, replaces what another directory had at its path |
| `CollidingDirectories.MovedOntoLosesAFile` | src/internal/kopia/upload.go:858-1425 | for every subtree: a directory moved onto one that no collection mentions is accepted, and breaks the merge theorem |
| `MergeSucceeds.VisitSucceeds` | src/internal/kopia/upload.go:1061-1072 | below the depth limit of 500, with readable paths, the traversal does not fail |
| `MergeSucceeds.MergeSucceedsIff` | src/internal/kopia/upload.go:1261-1425 | with subtrees of legal height the merge succeeds exactly on consistent collections that delete no root of a held subtree; otherwise consistent collections end in a nil dereference |
| `MergeSucceeds.PruningKeepsSuccess` | src/internal/kopia/upload.go:1117-1172 | the merge with pruning succeeds if the one without does, and emits the same files |
| `TreeMaps.Hierarchy.MaybeGetTreeNode` | src/internal/kopia/upload.go:772-790 | returns the node of the path exactly if the path is in the tree |
| `TreeMaps.Hierarchy.GetTreeNode` | src/internal/kopia/upload.go:795-826 | returns the node of the path; the tree gains exactly the missing nodes on the way |
| `TreeMaps.Hierarchy.SetNode` | src/internal/kopia/upload.go:1215-1218 | assigning to a node through its pointer changes that path of the tree and no other |
| `TreeMaps.Hierarchy.Descend` | src/internal/kopia/upload.go:806-823 | one step down creates at most the next node |
| `TreeMaps.Hierarchy.Root` | src/internal/kopia/upload.go:796-804 | the first step creates at most the root |
| `HierarchyInflation.RecordLocation` | src/internal/kopia/upload.go:828-851 | moved collections need both locations, and a location may be registered once |
| `HierarchyInflation.BookCollection` | src/internal/kopia/upload.go:882-947 | the switch over the state updates maps, or fails, as the specification does |
| `HierarchyInflation.PlaceCollection` | src/internal/kopia/upload.go:949-966 | a live collection is placed at its path unless the path is missing or taken |
| `HierarchyInflation.FindConflict` | src/internal/kopia/upload.go:969-986 | finds a moved or deleted path that is also a not-moved collection, if there is one |
| `HierarchyInflation.InflateCollection` | src/internal/kopia/upload.go:876-967 | one pass of the loop is one step of the fold |
| `HierarchyInflation.InflateCollectionTree` | src/internal/kopia/upload.go:858-989 | tree, update map or error are those of the specification, for which acceptance and meaning are proved |
| `HierarchyInflation.FindSubtreeChange` | src/internal/kopia/upload.go:991-1033 | the loop over updated paths decides the specified change test, with its string-prefix comparison |
| `HierarchyInflation.AttachBase` | src/internal/kopia/upload.go:1167-1219 | attaching in place has the specified effect on the whole tree |
| `HierarchyInflation.TraverseBaseDir` | src/internal/kopia/upload.go:1047-1222 | the recursive method over the mutable tree refines the traversal function |
| `HierarchyInflation.VisitBaseDir` | src/internal/kopia/upload.go:1117-1222 | so does the part below the resolution of a directory's own path |
| `HierarchyInflation.TraverseEntriesOf` | src/internal/kopia/upload.go:1124-1162 | the loop over entries visits each subdirectory in order and notes whether there are files |
| `KopiaDirs.OwnFiles` | src/internal/kopia/upload.go:456-681 | a listing has exactly the node's live streamed items and its surviving base files |
| `KopiaDirs.OwnSubdirs` | src/internal/kopia/upload.go:569-613 | a base subdirectory is listed exactly if the node streams its base entries |
| `KopiaDirs.NodeUploadsWhatItEmits` | src/internal/kopia/upload.go:549-681 | walking a node's listing, streamed subdirectories included, uploads exactly what the node emits |
| `DirectoryIterator.CorsoDirectoryIterator.constructor` | src/internal/kopia/upload.go:270-317 | a new iterator has the whole listing of its directory ahead of it |
| `DirectoryIterator.CorsoDirectoryIterator.Next` | src/internal/kopia/upload.go:325-454 | returns the first entry that is left, or nil when none is and from then on; phases never decrease; exactly what belongs to the returned file is registered, and errors are accounted for |
| `DirectoryIterator.CorsoDirectoryIterator.Phase` | src/internal/kopia/upload.go:340-453 | one pass of the switch yields the next entry, or leaves all entries and advances the phase |
| `DirectoryIterator.CorsoDirectoryIterator.NextStaticEnt` | src/internal/kopia/upload.go:346-354 | static children are yielded in order, each once |
| `DirectoryIterator.CorsoDirectoryIterator.NextStreamEnt` | src/internal/kopia/upload.go:456-547 | deletion markers are remembered and skipped; the next live item is yielded, and if it describes itself it is registered with its path as both repo and previous path |
| `DirectoryIterator.CorsoDirectoryIterator.NextBaseEnt` | src/internal/kopia/upload.go:549-681 | the next base file that is neither seen nor excluded is yielded, and unless it is metadata it is registered with its new path, the path it had, and its mod time; subdirectories only if streamed |
| `DirectoryIterator.PutOfIs` | src/internal/kopia/upload.go:507-531 | what is registered for a file, field by field: key, path, previous path, current location, mod time, and whether it describes itself |
| `DirectoryIterator.CorsoDirectoryIterator.PutsAreTold` | src/internal/kopia/upload.go:640-674 | over a whole listing, exactly what belongs to the listed files is registered |
| `DirectoryIterator.FaultlessListing` | src/internal/kopia/upload.go:325-454 | without faults the listing is the static children followed by what the node lists |
| `DirectoryIterator.DeliveredItemsAreListed` | src/internal/kopia/upload.go:456-547 | whatever goes wrong, exactly the live items that were delivered before the stream stopped are listed |
| `DirectoryIterator.DeliveredFilesAreListed` | src/internal/kopia/upload.go:549-681 | and exactly the base files that were delivered, and are neither named by a delivered item nor excluded |
| `DirectoryIterator.SeenNamesComeFromTheStream` | src/internal/kopia/upload.go:615-620 | a base file named by any received item, deleted ones included, is never listed |
| `DirectoryIterator.List` | src/internal/kopia/upload.go:325-454 | repeated `Next` ends, in the last phase, having returned the listing in order; the registrations are exactly those that belong to the listed files; each fault is counted once |
| `HierarchyBuild.InflateReason` | src/internal/kopia/upload.go:1302-1352 | one reason merges its subtree, or nothing if the base has no such directory; a deleted root of one it has is dereferenced |
| `HierarchyBuild.InflateBaseTree` | src/internal/kopia/upload.go:1261-1366 | merges the subtrees of all reasons of a base; incomplete bases are skipped |
| `HierarchyBuild.InflateBases` | src/internal/kopia/upload.go:1403-1407 | the loop over bases merges all their subtrees |
| `HierarchyBuild.BuildKopiaDirs` | src/internal/kopia/upload.go:685-728 | each node of the tree becomes one directory with that node's parameters and children |
| `HierarchyBuild.WholeTreeUploads` | src/internal/kopia/upload.go:685-728 | walking the built directory uploads exactly what the tree emits |
| `HierarchyBuild.BuildRoot` | src/internal/kopia/upload.go:1409-1424 | fails exactly on trees with several roots |
| `HierarchyBuild.InflateDirTree` | src/internal/kopia/upload.go:1381-1425 | without an error kopia uploads what the merged tree emits; an error is the merge's, or several roots |
| `HierarchyBuild.MergesInOneTenant` | src/internal/kopia/upload.go:1381-1425 | in one tenant the merge succeeds exactly on consistent collections that delete no root of a held subtree, and has at most one root |
| `HierarchyBuild.MergeBackups` | src/internal/kopia/upload.go:1368-1425 | the whole function uploads exactly the live streamed items and the base files that resolve and survive, and in one tenant fails exactly on inconsistent collections and deleted roots of held subtrees |
| `Cleanup.TransferTags` | src/internal/kopia/cleanup_backups.go:303-347 | a backup takes over tenant, service and category tags of its snapshot, or the tags are incomplete |
| `Cleanup.KeysForBackup` | src/internal/kopia/cleanup_backups.go:351-378 | one key for each service-category tag |
| `Cleanup.TransferredKeys` | src/internal/kopia/cleanup_backups.go:295-378 | the keys after the transfer are tenant, resource and the kinds in the snapshot's labels and the backup's own tags, and no others |
| `Cleanup.SortedStartsWithNewest` | src/internal/kopia/cleanup_backups.go:432-434 | the stable sort by descending time begins with the newest, the first listed among equals |
| `Cleanup.AddToGroups` | src/internal/kopia/cleanup_backups.go:402-404 | a backup is appended to the group of each of its keys and to no other |
| `Cleanup.GroupByReason` | src/internal/kopia/cleanup_backups.go:387-405 | every backup with keys is a candidate, and each group has exactly the backups with its key, in order |
| `Cleanup.PiecesOf` | src/internal/kopia/cleanup_backups.go:446-463 | the pieces of the candidates that are left, and nothing else |
| `Cleanup.CollectOldAssistBases` | src/internal/kopia/cleanup_backups.go:380-464 | returns exactly the pieces of the backups that are not the newest, or older than the newest merge base, for every one of their keys |
| `OrphanCleanup.OrphansAreMarked` | src/internal/kopia/cleanup_backups.go:147-253 | after the loop an old entry is marked exactly if it is no piece of a complete backup, whatever the order |
| `OrphanCleanup.RecentIsNewest` | src/internal/kopia/cleanup_backups.go:234-251 | the recorded merge base time of a key is the newest among complete backups that are not assist backups |
| `OrphanCleanup.NewestIsYoungest` | src/internal/kopia/cleanup_backups.go:432-443 | the head of a sorted group is its youngest backup in listing order |
| `OrphanCleanup.SupersededMeans` | src/internal/kopia/cleanup_backups.go:407-444 | a collected assist backup is outdated for each of its keys, in terms of the listing alone |
| `OrphanCleanup.SortSnapshots` | src/internal/kopia/cleanup_backups.go:92-109 | old snapshots are split by their tag into item data and details; young ones are left alone |
| `OrphanCleanup.OldDetails` | src/internal/kopia/cleanup_backups.go:119-128 | exactly the old legacy details are picked |
| `OrphanCleanup.RecordMergeBase` | src/internal/kopia/cleanup_backups.go:242-251 | each key keeps the later of two times |
| `OrphanCleanup.MarkBackups` | src/internal/kopia/cleanup_backups.go:147-253 | the loop fails exactly if some old model cannot be loaded, and otherwise leaves the maps of the specification |
| `OrphanCleanup.CleanupOrphanedData` | src/internal/kopia/cleanup_backups.go:27-288 | deletes exactly the old entries of no complete backup and the pieces of superseded assist backups; nothing if a model cannot be loaded |
| `DeletionMeans.DeletedShouldGo` | src/internal/kopia/cleanup_backups.go:27-464 | the deletion set in terms of the store alone: times, labels, tags and IDs of its entries |
| `OrphanCleanup.DeletedIsOld` | src/internal/kopia/cleanup_backups.go:35-52 | nothing young is ever deleted |
| `CleanupAgain.SecondCleanupDeletesNothing` | src/internal/kopia/cleanup_backups.go:27-288 | on a cleanly split store a second cleanup at the same clock deletes nothing |
| `CleanupAgain.SecondCleanupIff` | src/internal/kopia/cleanup_backups.go:27-288 | a second cleanup deletes nothing exactly if backups that stay share no piece with those that go, and no legacy details are left behind |
| `CleanupAgain.SharingIsPunished` | src/internal/kopia/cleanup_backups.go:446-463 | a backup that shares a piece with a superseded one is deleted by the second cleanup |
| `CleanupAgain.LeftoversArePunished` | src/internal/kopia/cleanup_backups.go:446-463 | legacy details of a superseded backup are deleted only by the second cleanup |
| `BaseFinder.SortByModTime` | src/internal/kopia/base_finder.go:155-157 | the manifests in the order of their times, each as often as before |
| `BaseFinder.CandidateMeans` | src/internal/kopia/base_finder.go:168-214 | a manifest leads to a backup exactly if it loads, is complete, names that backup, which alone has this ID, and the backup loads, has details, and names this very snapshot |
| `BaseFinder.CompleteBackup` | src/internal/kopia/base_finder.go:168-214 | finds the backup that the manifest leads to, and none if it leads to none |
| `BaseFinder.FindBasesInSet` | src/internal/kopia/base_finder.go:147-270 | the merge base is the newest complete merge backup; the assist base is the newest complete assist backup that is not older; neither is found only if there is none |
| `CleanupVsFinder.TidyIsCleanlySplit` | src/internal/kopia/cleanup_backups.go:147-253 | tidy stores are cleanly split, so cleanup on them is idempotent |
| `CleanupVsFinder.SelectedAssistStays` | src/internal/kopia/cleanup_backups.go:421-444 | without previews, the assist backup the finder selects is never deleted |
| `CleanupVsFinder.SameMergeBase` | src/internal/kopia/base_finder.go:155-263 | the merge base found for a reason is the same before and after cleanup, with previews and backups of unknown types too |
| `CleanupVsFinder.SameAssistBase` | src/internal/kopia/base_finder.go:155-263 | so is the assist base, without previews |
| `CleanupVsFinder.AssistAnswerIff` | src/internal/kopia/cleanup_backups.go:407-444 | with previews, the assist base found is the same before and after cleanup exactly if it is no backup that for each of its keys is older than another assist backup or any backup of another type |
| `CleanupVsFinder.CleanupIsInvisible` | src/internal/kopia/cleanup_backups.go:27-288 | on tidy stores without previews the finder's answer to every reason is the same before and after cleanup |
| `CleanupPreviews.PreviewHidesAssist` | src/internal/kopia/cleanup_backups.go:234-251 | on every tidy store of an assist backup and a later preview of its kind, the finder selects the assist backup and cleanup deletes it |
| `CleanupPreviews.SomePreviewIsLater` | src/internal/kopia/cleanup_backups.go:234-251 | there are such stores |
| `SearchAfterCleanup.OwnerAnswers` | src/internal/kopia/base_finder.go:299-359 | the result of the search that has a reason is the newest base for it |
| `SearchAfterCleanup.FindBasesIgnoresCleanup` | src/internal/kopia/base_finder.go:299-359 | the search for bases, before and after cleanup: on canonical tags, without previews, every reason goes to the same backup with the same snapshot, or to none |
| `CleanupHypotheses.StraddlingBackupIsLost` | src/internal/kopia/cleanup_backups.go:92-198 | an old snapshot of a merge backup is deleted exactly if the backup's model or details are not old as well |
| `CleanupHypotheses.LostBackupIsNotFound` | src/internal/kopia/base_finder.go:286-296 | a straddling backup whose model survives is no longer found |
| `CleanupHypotheses.CanonicalKeys` | src/internal/kopia/cleanup_backups.go:295-378 | the keys of a canonically tagged backup are those of its own kinds |
| `CleanupHypotheses.SearchAgreesWithKeys` | src/internal/kopia/base_finder.go:33-43 | on canonical tags the finder's search tags and cleanup's key pick the same backups |
| `CleanupInterleaving.RunKeeps` | src/internal/kopia/cleanup_backups.go:66-134 | in every interleaving of backup writes, clock ticks and cleanup steps, listings and deletions stay within what was written before the cutoff |
| `CleanupInterleaving.OverlappingBackupKeepsItsPieces` | src/internal/kopia/cleanup_backups.go:35-52 | a backup that overlaps a cleanup loses nothing to it if its write span plus the cleanup's duration is at most the buffer |
| `CleanupInterleaving.FinishedBackupSurvives` | src/internal/kopia/cleanup_backups.go:281-285 | a finished backup that is no assist backup survives every cleanup, however long it takes, whose cutoff is before its write span, or whose start and cutoff are after it |
| `CleanupInterleaving.LateClockLosesBackup` | src/internal/kopia/cleanup_backups.go:66-134 | whatever the buffer, in some run a cleanup lists snapshots, reads the clock late, and deletes model and details of a backup written in between |
| `BackupBases.UsableOnesAre` | src/internal/kopia/backup_bases.go:271-334 | a base is kept exactly if it has a backup, a complete snapshot, details and a reason, all with IDs |
| `BackupBases.FixupMinRequirements` | src/internal/kopia/backup_bases.go:271-334 | keeps the usable bases in order |
| `BackupBases.GroupByReason` | src/internal/kopia/backup_bases.go:359-367 | the group of a key has exactly the bases that claim it |
| `BackupBases.Youngest` | src/internal/kopia/backup_bases.go:389-395 | the base that is kept for a key has the maximal creation time |
| `BackupBases.FixupReasons` | src/internal/kopia/backup_bases.go:336-437 | each claimed key is on exactly one result, once, and that result has the ID of a youngest base that claims it; each claimed reason is kept once, by the backup of a youngest base that has it |
| `BackupBases.EachReasonOnce` | src/internal/kopia/backup_bases.go:336-437 | a base claimed for several reasons keeps each of them, unless a younger base has it |
| `BackupBases.FixupIgnoresMapOrder` | src/internal/kopia/backup_bases.go:372-436 | without ties any two iteration orders give the same bases the same keys |
| `BackupBases.MissingCount` | src/internal/kopia/backup_bases.go:172-200 | exactly the keys not yet seen are taken over, as often as they were there |
| `BackupBases.MissingAre` | src/internal/kopia/backup_bases.go:172-200 | a base taken over is one of the other side's, with a sub-list of its reasons, none of them seen |
| `BackupBases.GetMissingBases` | src/internal/kopia/backup_bases.go:172-200 | the loop computes the specified list |
| `BackupBases.KeysOf` | src/internal/kopia/backup_bases.go:236-258 | the set of keys of all reasons of the bases |
| `BackupBases.Bases.ConvertToAssistBase` | src/internal/kopia/backup_bases.go:101-111 | the first merge base with the ID moves to the end of the assist bases; kopia's snapshots stay the same |
| `BackupBases.Bases.DisableMergeBases` | src/internal/kopia/backup_bases.go:149-158 | all merge bases become assist bases, and kopia's snapshots stay the same |
| `BackupBases.Bases.DisableAssistBases` | src/internal/kopia/backup_bases.go:168-170 | from then on no assist base is offered |
| `BackupBases.Bases.MergeBackupBases` | src/internal/kopia/backup_bases.go:202-269 | each key of either side's merge bases is covered as often as before, the receiver winning; the other's assist bases count only for keys the receiver does not cover at all; every base taken over is one of the other's, with a sub-list of its reasons |
| `BaseSearch.Collect` | src/internal/kopia/base_finder.go:328-348 | reasons of one base are collected on it, and none is lost |
| `BaseSearch.FixupAndVerify` | src/internal/kopia/backup_bases.go:439-463 | of any bases, the usable ones share out their keys, each key going to one result of a youngest claimant; of those the search collected, each reason with an answer is owned by exactly one |
| `BaseSearch.FindBases` | src/internal/kopia/base_finder.go:299-359 | of the listed reasons, each with a newest base of a kind is a reason of exactly one result of that kind, once, and results have no other reasons and answer those they have |
| `BaseSearch.AnswersByReason` | src/internal/kopia/base_finder.go:299-359 | sharing out keys shares out reasons |
| `ReasonNames.RealKindsAre` | src/pkg/path/category_type.go:86-110 | the services and categories that go together, by name |
| `ReasonNames.RealReasonsApart` | src/internal/kopia/base_finder.go:33-43 | reasons of one tenant with real services and categories read differently when joined, whatever the resources are called |
| `ReasonNames.RealReasonsAnswered` | src/internal/kopia/base_finder.go:299-359 | so the hypothesis of the search holds for all reasons of one tenant |
| `ReasonNames.CategoriesTellApart` | src/internal/kopia/base_finder.go:41-42 | reasons that differ in the category read differently, whatever it is called |
| `AnswerMeans.SearchMeans` | src/internal/kopia/base_finder.go:33-43 | the search for a reason finds exactly the snapshots labelled with its resource, with its service and category, and with the given tags |
| `AnswerMeans.TypeMeans` | src/pkg/backup/backup.go:150-165 | types are read off the tag, and without one backups of old versions are merge backups |
| `AnswerMeans.AnswerIs` | src/internal/kopia/base_finder.go:147-270 | in terms of the store: the merge base is the newest complete, labelled merge backup; the assist base the newest assist backup, if no merge backup is newer |
| `AnswerMeans.HasAnswerIff` | src/internal/kopia/base_finder.go:147-270 | exactly when there is one |
| `MergeDetails.Merger.AddRepoRef` | src/internal/kopia/merge_details.go:45-71 | a reference is registered once and never replaced |
| `MergeDetails.LookupFindsFirstRegistration` | src/internal/kopia/merge_details.go:45-109 | after any registrations a lookup answers with the first one for the reference, if that is of the looked-up version, and with nothing otherwise; the location is the recorded or the relocated one |
| `MergeDetails.Merger.GetNewPathRefs` | src/internal/kopia/merge_details.go:73-109 | the method answers so, whatever was registered |
| `MergeDetails.ShortRefsAgreeIff` | src/pkg/path/builder.go:163-186 | even with a perfect hash two paths share a reference exactly if their elements run together alike |
| `MergeDetails.ShortRefIgnoresBoundaries` | src/pkg/path/builder.go:168-175 | moving the boundary between two elements does not change the reference |
| `MergeDetails.JoinedSameBoundaries` | src/pkg/path/builder.go:168-175 | with equal boundaries, elements that run together alike are equal |
| `DetailsMerge.CountCheckIsExact` | src/internal/operations/backup.go:781-874 | additions never exceed the items to merge, and are as many exactly if each registered reference was matched, once, by an entry of the recorded version |
| `DetailsMerge.OffersAre` | src/internal/operations/backup.go:822-862 | on offer are all entries of assist bases, and the entries of merge bases within their reasons |
| `DetailsMerge.RegisteredIsMatched` | src/internal/operations/backup.go:706-771 | a registered item is always matched if a merge base has an entry of the recorded version for it, below the subtree of one of its reasons |
| `DetailsMerge.MergeEntry` | src/internal/operations/backup.go:706-771 | an entry is skipped, added once, or stops the merge, as specified; it is added exactly if it fits a registered reference that was not seen, and for merge bases lies in the subtree of a reason |
| `DetailsMerge.MatchesReasonMeans` | src/internal/operations/backup.go:631-641 | the reason test holds of a parsed path exactly if its second, third and fourth elements are service, resource and category of some reason |
| `DetailsMerge.StopsIff` | src/internal/operations/backup.go:697-761 | exactly which entries stop the merge |
| `DetailsMerge.ItemRefIsRead` | src/internal/operations/backup.go:697-701 | the path of an item behind a valid prefix is always read |
| `DetailsMerge.MergeItemsFromBase` | src/internal/operations/backup.go:678-779 | the loop over a base's entries considers each in order and counts its additions |
| `DetailsMerge.MergeBaseItems` | src/internal/operations/backup.go:822-862 | the loop over bases carries seen items from one base to the next |
| `DetailsMerge.MergeDetailsOf` | src/internal/operations/backup.go:781-874 | unless an entry stops it, the merge fails exactly if some registered item was not matched |
| `DetailsMerge.FitMeansSameJoined` | src/internal/operations/backup.go:643-676 | an entry that fits a reference has elements that run together like those of the registered path, and is of that path exactly if the boundaries are the same |
| `Progress.LandMeans` | src/internal/kopia/upload.go:79-167 | where a finished file lands, exactly when, and what is recorded there: its path, location and mod time; without a trace only with a recorded error |
| `Progress.RunConserves` | src/internal/kopia/upload.go:79-245 | the accounts hold over every run of put, cached, error and finished events |
| `Progress.PendingIsOutstanding` | src/internal/kopia/upload.go:233-245 | pending are exactly the files put and not finished since, so nothing is pending at the end |
| `Progress.FoundWhereItLanded` | src/internal/kopia/upload.go:79-167 | a file is in the details, with its path, location and time, exactly if it landed there, and in the list to merge exactly if it landed there |
| `Progress.FileIsConserved` | src/internal/kopia/upload.go:79-245 | no file is in both; its entry has the location and time it was put with; without errors a finished file is in exactly one, unless its upload failed or it was deleted in flight |
| `Progress.PendingAsPut` | src/internal/kopia/upload.go:198-245 | a pending file is as it was put, except that it may have been reported as cached since |
| `Progress.FinishedLandsIn` | src/internal/kopia/upload.go:79-167 | exactly when a file of a run lands in the details, and when in the list to merge |
| `FilesToDetails.MergedFileIsRegistered` | src/internal/kopia/upload.go:640-674 | a base file that landed in the list to merge is registered under the reference of the path it had, with the path it has now |
| `FilesToDetails.MergedFileKeepsItsDetails` | src/internal/operations/backup.go:706-771 | its details are taken from a base entry for the path it had, and get its new path and location |
| `Progress.CorsoProgress.PutItem` | src/internal/kopia/upload.go:233-238 | the object's step is the put event of the run |
| `Progress.CorsoProgress.Cached` | src/internal/kopia/upload.go:198-207 | the object's step is the cached event: only the pending file changes |
| `Progress.CorsoProgress.Error` | src/internal/kopia/upload.go:212-231 | skippable errors are counted apart, others are recorded |
| `Progress.CorsoProgress.Finished` | src/internal/kopia/upload.go:79-167 | the object's step is the finished event; the file is not pending afterwards, whatever happens; an entry with its path, location and time is added exactly if it was uploaded, describes itself, was not cached, has a location, and kept its time |
| `FaultBus.Bus.New` | src/pkg/fault/fault.go:66-72 | a root bus has recorded nothing |
| `FaultBus.Bus.Local` | src/pkg/fault/fault.go:75-92 | a local of a local has the same root |
| `FaultBus.Bus.Fail` | src/pkg/fault/fault.go:99-109 | bus and root both record the failure; nil changes nothing |
| `FaultBus.Bus.SetFailure` | src/pkg/fault/fault.go:111-131 | the first failure stays, later ones become recoverable, on bus and root |
| `FaultBus.Bus.AddRecoverable` | src/pkg/fault/fault.go:134-143 | bus and root record the error; failing fast promotes the first to a failure |
| `FaultBus.Bus.AddRecoverableErr` | src/pkg/fault/fault.go:158-192 | says whether the error was promoted, and what bus and root become |
| `FaultBus.Bus.AddSkip` | src/pkg/fault/fault.go:231-270 | bus and root record the skipped item, and nothing else changes |
| `FaultBus.Bus.AddAlert` | src/pkg/fault/fault.go:198-230 | bus and root record the alert, and nothing else changes |
| `FaultBus.Perform` | src/pkg/fault/fault.go:79-192 | any operation on any bus of a family refines the family's step |
| `FaultBus.FamilyInvariant` | src/pkg/fault/fault.go:79-192 | over every interleaving the root covers every local, and every reported error is the root's failure or among its recoverables |
| `FaultBus.FailureNeverChanges` | src/pkg/fault/fault.go:111-131 | a set failure never changes and recorded errors are never dropped, on any bus |
| `FaultBus.FailFastFails` | src/pkg/fault/fault.go:158-192 | when failing fast, any reported error leaves the root failed |
| `BackupOutcome.BackupOperation.PersistResults` | src/internal/operations/backup.go:876-923 | fails on a failure or missing counts; otherwise the status says whether there was data |
| `BackupOutcome.BackupOperation.CreateBackupModels` | src/internal/operations/backup.go:926-1054 | the stored type, or that nothing is stored, as errors and policy demand |
| `BackupOutcome.BackupOperation.DoPersistence` | src/internal/operations/backup.go:338-365 | nothing stored means a failure; something stored leaves the faults alone |
| `BackupOutcome.BackupOperation.FinalizeErrorHandling` | src/internal/operations/helpers.go:14-42 | recovered errors become a failure exactly under the policy that says so |
| `BackupOutcome.BackupOperation.Finish` | src/internal/operations/backup.go:194-336 | the end of a run reports a failure exactly if no model is stored, or the policy makes a failure of recovered errors; so also if only an assist backup is stored, after faults such as runs leave them |
| `BackupOutcome.RunsLeaveItSo` | src/pkg/fault/fault.go:158-192 | runs leave them so: when failing fast nothing is recorded without a failure |
| `BackupOutcome.RootShows` | src/pkg/fault/fault.go:79-192 | the root has failed exactly if some bus was told to, or failing fast if anything was reported; it is clean exactly if nothing was reported |
| `BackupOutcome.StoredTypeIffErrors` | src/internal/operations/backup.go:136-187 | for each type exactly when a model of it is stored, in terms of the faults reported on any bus |
| `BackupOutcome.FailFastStoresNothing` | src/internal/operations/backup.go:948-1025 | when failing fast no model is stored after any error |

## Left out

- kopia itself: a base snapshot is a finite tree of named entries, the manifest store a list of manifests; uploading, policies and retention are not modelled.
- Channels, goroutines, contexts: a collection's items are a finite sequence; a cancelled context or a failing base iterator is a fault that stops the stream after any number of entries.
- Base64 encoding of names in trees and snapshots; names in the model are the decoded ones.
- Case and white space outside ASCII in `strings.ToLower`, `strings.TrimSpace` and `strings.EqualFold`; strings are sequences of characters, not UTF-8 bytes.
- SHA-256: `ShortRef` uses any hash function, and the lemmas that need an injective one say so.
- `prefixmatcher`: the exclude set is an arbitrary function from directory to names, and the longest-prefix lookup an arbitrary function from old to new location; the correctness of a relocated location is not claimed.
- Metadata paths and services in the parser; the round trips are for data paths, and `IsMetadataFile` is an arbitrary predicate of the iterator.
- `fs.GetNestedEntry`: modelled as a search by name, level by level.
- Errors of listing snapshots, details or models in cleanup, and of the final deletion: cleanup returns them before it has deleted anything, or from the one deletion call.
- Errors of `Path.Append` and `Path.Dir` inside the iterator; they cannot occur for the directory paths it has.
- `inflateBaseTree` on a subtree root that is not a directory (`src/internal/kopia/upload.go:1324-1327`): the source wraps an absent error there; the model returns an error of its own.
- The previous location of collections that do not implement `PreviousLocationPather`: such collections register no location.
- Folder entries, sizes and the item info in the details builder; a refused entry is modelled by an arbitrary predicate, and added nevertheless, as in the source.
- `HierarchyMerge.MergeCorrect`: assumes `InjectiveResolution`; which of the files of colliding directories is lost depends on the order of traversal and is not stated, only that one is, in `CollidingDirectories.CollisionBreaksMerge`.
- `CollidingDirectories.CollisionLosesAFile`: with pruning, speaks of paths to which, or below which, a collection goes; where none does, an unchanged directory may be streamed from above.
- `BackupBases.FixupIgnoresMapOrder`: assumes that no two bases that claim one key have the same creation time; with ties the map order does decide.
- `CleanupInterleaving.FinishedBackupSurvives`: does not cover assist backups, which cleanup may delete when they are superseded.
- `PathFilters.ContainsMeans`: for elements without backslashes and slashes, and not empty; on others the string tests have no meaning in terms of elements.
- The filters that are not path filters, and `In`, `Identity`, `Pass` and `Fail`.
- Logging, clues, progress bars, metrics and statistics counters; they affect no result.
- The CLI, configuration, events, service controllers, restore, the S3 checker and the website.
- `conn` reference counting, the tagging in `ModelStore`, `count.Bus`, restore grouping and concealment in logs: correct to add, but only easy members.
