# Backstitch: a verified model of its core

Backstitch keeps a project directory, one CRDT document per branch and Godot scene trees in
agreement. This project models the code that does so in Dafny and proves what it keeps.
`dafny verify dfyconfig.toml` checks everything.

## How it is organised

| files | what they model |
|---|---|
| Text, Sorting, Sets | decimal numbers, separated lists, slash paths, sorting of map keys, sets |
| SceneModel, SceneTree, ScenePreorder, ScenePaths, SceneCodec, SceneSections | scenes, their node tree and paths, the encoding of single sections |
| SceneLinks, SceneLinkProof, SceneText, SceneRoundTrip | the parser, its two passes over node paths, and the round trip |
| SceneWriter, SceneStability | the printer as a program, and when its text is unique |
| SceneParsed, SceneAccepted, SceneInstances, SceneVerdict, SceneConnections | what parsing gives for any text: links, instance paths, kept connections, and exactly which texts are accepted |
| SceneRelink, SceneReread, SceneExact | exactly which scenes are printed and parsed to themselves |
| SiblingNames, SceneStore, SceneHash | scenes in the document: string keys, the renaming of siblings on reading, the text and hash of what is read |
| SceneExamples, SceneNested | concrete scenes, most of them breaking a promise |
| Changes, BranchSync, BranchRuns, BranchDb | change sets and heads, the reconciliation protocol, what its runs achieve, its operations on objects |
| Files, HashIndex, CommitEntries, Revert | file entries, stored and computed hashes, commits, revert previews |
| Driver, DriverProof, Normalise | the sync driver, its guarantees over runs, and which files meet its premise |
| MainThreadBlock, Connection, ConnectionRuns, ServerManager | the concurrency protocols |
| HashCache, Calendar, ResourceCompare, SplitView, HistoryUrl | smaller algorithms |

Code of the repository that changes fields, maps or arrays in loops is a class or a method with
loops here. Each method is proved equal to a function, and the properties are proved about the
functions. Concurrent code is a state machine: one event per stretch of code between two await
points, a run is a sequence of enabled events, and the methods of the class carry out single
steps on the shared data.

Hash maps are visited in an unknown order. A `Printer` is any function that prints each scene in
some order, an `Order` any function that lists the keys of a node map; results hold for all of
them.

## What is taken as given

* A scene text is a sequence of sections with attributes and properties, as the parser's queries
  capture them. No captured value is a lone quotation mark, and captured arrays have the form
  the source expects.
* A document is a finite set of changes that contains the dependencies of its members; merging
  is union. Text and map operations of the document library behave as its interface says.
* Hashes are injective on bytes. Branch ids and change hashes are printed and read back by their
  libraries without the separators the URLs use.
* File metadata never repeats for a path while it is cached.

The driver model commits a file as its normal form. Its runs allow user writes of contents whose
normal form is a fixed point; `SettledStable` shows which files those are, and the lemmas on
scenes above which scenes are not.

## Where the code and its promises part

Each of these has a lemma with the exact condition, a concrete run, or both.

* Reading a scene from the document renames siblings with one name and panics on some keys. Then
  one commit suffices and the content read is not the content committed, and its hash is not the
  one stored (`SceneReadBack`, `CommittedHashMatches`, `CommitFits`, `TwinsRenamed`).
* Printing a parsed scene and parsing it again need not give the same scene (`ReparsedExactly`,
  `PrintedTextDiffers`). A checkout can then miss its goal (`UnstableMissesGoal`).
* An empty integer array is read back as `[0]`, and node keys with negative numbers cannot be
  read (`ArrayRoundTrip`, `NodeIdRoundTrip`, `ReadPrintedKey`).
* The walk that finds the instance path of an edited node never ends when a prefix of its
  parent path is not recorded and nothing stops it earlier (`WalkNeverEnds`, `LostTextHangs`).
* The key of a connection joins texts and identifiers with dashes, so two connections may share
  one, and then the first is lost (`KeyTellsApart`, `KeptExactly`, `FirstLost`).
* Sibling renaming compares the parent-path fallback, so a typed and an edited child of the
  root may keep the same path (`PathsSeparated`, `MixedTwins`).
* The reconcile gate covers what was tracked; the live canonical document is merged
  (`FirstForkExact`, `LaterReconcileExact`, `UntrackedPasses`).
* A single stored hash need not belong to a writer that dominates all writers of the file, only
  all writers of the visible entry: a replaced entry hides an edit, and two clients may create
  the path at once (`ReplacedEntryHidesEdit`, `CreatedTwice`, `FileDominated`). The hash is right
  exactly when its writer stored the hash of what is read (`HashTrusted`).
* A revert to a ref with the same files fails instead of making an empty preview
  (`CreateRevertPreview`).
* A driver commit after the branch moved hides the moved files from the checkout, and the next
  commit undoes them (`CommitCovers`, `MovedBranchUndone`, `MovedBranchExample`). An edit between
  commit and checkout is overwritten (`LostExactly`, `LateEditLost`).
* A cancelled wait leaves its registration behind (`CheckpointCanFinish`, `CancelledWaitHangs`).
* Dropping a connect call breaks the promise of disconnect, exactly while its loop has not
  started (`DropExact`, `LateDropDials`, `DroppedConnectDialsLate`).
* A deep comparison that meets an added property answers "unchanged", depending on map order
  (`AdditionHidden`, `HiddenExactly`).
* The 25th four-year block the calendar code corrects for never occurs (`SplitYears`).
* Parsing a history path may panic, and does not sort heads (`PanicsExactly`, `ParsedSorted`).

## Model

| member | source | states |
|---|---|---|
| SceneStability.SaveAndLoad | backstitch/src/parser/godot_parser.rs:409-1394 | printing any scene that meets the condition of ReparsedExactly with the printer program and parsing the sections with the parser program gives the same scene: header, resources, nodes with parents and child order, connections, editable instances |
| SceneRoundTrip.ParsePrinted | backstitch/src/parser/godot_parser.rs:409-579 | whatever order the printer visits hash maps in, every text it may produce for a well-formed scene parses back to that scene |
| SceneExact.ReparsedExactly | backstitch/src/parser/godot_parser.rs:409-1393 | for every text the parser accepts, its scene is printed and parsed to itself if and only if: resources and properties are numbered without gaps, all nodes are reached from the root, no typed or instanced node repeats a number printed before it, parents and connected nodes are the last ones with their paths, and no attribute is lost |
| SceneExact.OnlyOkComesBack | backstitch/src/parser/godot_parser.rs:409-1393 | the necessity half, for any scene of the form parsing gives |
| SceneAccepted.ParseGives | backstitch/src/parser/godot_parser.rs:788-1393 | whatever the text, the parsed scene has agreeing parent links and child lists, paths under which every node hangs below its parent, resources under their ids and connections under their keys and between its nodes |
| SceneAccepted.ReachedTree | backstitch/src/parser/godot_parser.rs:659-665 | the nodes reached from the root of a parsed scene form a tree, so every scene with a root can be printed from one |
| SceneParsed.LinkParsed | backstitch/src/parser/godot_parser.rs:1156-1332 | any nodes of a text that can be linked give such links and paths |
| SceneRelink.RelinksExactly | backstitch/src/parser/godot_parser.rs:1156-1332 | a printed tree that the two passes give back is well placed: its identifiers are those its ancestors give, its parent paths lead to the parents, and the passes met the nodes in pre-order |
| SceneExamples.PrintedTextDiffers | backstitch/src/parser/godot_parser.rs:1160-1170 | an accepted text whose scene, printed in any order, does not parse to itself: a typed node is printed behind an edited one with its number |
| SceneWriter.Writer.Serialize | backstitch/src/parser/godot_parser.rs:409-579 | the printer appends exactly the sections the print relation allows, in the order of resource numbers, pre-order of nodes, and rank of connections; a main resource ends the text |
| SceneWriter.Writer.SerializeNode | backstitch/src/parser/godot_parser.rs:581-666 | a node and its subtree are printed in pre-order and numbered in that order |
| SceneWriter.Writer.PrintNode | backstitch/src/parser/godot_parser.rs:589-650 | the attributes of a node section, with the parent path that depends on root, fallback and parent link |
| SceneWriter.Writer.GetNodePath | backstitch/src/parser/godot_parser.rs:333-383 | the loop over parent links computes the node path |
| SceneWriter.Writer.SortConnections | backstitch/src/parser/godot_parser.rs:514-533 | connections come out ordered by visit number of source, signal, visit number of target, method |
| SceneWriter.RankLeTransitive | backstitch/src/parser/godot_parser.rs:522-533 | the comparison used for connections is a transitive order |
| SceneTree.PathInjective | backstitch/src/parser/godot_parser.rs:333-383 | in a tree with distinct sibling names two nodes never have the same path |
| SceneTree.ParentNameOf | backstitch/src/parser/godot_parser.rs:597-605 | the printed parent path is that of a child of the root exactly for children of the root, and popping a node path gives it back |
| ScenePaths.WholeFinds | backstitch/src/parser/godot_parser.rs:1199-1239 | when the parser meets a node, the path of each of its ancestors leads to that ancestor, whatever nodes share paths |
| ScenePaths.DistinctLast | backstitch/src/parser/godot_parser.rs:333-383 | with distinct sibling names every node is the last with its path |
| ScenePreorder.WholePreorder | backstitch/src/parser/godot_parser.rs:659-665 | the pre-order visits each node once, after its parent, and restores every child list |
| SceneLinkProof.LinkRoundTrip | backstitch/src/parser/godot_parser.rs:1156-1332 | the two passes over paths rebuild the identifiers, parent links, fallbacks and child lists of a printed tree, edited nodes inside instanced scenes included |
| SceneLinks.WalkAncestors | backstitch/src/parser/godot_parser.rs:1199-1239 | the ancestor walk of an edited node, with its early stop at an ancestor that has an instance path, and the case in which it never ends |
| SceneInstances.ParsedNested | backstitch/src/parser/godot_parser.rs:1199-1239 | in every accepted text: an edited node that brings no instance path and whose parent has one takes over the numbers of that path that are not the parent number, each once and in order, and ends in the parent number |
| SceneInstances.NestedMeans | backstitch/src/parser/godot_parser.rs:1210-1221 | so its path ends in the number of the parent, has the numbers of the parent path and no others, none twice, and is the parent path with the parent number behind it unless that would repeat one |
| SceneInstances.InstancePathOf | backstitch/src/parser/godot_parser.rs:1199-1239 | in general the path of an edited node is made of the numbers of the instanced nodes recorded above it, up to the first node with an instance path, and what is taken over from that |
| SceneNested.NestedAccepted | backstitch/src/parser/godot_parser.rs:1199-1239 | a text with two instances, an edited node in each and an edited node below that is accepted, and the keys are 2, 5-2, 6-2-5 and 3, 5-3, 6-3-5 |
| SceneLinks.WalkNeverEnds | backstitch/src/parser/godot_parser.rs:1204-1237 | the walk loops forever exactly when some prefix of the parent path is not recorded and no longer one stops it |
| SceneExamples.LostTextHangs | backstitch/src/parser/godot_parser.rs:1204-1237 | a text on which the walk never ends |
| SceneLinks.IdentifyNode | backstitch/src/parser/godot_parser.rs:1174-1253 | identifier, parent and remaining fallback of an edited node |
| SceneLinks.AssignIds | backstitch/src/parser/godot_parser.rs:1157-1276 | the first pass over the nodes, with its errors |
| SceneLinks.FindNearest | backstitch/src/parser/godot_parser.rs:1290-1307 | the parent of a node whose path is not recorded is its nearest recorded prefix |
| SceneLinks.AdoptNode | backstitch/src/parser/godot_parser.rs:1280-1319 | a node without parent gets the one its path names, or the nearest recorded one and keeps the path as fallback |
| SceneLinks.AssignParents | backstitch/src/parser/godot_parser.rs:1278-1332 | the second pass: parents and child lists, with its errors |
| SceneText.ResolveConnections | backstitch/src/parser/godot_parser.rs:1333-1370 | connections resolved through paths; those to temporary nodes are dropped, other unknown paths are errors |
| SceneText.ReadSections | backstitch/src/parser/godot_parser.rs:788-1154 | the section loop, with the errors of every kind of section |
| SceneText.ParseScene | backstitch/src/parser/godot_parser.rs:1156-1393 | the whole parser after the section captures |
| SceneVerdict.AcceptsExactly | backstitch/src/parser/godot_parser.rs:782-1394 | a text is accepted if and only if every section has what its kind requires, there is a header, every node can be identified under a new identifier, every parent path has a recorded prefix, and every connection leads to known nodes or is ignored |
| SceneVerdict.ReadsExactly | backstitch/src/parser/godot_parser.rs:822-1154 | the section loop goes through exactly when every section has the attributes its kind requires |
| SceneVerdict.LastCounts | backstitch/src/parser/godot_parser.rs:800-807 | of an attribute given several times the last one counts |
| SceneVerdict.NearestExactly | backstitch/src/parser/godot_parser.rs:1290-1307 | the nearest recorded prefix of a path is found exactly if there is one |
| SceneVerdict.ConnectionsExactly | backstitch/src/parser/godot_parser.rs:1333-1370 | a connection is kept exactly when both ends are known, the last one under each key; it is ignored when its first unknown end is temporary, and anything else is an error |
| SceneVerdict.TemporaryMeans | backstitch/src/parser/godot_parser.rs:1338-1341 | a path is temporary exactly when one of its elements starts with an at sign |
| SceneConnections.KeyTellsApart | backstitch/src/parser/godot_parser.rs:224-240 | for nodes outside instanced scenes, and a signal and method without dashes, the key of a connection tells it apart by everything but the uid paths |
| SceneConnections.KeptExactly | backstitch/src/parser/godot_parser.rs:1366-1370 | no connection of a text is lost if and only if those with one key are the same |
| SceneConnections.FirstLost | backstitch/src/parser/godot_parser.rs:224-240 | two connections, from node 5-2 to node 3 and from node 5 to node 2-3, have one key, and the first is lost |
| SceneSections.ReadPrintedNode | backstitch/src/parser/godot_parser.rs:922-992 | a printed node section is read back attribute by attribute, all but the links |
| SceneSections.ReadPrintedExt | backstitch/src/parser/godot_parser.rs:998-1042 | a printed external resource is read back |
| SceneSections.ReadPrintedSub | backstitch/src/parser/godot_parser.rs:1044-1072 | a printed sub-resource is read back with its property order |
| SceneSections.ReadPrintedHeader | backstitch/src/parser/godot_parser.rs:829-919 | both kinds of header are read back |
| SceneSections.ReadPrintedConnection | backstitch/src/parser/godot_parser.rs:1074-1141 | a printed connection is read back up to its node identifiers |
| SceneCodec.ReadPrintedProperties | backstitch/src/parser/godot_parser.rs:810-820 | properties printed by order come back with the same order numbers |
| SceneCodec.ArrayRoundTrip | backstitch/src/parser/godot_parser.rs:691-714 | an integer array survives printing and parsing exactly when it is not empty; the empty one becomes [0] |
| SceneCodec.NodeIdRoundTrip | backstitch/src/parser/godot_parser.rs:110-160 | a node identifier can be read from its map key exactly when no number is negative and the instance path is not an empty list |
| SceneStability.StableText | backstitch/src/parser/godot_parser.rs:514-533 | the printed text is independent of map order if and only if no two connections share source, signal, target and method |
| SceneStability.Reprinted | backstitch/src/parser/godot_parser.rs:404-579 | without such pairs, printing the parsed scene gives the first text again |
| SceneModel.LookupPresent | backstitch/src/parser/godot_parser.rs:800-807 | a printed attribute is found under its key, an omitted one is not |
| Sorting.SortKeys | backstitch/src/parser/godot_parser.rs:440-444 | sorting the keys of a map that come in any order: a sorted listing of all of them |
| SiblingNames.HydrateNodes | backstitch/src/parser/godot_parser.rs:38-87 | the renaming loops end, in whatever order nodes are visited; unless a number overflows, no two siblings share name and fallback afterwards and only names changed |
| SiblingNames.SettleName | backstitch/src/parser/godot_parser.rs:54-86 | the loop for one node ends at the first free name of its numbered sequence |
| SiblingNames.FindClash | backstitch/src/parser/godot_parser.rs:57-68 | the scan of the children finds a clash exactly when another child has both name and fallback |
| SiblingNames.NextNumber | backstitch/src/parser/godot_parser.rs:37-79 | each renaming keeps the stem of the name and raises its number by one, or overflows |
| SiblingNames.SettleFinds | backstitch/src/parser/godot_parser.rs:54-86 | the name found is free, keeps the stem, and skips only taken names |
| SiblingNames.SettlesFirst | backstitch/src/parser/godot_parser.rs:54-86 | the search ends at the first free name of the sequence of the name and its stem with the following numbers, written without leading zeros, or fails when all of them up to the 64-bit maximum are taken |
| SiblingNames.PassSeparates | backstitch/src/parser/godot_parser.rs:38-87 | after the pass, in any order, no two children of a parent share name and fallback, and only names changed |
| SiblingNames.SecondPassIdentity | backstitch/src/parser/godot_parser.rs:38-87 | a second pass in any other order changes nothing |
| SiblingNames.NoOverflow | backstitch/src/parser/godot_parser.rs:74-76 | numbers overflow only if a name already ends in a number near the 64-bit maximum |
| SiblingNames.PathsSeparated | backstitch/src/parser/godot_parser.rs:63-68 | after the pass siblings have distinct paths exactly when the root has no typed and edited child of the same name |
| SceneExamples.MixedTwins | backstitch/src/parser/godot_parser.rs:63-68 | a typed and an edited child of the root that keep one name and one path |
| SceneStore.SceneReadBack | backstitch/src/parser/godot_parser.rs:25-101 | a stored scene is read back as it was, in whatever order the read visits its nodes, if and only if every key can be read and no node has the name and fallback of a sibling; otherwise the read renames nodes or panics |
| SceneStore.HydrateScene | backstitch/src/parser/godot_parser.rs:25-93 | the whole read: keys parsed, with the panic on one that cannot be, then the renaming in some order; it gives back the stored scene exactly when that survives |
| SceneStore.ReadPrintedKey | backstitch/src/parser/godot_parser.rs:110-156 | a node key is read back exactly when its numbers are non-negative 32-bit integers and its instance path is not empty; otherwise not at all, or as the same key without the empty path |
| SceneStore.ReconcileNodes | backstitch/src/parser/godot_parser.rs:95-102 | nodes are stored under their printed identifiers; of two with one key either may be kept |
| SceneStore.RenamesNothing | backstitch/src/parser/godot_parser.rs:38-87 | the renaming pass changes nothing, in any order, exactly when no node has a clash |
| SceneStore.UnclashedDistinct | backstitch/src/parser/godot_parser.rs:53-87 | for agreeing parent links and child lists that is the same as distinct names among siblings |
| SceneStore.ReadSurvives | backstitch/src/parser/godot_parser.rs:25-101 | a scene that was read once is read back unchanged when it is stored again |
| SceneHash.TextReadBack | backstitch/src/fs/file_utils.rs:109-111 | the text of a stored scene as read back is its text at the commit exactly when nothing was renamed |
| SceneExamples.TwinsRenamed | backstitch/src/parser/godot_parser.rs:34-87 | a text with two typed nodes of one name below the root: it is accepted, stored, and in no order read back as it was |
| Changes.HeadsDetermine | backstitch/src/project/branch_db/branch_sync.rs:241-247 | two causally closed change sets have the same heads exactly when they are equal |
| Changes.HeadsContain | backstitch/src/project/branch_db/branch_sync.rs:241-247 | a document that holds the heads of another holds its whole history |
| Changes.CommitHeads | backstitch/src/project/branch_db/commit.rs:226-262 | a commit on the heads of a document becomes its only head |
| BranchSync.RunsReconcile | backstitch/src/project/branch_db/branch_sync.rs:159-325 | in every run of the asynchronous steps, between operations: statuses agree with the binary documents, and a branch without pending ones has a shadow with everything tracked and nothing the canonical document lacks |
| BranchRuns.ReportedReconciled | backstitch/src/project/branch_db/branch_sync.rs:196-325 | in every run, between operations: once all documents linked by the last update of a branch have been ingested, the shadow has the whole history of the heads that update reported |
| BranchRuns.StatusReported | backstitch/src/project/branch_db/branch_sync.rs:159-230 | and the status of each linked document is what its last ingest reported |
| BranchRuns.ShadowGated | backstitch/src/project/branch_db/branch_sync.rs:257-325 | whatever is in a shadow was committed or merged there, or passed a reconcile at which all documents linked by the last update had been ingested |
| BranchRuns.HeldExactly | backstitch/src/project/branch_db/branch_sync.rs:289-313 | a branch holds a change if and only if some event of the run brought it: the first update, a remote change, a commit, or a merge of a shadow that had it |
| BranchRuns.StepMoves | backstitch/src/project/branch_db/branch_sync.rs:289-313 | what is received goes to the canonical document, what is written to the shadow, and only a reconcile with nothing pending carries changes between them |
| BranchRuns.MergedStays | backstitch/src/project/branch_db/merge_revert.rs:61-128 | what a merge takes over from the source stays in the target for good |
| BranchSync.StepKeeps | backstitch/src/project/branch_db/branch_sync.rs:159-325 | every step keeps the invariant behind that, also while an ingest is half done and reconciles are outstanding |
| BranchSync.RunLosesNothing | backstitch/src/project/branch_db/branch_sync.rs:289-313 | no document loses a change in any run |
| BranchSync.ReconcileCompletes | backstitch/src/project/branch_db/branch_sync.rs:281-319 | a completed reconcile leaves both documents equal, at the heads recorded as tracked and reconciled, and a second one does nothing |
| BranchSync.UpToDateMeans | backstitch/src/project/branch_db/branch_sync.rs:270-279 | the early exit is taken exactly when the recorded heads agree and the shadow is the history of the tracked heads |
| BranchSync.FirstForkExact | backstitch/src/project/branch_db/branch_sync.rs:293-308 | the first reconcile takes exactly what was tracked if and only if the canonical document has not moved since |
| BranchSync.LaterReconcileExact | backstitch/src/project/branch_db/branch_sync.rs:289-313 | a later reconcile adds exactly what was tracked if and only if the canonical document holds nothing else that is new to the shadow |
| BranchSync.UntrackedPasses | backstitch/src/project/branch_db/branch_sync.rs:293-308 | a run in which a change that was never tracked gets into the shadow |
| BranchDb.ResolvedAll | backstitch/src/project/branch_db/branch_sync.rs:249-255 | the check that no binary document is pending |
| BranchDb.BranchSyncState.TryReconcile | backstitch/src/project/branch_db/branch_sync.rs:257-325 | the fields of a branch after an attempt to reconcile |
| BranchDb.BranchDb.IngestBinaryDoc | backstitch/src/project/branch_db/branch_sync.rs:159-194 | every branch that links the document gets its status and tries to reconcile; no other branch changes |
| BranchDb.BranchDb.UpdateBranchSyncState | backstitch/src/project/branch_db/branch_sync.rs:196-237 | statuses, tracked heads and reconcile of the updated branch, created if needed; what the reported heads are good for is ReportedReconciled |
| BranchDb.BranchDb.CommitFsChanges | backstitch/src/project/branch_db/commit.rs:197-284 | the commit goes to the shadow on its heads, then a reconcile is tried; shadow and canonical document grow, no other branch changes, and nothing happens without a shadow |
| BranchDb.BranchDb.MergeBranch | backstitch/src/project/branch_db/merge_revert.rs:61-128 | the target shadow has its own changes, those of the source shadow and the metadata commit on the heads of both, with nothing pending the canonical document has them too, and no other branch changes |
| BranchDb.IngestedIsRun | backstitch/src/project/branch_db/branch_sync.rs:159-194 | the whole ingest is a run of the atomic steps: its start, visits and reconciles, its end |
| BranchDb.UpdatedIsRun | backstitch/src/project/branch_db/branch_sync.rs:196-237 | the whole update is that event, followed by a reconcile or nothing |
| BranchDb.CommittedIsRun | backstitch/src/project/branch_db/commit.rs:197-284 | the whole commit is that event and a reconcile |
| BranchDb.MergedIsRun | backstitch/src/project/branch_db/merge_revert.rs:73-128 | the whole merge is that event, the metadata commit if there is one, and a reconcile |
| HashIndex.GetHashIndex | backstitch/src/project/branch_db/file.rs:31-210 | the index of a ref: the stored hash where exactly one is visible and readable, else the hash of the content as it is read, linked documents included; it panics exactly when some content must be read and its node keys cannot be |
| HashIndex.CollectHashes | backstitch/src/project/branch_db/file.rs:70-123 | the fast or slow choice per file |
| HashIndex.OneVisible | backstitch/src/project/branch_db/file.rs:76-84 | exactly one stored hash is visible if and only if its writer has every other writer of the entry in its past |
| HashIndex.HashTrusted | backstitch/src/project/branch_db/file.rs:71-123 | in every causally closed history the index holds the hash of the content a reader gets, by the fast way or the slow way, if and only if, where a single hash is visible, its writer stored the hash of what a reader of its commit gets |
| HashIndex.FastExactly | backstitch/src/project/branch_db/file.rs:76-100 | of an entry a single hash is visible exactly when one writer of the entry has all its others in its past, so concurrent last writers of the entry force the slow way; writers of another entry of the path do not |
| HashIndex.ReplacedEntryHidesEdit | backstitch/src/project/branch_db/commit.rs:47-63 | a single visible hash does not dominate all writers of the file: a binary commit replaces the entry under a concurrent edit |
| HashIndex.CreatedTwice | backstitch/src/project/branch_db/commit.rs:47-63 | two clients create the path at the same time: both entries are shown, each with a single hash, neither writer has seen the other |
| HashIndex.FileDominated | backstitch/src/project/branch_db/file.rs:71-84 | the writer of the single hash dominates all writers of the file if and only if it has every writer of another entry in its past |
| HashIndex.SeenAtCreation | backstitch/src/project/branch_db/file.rs:71-84 | which is so when the writers of other entries had been seen by the change that created the entry |
| HashIndex.OneEntryDominates | backstitch/src/project/branch_db/file.rs:71-84 | with one entry in the history it does |
| Files.GetFileChanges | backstitch/src/project/fs/fs_traversal.rs:69-99 | the two loops report a path exactly when the indices differ there, with the right kind |
| Files.SteadyRead | backstitch/src/fs/file_utils.rs:115-160 | a content whose keys are readable, whose siblings have distinct names and whose text does not depend on map order is read as it is held |
| Files.SteadyHash | backstitch/src/fs/file_utils.rs:109-111 | and has one hash, whatever order it is printed in |
| CommitEntries.Transaction.CommitEntries | backstitch/src/project/branch_db/commit.rs:40-138 | every path of the transaction and the list of reported changes |
| CommitEntries.LastItemReads | backstitch/src/project/branch_db/commit.rs:47-128 | from any starting state a path holds the last item committed for it, with its hash, whatever earlier kinds left behind; texts and links read as that item, a scene as what reading its stored form gives |
| CommitEntries.UntouchedSlot | backstitch/src/project/branch_db/commit.rs:44-137 | paths without items keep their entry |
| CommitEntries.ReportAt | backstitch/src/project/branch_db/commit.rs:48-134 | each item is reported in order, as creation exactly when it found nothing usable, else modification, or as deletion |
| CommitEntries.Committer.CommitFsChanges | backstitch/src/project/branch_db/commit.rs:143-198 | after committing a list of file changes each path holds its last content with the hash of that content, other paths and existing linked documents stay; when that content is read back is CommittedReadBack |
| CommitEntries.CommittedReadBack | backstitch/src/fs/file_utils.rs:115-160 | a committed content is read back, in whatever order the read visits nodes, if and only if it is not a scene or its keys are readable and its sibling names distinct |
| CommitEntries.CommittedHashMatches | backstitch/src/project/branch_db/commit.rs:158-176 | the hash stored for a scene with readable keys is that of the scene a reader gets if and only if no siblings share a name, whatever orders the commit, the read and the later printing use |
| CommitEntries.HashesLast | backstitch/src/project/branch_db/commit.rs:158-163 | the returned map has the hash of the last content of each path |
| Revert.GetFilesAtRef | backstitch/src/project/branch_db/file.rs:268-339 | the contents of the requested paths as they are read, scenes with their renaming; an empty request is an error, an unreadable key a panic |
| Revert.CreateRevertPreview | backstitch/src/project/branch_db/merge_revert.rs:131-200 | where both refs hold contents that reading does not change, with matching hashes, the preview has the files of the target ref, ignored paths aside, and again holds such contents; it fails exactly when the refs show the same files |
| Revert.CommitFits | backstitch/src/project/branch_db/commit.rs:158-176 | every commit makes such an entry, unless it is of a scene with unreadable keys or clashing siblings: the hash stored is that of the content read if and only if the content survives |
| Revert.IntactIndex | backstitch/src/project/branch_db/file.rs:31-210 | the index of such files has the hashes of what they hold, whatever order maps are visited in |
| Revert.IndexedAs | backstitch/src/project/branch_db/file.rs:70-210 | for files of any kind: the index has the stored hash, else the hash of what is read; what cannot be read, or has not arrived, is not in it |
| Revert.IntactForAll | backstitch/src/fs/file_utils.rs:109-111 | what is so for one way of printing is so for all |
| Revert.SameIndex | backstitch/src/project/branch_db/file.rs:212-241 | two refs have the same index exactly when they show the same bytes at every path that is not ignored |
| Driver.DriverInner.Sync | backstitch/src/project/driver.rs:827-862 | one undisturbed round: commit, plan, checkout |
| Driver.DriverInner.Commit | backstitch/src/project/driver.rs:864-902 | files to commit, the new ref, and the files waiting for their normal form |
| Driver.DriverInner.QueueNormalizations | backstitch/src/project/driver.rs:882-896 | the loop over committed files: exactly those whose stored form differs are pending, under their disk hash |
| Driver.DriverInner.FilterDiff | backstitch/src/project/fs/sync_fs_to_automerge.rs:138-152 | the diff without files whose pending hash is still on the disk |
| Driver.DriverInner.ResolvePending | backstitch/src/project/driver.rs:904-956 | pending files are overwritten with their stored form only where the disk still has the recorded hash |
| Driver.DriverInner.ComputePlan | backstitch/src/project/driver.rs:963-979 | goal ref and changes as they are before the main thread is blocked |
| Driver.DriverInner.SyncCorrectRef | backstitch/src/project/driver.rs:1018-1056 | give up if the ref moved, resolve, then apply the changes computed before |
| Driver.DriverInner.ApplyChanges | backstitch/src/project/driver.rs:983-998 | the disk after all updates and deletions |
| Driver.DriverInner.HandleFileUpdate | backstitch/src/project/fs/sync_automerge_to_fs.rs:123-140 | ignored files are left alone |
| Driver.DriverInner.HandleFileDelete | backstitch/src/project/fs/sync_automerge_to_fs.rs:143-165 | ignored files are left alone |
| DriverProof.RunKeeps | backstitch/src/project/driver.rs:813-1057 | in every run of merges, driver steps and user writes of contents whose normal form is a fixed point, all stored contents are normal forms and every pending file has its normal form in the history |
| Normalise.SettledStable | backstitch/src/project/fs/sync_automerge_to_fs.rs:123-140 | the premise of the driver holds for every file that is not a scene, and for every scene that meets the condition of ReparsedExactly, whose text does not depend on map order and which the document keeps: its normal form is a fixed point, the same for every printer |
| Normalise.SettledCommit | backstitch/src/project/branch_db/commit.rs:158-198 | what the document then returns is that content, its stored hash is that of the normal form, and the bytes written at a checkout are the normal form |
| Normalise.SettledRunKeeps | backstitch/src/project/driver.rs:813-1057 | so the guarantees over runs hold when users write such files |
| DriverProof.UnstableMissesGoal | backstitch/src/project/driver.rs:904-956 | with a stored content that is not its own normal form a checkout misses its goal |
| DriverProof.CheckoutReachesGoal | backstitch/src/project/driver.rs:1031-1049 | if nobody else writes to the disk, a checkout leaves the visible disk equal to the goal ref, with nothing pending, and only then is the goal checked out |
| DriverProof.CheckoutExact | backstitch/src/project/driver.rs:1031-1049 | for any state: it does so exactly when no pending normalisation undoes a file that already was as the goal wants it |
| DriverProof.FirstCheckout | backstitch/src/project/fs/sync_automerge_to_fs.rs:35-94 | the first checkout of a session reaches its goal |
| DriverProof.FirstSession | backstitch/src/project/driver.rs:1060-1087 | the first round of a session checks out the requested branch if it is known, else the main branch, and else changes nothing |
| DriverProof.RequestReached | backstitch/src/project/driver.rs:1060-1083 | an undisturbed round checks out the newest state of a requested branch and clears the request |
| DriverProof.RequestStays | backstitch/src/project/driver.rs:1069-1081 | a request for an unknown branch is kept |
| DriverProof.BranchKept | backstitch/src/project/driver.rs:1078-1087 | without a request the newest state of the checked-out branch is checked out |
| DriverProof.NothingToCommit | backstitch/src/project/fs/sync_fs_to_automerge.rs:134-158 | there is nothing to commit exactly when every difference between disk and ref is a pending normalisation of what is on the disk |
| DriverProof.SecondCommitNothing | backstitch/src/project/driver.rs:864-902 | then committing again changes nothing |
| DriverProof.CommitCovers | backstitch/src/project/driver.rs:864-902 | after a commit that is so exactly when the newest state of the branch brought nothing that is neither on the disk nor committed over |
| DriverProof.CommitCoversUnmoved | backstitch/src/project/driver.rs:864-902 | in particular when the branch has not moved since it was checked out |
| DriverProof.CommitsExactly | backstitch/src/project/driver.rs:864-902 | a commit is made exactly when files were touched and something differs that is not a pending normalisation; it becomes the newest state of its branch |
| DriverProof.RoundWritesBack | backstitch/src/project/driver.rs:1018-1056 | the round after a commit, with nothing to check out: every pending file that is unchanged and in the ref gets its stored form, all other files stay, nothing stays pending, and the disk shows the ref exactly when the ref has all files of the disk |
| DriverProof.RoundSettles | backstitch/src/project/driver.rs:827-862 | a whole round on the newest state of a branch: the disk ends up with the normal form of what the user had, equal to the new ref, with nothing pending |
| DriverProof.CommitStopsCheckout | backstitch/src/project/driver.rs:1018-1030 | a commit between plan and checkout makes the checkout give up and leave the disk alone |
| DriverProof.EditedPending | backstitch/src/project/fs/sync_fs_to_automerge.rs:138-150 | a pending file that was edited or deleted is committed next, and never overwritten by the resolve |
| DriverProof.CommitKeepsAll | backstitch/src/project/driver.rs:864-902 | after a commit that scanned the disk every visible content has its normal form in the history |
| DriverProof.RoundLosesNothing | backstitch/src/project/driver.rs:827-862 | an undisturbed round loses no content |
| DriverProof.LostExactly | backstitch/src/project/driver.rs:971-998 | a content on the disk at planning time is lost exactly when the goal wants another one there and its normal form is not in the history |
| DriverProof.LateEditLost | backstitch/src/project/driver.rs:971-998 | a run in which an edit made after the commit is overwritten |
| DriverProof.MovedBranchUndone | backstitch/src/project/fs/sync_fs_to_automerge.rs:163-168 | a commit on a branch that has moved checks out a ref with files that are not on the disk, plans nothing to bring them there, and the next commit undoes them |
| DriverProof.MovedBranchExample | backstitch/src/project/fs/sync_fs_to_automerge.rs:163-168 | such a commit, with two files |
| MainThreadBlock.Conservation | backstitch/src/project/main_thread_block.rs:34-79 | over any workers, rounds and cancelled waits: permits, guards and finished guards add up while the gate is open, all counts are zero and nobody holds a guard otherwise, and registrations are conserved |
| MainThreadBlock.ReturnExact | backstitch/src/project/main_thread_block.rs:51-63 | an open checkpoint returns exactly when no permit is left and no guard is held |
| MainThreadBlock.CheckpointCanFinish | backstitch/src/project/main_thread_block.rs:34-63 | the workers at hand can finish an open checkpoint exactly when cancelled waits are covered by registrations after the cutoff |
| MainThreadBlock.WorkBounded | backstitch/src/project/main_thread_block.rs:34-79 | an open checkpoint sees at most twice its number of worker steps |
| MainThreadBlock.NeverStuck | backstitch/src/project/main_thread_block.rs:34-63 | without cancellation an open checkpoint is never stuck |
| MainThreadBlock.CancelledWaitHangs | backstitch/src/project/main_thread_block.rs:34-63 | one cancelled wait hangs the next checkpoint |
| MainThreadBlock.Block.CheckpointFinish | backstitch/src/project/main_thread_block.rs:58-62 | the checkpoint ends exactly when that many guards are done |
| Connection.OneConnection | backstitch/src/project/connection.rs:96-321 | in every interleaving in which callers may be dropped anywhere, but no connect before its loop has the connection lock: at most one loop, at most one open handle, held by the loop that has the lock, and a loop the info does not describe is cancelled |
| Connection.DisconnectedMeansClosed | backstitch/src/project/connection.rs:149-159 | when disconnect returns no handle is open and no loop is left |
| Connection.ReleasedMeansClosed | backstitch/src/project/connection.rs:186-216 | a loop releases the lock only with its handle closed |
| Connection.StepKeeps | backstitch/src/project/connection.rs:96-321 | every step of callers and loops, other drops included, keeps the invariant about locks, loops and handles |
| ConnectionRuns.ListeningIsStored | backstitch/src/project/connection.rs:246-256 | in every such run: while a loop listens and nobody has disconnected, the info has its token and its handle, which is open |
| ConnectionRuns.StartedExactly | backstitch/src/project/connection.rs:175-180 | a connection counts as started exactly when the last of connect and disconnect to reach the info was a connect |
| ConnectionRuns.OpenedOnlyBy | backstitch/src/project/connection.rs:242-246 | a handle is opened only by dialing, and it is the new one |
| ConnectionRuns.ClosedOnlyBy | backstitch/src/project/connection.rs:246-290 | a handle is closed only by its loop, or right after dialing when a disconnect came in between |
| ConnectionRuns.CancelledOnlyBy | backstitch/src/project/connection.rs:101-156 | a token is cancelled exactly when a connect or disconnect finds it in the info, or its loop closes at shutdown |
| ConnectionRuns.EndsOnlyIf | backstitch/src/project/connection.rs:186-216 | a loop ends only when it was cancelled or at shutdown; otherwise a failed attempt is followed by another |
| ConnectionRuns.ReturnsAfterReport | backstitch/src/project/connection.rs:131-146 | a waiting connect can return exactly after the loop has reported something |
| ConnectionRuns.WaiterGetsOn | backstitch/src/project/connection.rs:107-159 | in every such run a connect or disconnect that waits for the old connection can get on, at once or after steps of the old loop alone |
| ConnectionRuns.DialsAgain | backstitch/src/project/connection.rs:186-216 | a loop nobody told to stop can always dial again |
| Connection.DroppedConnectDialsLate | backstitch/src/project/connection.rs:120-146 | a connect dropped before its first event lets a loop dial after a later disconnect returned |
| Connection.DropExact | backstitch/src/project/connection.rs:120-146 | dropping a caller breaks the invariant exactly when it is a connect that waits for its loop, which has not started |
| Connection.LateDropDials | backstitch/src/project/connection.rs:120-159 | and from every such drop a run leads to a loop that dials after a later disconnect has returned |
| Connection.Shared.RegisterHandle | backstitch/src/project/connection.rs:246-256 | the handle is stored, or closed when the info is gone |
| ServerManager.PanicsUnreachable | backstitch/src/auth/server_manager.rs:343-421 | no run reaches a panic or a failed expectation |
| ServerManager.HandedOutStaysUsable | backstitch/src/auth/server_manager.rs:231-331 | a server whose info was handed out stays in AuthNeeded or Ready in every continuation |
| ServerManager.OneInFlight | backstitch/src/auth/server_manager.rs:231-244 | at most one handshake per server and one interactive authentication in flight |
| ServerManager.ReadyExactly | backstitch/src/auth/server_manager.rs:184-519 | in every run a server is Ready with valid user information if and only if a handshake, an interactive authentication or a renewal of expired information brought it, and since then it has not expired, nobody logged out and no renewal failed |
| ServerManager.ReturnsAtOnce | backstitch/src/auth/server_manager.rs:360-395 | an authenticate call with the lock returns at once exactly then, and else asks the user |
| ServerManager.UsableExactly | backstitch/src/auth/server_manager.rs:231-331 | a server can be used once a handshake with it has completed, and from then on |
| ServerManager.CachedExactly | backstitch/src/auth/server_manager.rs:250-276 | a handshake with the lock returns at once exactly then, and else dials |
| ServerManager.EnteredStep | backstitch/src/auth/server_manager.rs:231-244 | no enabled step panics, and a server becomes known only by a handshake with it |
| ServerManager.FailedStep | backstitch/src/auth/server_manager.rs:278-291 | a server is HandshakeFailed from a failed handshake to the next one that dials |
| ServerManager.AskedStep | backstitch/src/auth/server_manager.rs:315-515 | it is AuthNeeded from a handshake without user information, a logout, a renewal that is not possible or an authentication on expired information, to the next successful authentication |
| ServerManager.ExpiredStep | backstitch/src/auth/server_manager.rs:184-227 | expired information stays until it is renewed, given up, or an authentication begins |
| ServerManager.StepKeeps | backstitch/src/auth/server_manager.rs:184-519 | every step, dropped tasks included, keeps the invariant and never panics |
| ServerManager.Servers.FinishHandshake | backstitch/src/auth/server_manager.rs:278-331 | the state after a handshake |
| Calendar.FromSystemTime | backstitch_godot/src/tracing.rs:227-312 | for every time whose seconds fit 64 bits the result is a valid date and time of day that counts back to it to the nanosecond; no intermediate leaves its type |
| Calendar.FromSeconds | backstitch_godot/src/tracing.rs:246-311 | the same for whole seconds |
| Calendar.DateOf | backstitch_godot/src/tracing.rs:261-299 | the date of a day |
| Calendar.SplitDays | backstitch_godot/src/tracing.rs:253-259 | days and second of the day, rounding down |
| Calendar.SplitCycles | backstitch_godot/src/tracing.rs:261-266 | 400-year cycles, rounding down |
| Calendar.SplitYears | backstitch_godot/src/tracing.rs:268-284 | centuries, four-year blocks and years within a cycle; the 25th block never occurs |
| Calendar.FindMonth | backstitch_godot/src/tracing.rs:291-295 | the month loop ends within the table |
| Calendar.OneResult | backstitch_godot/src/tracing.rs:227-312 | the valid date and time of an instant is unique |
| Calendar.YearStartClosed | backstitch_godot/src/tracing.rs:246-252 | counting year by year agrees with the leap rule counted in blocks |
| ResourceCompare.DidPropChange | backstitch/src/diff/scene_differ.rs:651-703 | the comparison of two values, for the order in which properties are visited |
| ResourceCompare.DidSubResourceChange | backstitch/src/diff/scene_differ.rs:584-629 | the loops over removed and new properties, with the early answer at an added one |
| ResourceCompare.ChangedDiffers | backstitch/src/diff/scene_differ.rs:584-703 | the answer "changed" means the unfoldings differ at every sufficient depth |
| ResourceCompare.ExactWithoutAdditions | backstitch/src/diff/scene_differ.rs:584-703 | where no reachable pair has an added property the answer is exact, whatever the ids and the order |
| ResourceCompare.AdditionHidden | backstitch/src/diff/scene_differ.rs:611-614 | with an added property of the compared pair itself some order answers "unchanged" exactly when the kinds agree and nothing was removed |
| ResourceCompare.HiddenExactly | backstitch/src/diff/scene_differ.rs:584-703 | with added properties at any depth, and each new resource compared with one old one: some order answers "unchanged" exactly when every visible difference lies below a pair with an added property |
| ResourceCompare.UnchangedHides | backstitch/src/diff/scene_differ.rs:584-703 | in any case an answer "unchanged" means that |
| SplitView.SplitRows | backstitch_godot/src/interop/text_differ_view.rs:196-243 | the pairing loop computes the specified rows |
| SplitView.LastPaired | backstitch_godot/src/interop/text_differ_view.rs:222-225 | the backward scan finds the end of the settled rows |
| SplitView.NothingLost | backstitch_godot/src/interop/text_differ_view.rs:196-243 | the old column is the old text and the new column the new text, line by line |
| SplitView.NoSplitPair | backstitch_godot/src/interop/text_differ_view.rs:227-241 | no added-only row directly below a deleted-only row |
| SplitView.BlockPaired | backstitch_godot/src/interop/text_differ_view.rs:220-242 | a block of deletions and additions pairs the i-th with the i-th |
| SplitView.UnchangedRow | backstitch_godot/src/interop/text_differ_view.rs:204-212 | an unchanged line has a row of its own with both numbers and its status |
| HashCache.CacheAgrees | backstitch/src/project/fs/fs_index.rs:152-238 | under concurrent writers with fresh metadata, torn reads included, an entry that matches the current metadata has the hash of the current content |
| HashCache.HitReturns | backstitch/src/project/fs/fs_index.rs:152-190 | a lookup returns from the cache exactly when the entry has the metadata it took, and then with the hash of the last version unless the file was written since |
| HashCache.ReadReturns | backstitch/src/project/fs/fs_index.rs:165-197 | what is returned and stored after reading is the hash of the last version unless the file was written since the metadata was taken |
| HashCache.StepKeeps | backstitch/src/project/fs/fs_index.rs:152-238 | every write and every step of get_hash keeps the invariant |
| HashCache.FileSystemIndex.GetHash | backstitch/src/project/fs/fs_index.rs:152-197 | undisturbed, get_hash returns the hash of the content, or reports a missing file, and leaves a right cache |
| HashCache.FileSystemIndex.GetHashFromDb | backstitch/src/project/fs/fs_index.rs:217-238 | an entry counts only with the same time and size |
| HashCache.FileSystemIndex.InsertHashIntoDb | backstitch/src/project/fs/fs_index.rs:199-215 | the entry stored for a path |
| HistoryUrl.NewRef | backstitch/src/helpers/history_ref.rs:25-31 | a ref has its heads sorted, and the same heads |
| HistoryUrl.RefRoundTrip | backstitch/src/helpers/history_ref.rs:76-120 | every ref that can be printed is read back |
| HistoryUrl.RefsExactly | backstitch/src/helpers/history_ref.rs:98-120 | a text is read as a ref exactly when it is a branch, a plus sign and the texts of its heads with dots between them |
| HistoryUrl.ParsedSorted | backstitch/src/helpers/history_ref.rs:98-120 | parsing keeps the order of the text, so it yields a sorted ref exactly for sorted text |
| HistoryUrl.SchemeGrammar | backstitch/src/helpers/history_path.rs:45-59 | a scheme is accepted exactly when the grammar of section 3.1 of RFC 3986 derives it |
| HistoryUrl.PathRoundTrip | backstitch/src/helpers/history_path.rs:21-31 | printing and parsing a ref path is the identity exactly when the scheme of the path is intact |
| HistoryUrl.PathsExactly | backstitch/src/helpers/history_path.rs:61-89 | a text is read as a ref path exactly when it is the prefix, such a ref, a dash and a path whose repair is the result |
| HistoryUrl.SimplifiedRepaired | backstitch/src/helpers/history_path.rs:70-84 | a simplified scheme separator is repaired |
| HistoryUrl.PanicsExactly | backstitch/src/helpers/history_path.rs:61-89 | for every string: parsing panics exactly when it has the prefix and, after the first divider, a valid scheme whose single slash is followed by nothing or by a character outside ASCII, whatever stands for the ref |
| HistoryUrl.PrintedPanics | backstitch/src/helpers/history_path.rs:61-89 | so a printed ref path panics exactly when its path is such a one |
| HistoryUrl.ParsedStable | backstitch/src/helpers/history_path.rs:61-89 | what parsing returns prints and parses to itself |

## Left out

- Tree-sitter lexing and the characters between sections: blank lines and escapes inside strings are not modelled.
- Random identifiers for nodes without a usable `unique_id`: parsing such a text ends in `RandomIdNeeded`, and such a file does not count as settled.
- SceneLinks.AssignIds: a node without a usable identifier ends the pass where the source draws a random one.
- SceneExact.ReparsedExactly: for trees whose node names are as the editor allows them (not empty, no slash, not "." below the root); for other names only that the condition suffices (ParsePrinted).
- SceneWriter.Writer.Serialize: printing with another history ref or without resource uids is not modelled; the tree must be linked, non-root nodes named, and connections lie between nodes of a scene that has a root.
- SceneHash.TextReadBack: for scenes with readable keys whose nodes are all reached from the root and whose text does not depend on map order.
- CommitEntries.CommittedHashMatches: the same; with an unreadable key the read panics or drops an empty instance path.
- SiblingNames.NextNumber: names ending in digits outside ASCII, for which the source panics, are not modelled; the addition is taken to be checked for overflow.
- SceneConnections.KeyTellsApart: for nodes inside instanced scenes, or texts with dashes, keys are only shown to clash for one pair.
- BranchSync.RunsReconcile: clearing of branch states and reinsertion of hashes are not steps of the runs, and document library errors do not occur.
- HashIndex.GetHashIndex: reinsertion of missing hashes into the document.
- DriverProof.RunKeeps: user writes of contents whose normal form is not a fixed point are not steps of the runs (Normalise.SettledStable says which are; UnstableMissesGoal why).
- DriverProof.CheckoutReachesGoal: I/O errors and linked documents that have not arrived; every stored content is available.
- Driver.DriverInner.Commit: scanning the disk and reading the files to commit are one step, writes between them are not modelled.
- Driver.DriverInner.Sync: check-in of a new project, commit on demand, and the change notifications sent to the editor.
- Connection.OneConnection: whether connect reports success, which depends on the first event; the panic on a sync URL that is neither http nor https; drops of a connect whose loop has not started are shown to break it (LateDropDials).
- ServerManager.PanicsUnreachable: deauthenticating a server without authentication returns at once and is not a step; status broadcasts are not modelled.
- HashCache.CacheAgrees: database errors and the periodic flush.
- ResourceCompare.ExactWithoutAdditions: loading of external resources; they are compared by type, path and uid as in the source.
- ResourceCompare.HiddenExactly: where a new resource is compared with two old ones only UnchangedHides is shown.
- Fairness and timing: that a waiting task eventually runs, retry delays and polling intervals.
- The Godot interface apart from the row pairing of the split view, commit summaries, text diffs, network clients, keyring and configuration files.
- Path localisation and ignore patterns: paths are keys, and the ignored ones are a given set.
