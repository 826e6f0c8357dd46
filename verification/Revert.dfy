// Reverting a branch to an earlier ref: the preview branch starts as a copy of the branch and
// commits the files that differ.

module Revert {
  import opened Text
  import opened Files
  import opened Sets
  import opened HashIndex
  import opened CommitEntries
  import opened SceneStore
  import SceneHash
  import SceneStability
  import SceneTree
  import SceneWriter

  function ViewOf(order: Order, e: Entry): View
    requires OrderOk(order)
  {
    View(if e.hash.Some? then [e.hash] else [], Hydrate(order, e))
  }

  function Views(order: Order, files: FileMap): map<string, View>
    requires OrderOk(order)
  {
    map path | path in files && files[path].Object? :: ViewOf(order, files[path].entry)
  }

  // Every content is available, reading does not change it, and a stored hash is its hash.
  ghost predicate Intact(printer: Printer, files: FileMap, docs: map<DocId, Bytes>)
  {
    forall path :: path in files && files[path].Object? ==> IntactEntry(printer, files[path].entry, docs)
  }

  ghost predicate IntactEntry(printer: Printer, e: Entry, docs: map<DocId, Bytes>)
  {
    var content := Held(e, docs);
    content.Some? && Steady(content.value) && (e.hash.Some? ==> e.hash == Some(ToHash(printer, content.value)))
  }

  // What is held under a path.
  function HeldAt(files: FileMap, docs: map<DocId, Bytes>, path: string): Option<FileContent>
  {
    if path in files && files[path].Object? then Held(files[path].entry, docs) else None
  }

  function BytesAt(printer: Printer, files: FileMap, docs: map<DocId, Bytes>, path: string): Option<Bytes>
  {
    match HeldAt(files, docs, path) case None => None case Some(c) => Some(ToBytes(printer, c))
  }

  function RefIndex(order: Order, printer: Printer, files: FileMap, docs: map<DocId, Bytes>, ignored: set<string>): Index
    requires OrderOk(order)
  {
    IndexOf(printer, Views(order, files), docs, ignored)
  }

  function IndexAt(order: Order, printer: Printer, files: FileMap, docs: map<DocId, Bytes>, ignored: set<string>, path: string): Option<Hash>
    requires OrderOk(order)
  {
    var index := RefIndex(order, printer, files, docs, ignored);
    if path in index then Some(index[path]) else None
  }

  lemma IntactRead(order: Order, printer: Printer, files: FileMap, docs: map<DocId, Bytes>, path: string)
    requires OrderOk(order) && Intact(printer, files, docs)
    ensures ReadPath(order, files, docs, path) == HeldAt(files, docs, path)
    ensures path in files && files[path].Object? ==> !Hydrate(order, files[path].entry).Panics? && HeldAt(files, docs, path).Some?
  {
    if path in files && files[path].Object? {
      assert IntactEntry(printer, files[path].entry, docs);
      SteadyRead(order, files[path].entry, docs);
    }
  }

  lemma EntryHash(order: Order, printer: Printer, e: Entry, docs: map<DocId, Bytes>)
    requires OrderOk(order) && IntactEntry(printer, e, docs)
    ensures FileHash(printer, ViewOf(order, e), docs) == Some(ToHash(printer, Held(e, docs).value)) && !Crashes(ViewOf(order, e))
  {
    SteadyRead(order, e, docs);
  }

  // Whatever orders maps are visited in, the index has the hashes of what is held.
  lemma IntactIndex(order: Order, printer: Printer, files: FileMap, docs: map<DocId, Bytes>, ignored: set<string>, path: string)
    requires OrderOk(order) && Intact(printer, files, docs)
    ensures IndexAt(order, printer, files, docs, ignored, path)
      == if path in ignored then None else match BytesAt(printer, files, docs, path) case None => None case Some(b) => Some(HashOf(b))
  {
    if path in files && files[path].Object? { EntryHash(order, printer, files[path].entry, docs); }
  }

  // For files of any kind: the index has the stored hash, or else the hash of what is read; a path
  // that cannot be read, or whose linked document has not arrived, is not in it.
  lemma IndexedAs(order: Order, printer: Printer, files: FileMap, docs: map<DocId, Bytes>, ignored: set<string>, path: string)
    requires OrderOk(order)
    ensures IndexAt(order, printer, files, docs, ignored, path)
      == if path in ignored || path !in files || files[path].Scalar? then None
         else if files[path].entry.hash.Some? then files[path].entry.hash
         else match ReadPath(order, files, docs, path) case None => None case Some(c) => Some(ToHash(printer, c))
  {
  }

  lemma IntactNoCrash(order: Order, printer: Printer, files: FileMap, docs: map<DocId, Bytes>)
    requires OrderOk(order) && Intact(printer, files, docs)
    ensures forall path :: path in Views(order, files) ==> !Crashes(Views(order, files)[path])
  {
    forall path | path in Views(order, files) ensures !Crashes(Views(order, files)[path]) {
      EntryHash(order, printer, files[path].entry, docs);
    }
  }

  // What is intact for one printer is for all.
  lemma IntactForAll(a: Printer, b: Printer, files: FileMap, docs: map<DocId, Bytes>)
    requires PrinterOk(a) && PrinterOk(b) && Intact(a, files, docs)
    ensures Intact(b, files, docs)
  {
    forall path | path in files && files[path].Object? ensures IntactEntry(b, files[path].entry, docs) {
      assert IntactEntry(a, files[path].entry, docs);
      SteadyHash(a, b, Held(files[path].entry, docs).value);
    }
  }

  datatype Result<+T> = Ok(value: T) | NoFilters | Panicked

  method GetFilesAtRef(order: Order, files: FileMap, docs: map<DocId, Bytes>, filters: set<string>)
    returns (r: Result<map<string, FileContent>>)
    requires OrderOk(order)
    ensures r.NoFilters? <==> filters == {}
    ensures r.Panicked? <==> filters != {} && exists path ::
      path in files && path in filters && files[path].Object? && Hydrate(order, files[path].entry).Panics?
    ensures r.Ok? ==> forall path :: path in r.value <==> path in filters && ReadPath(order, files, docs, path).Some?
    ensures r.Ok? ==> forall path :: path in r.value ==> ReadPath(order, files, docs, path) == Some(r.value[path])
  {
    if filters == {} { return NoFilters; }
    var contents: map<string, FileContent> := map[];
    var rest := files.Keys;
    while rest != {}
      invariant rest <= files.Keys
      invariant forall path :: path in files && path !in rest && path in filters && files[path].Object? ==> !Hydrate(order, files[path].entry).Panics?
      invariant forall path :: path in contents <==> path in filters && path !in rest && ReadPath(order, files, docs, path).Some?
      invariant forall path :: path in contents ==> ReadPath(order, files, docs, path) == Some(contents[path])
      decreases rest
    {
      var path := Any(rest);
      rest := rest - {path};
      if path !in filters || files[path].Scalar? { continue; }
      match Hydrate(order, files[path].entry) {
        case Inline(c) => contents := contents[path := c];
        case Link(id) =>
          if id in docs { contents := contents[path := Binary(docs[id])]; }
        case Unreadable =>
        case Panics => return Panicked;
      }
    }
    r := Ok(contents);
  }

  // The changes to commit: every differing path once, with the content it has at the target.
  ghost predicate BringsTo(kinds: map<string, ChangeType>, contents: map<string, FileContent>, changes: seq<Change>)
  {
    && (forall i :: 0 <= i < |changes| ==> changes[i].0 in kinds && changes[i].1 == Wanted(kinds, contents, changes[i].0))
    && (forall i, j :: 0 <= i < j < |changes| ==> changes[i].0 != changes[j].0)
  }

  function Wanted(kinds: map<string, ChangeType>, contents: map<string, FileContent>, path: string): Option<FileContent>
    requires path in kinds
  {
    if kinds[path].Deleted? || path !in contents then None else Some(contents[path])
  }

  predicate Listed(changes: seq<Change>, path: string)
  {
    exists i :: 0 <= i < |changes| && changes[i].0 == path
  }

  method PairContents(kinds: map<string, ChangeType>, contents: map<string, FileContent>) returns (changes: seq<Change>)
    ensures BringsTo(kinds, contents, changes)
    ensures forall path :: Listed(changes, path) <==> path in kinds && (kinds[path].Deleted? || path in contents)
  {
    changes := [];
    var rest := kinds.Keys;
    while rest != {}
      invariant rest <= kinds.Keys && BringsTo(kinds, contents, changes)
      invariant forall path :: Listed(changes, path) <==> path in kinds && path !in rest && (kinds[path].Deleted? || path in contents)
      decreases rest
    {
      var path := Any(rest);
      rest := rest - {path};
      ghost var before := changes;
      assert !Listed(changes, path);
      if kinds[path].Deleted? {
        changes := changes + [(path, None)];
      } else if path in contents {
        changes := changes + [(path, Some(contents[path]))];
      }
      forall other ensures Listed(changes, other) <==> Listed(before, other) || (other == path && (kinds[path].Deleted? || path in contents)) {
        if Listed(before, other) {
          var i :| 0 <= i < |before| && before[i].0 == other;
          assert changes[i].0 == other;
        } else if other == path && (kinds[path].Deleted? || path in contents) {
          assert changes[|before|].0 == path;
        }
      }
    }
  }

  lemma ExtendedHeld(e: Entry, docs: map<DocId, Bytes>, more: map<DocId, Bytes>)
    requires Extends(docs, more) && Held(e, docs).Some?
    ensures Held(e, more) == Held(e, docs)
  {
  }

  // A commit of a steady content leaves an entry that holds it, with its hash.
  lemma CommittedIntact(printer: Printer, e: Entry, docs: map<DocId, Bytes>, c: FileContent)
    requires EntryHolds(e, docs, c) && Steady(c) && e.hash == Some(ToHash(printer, c))
    ensures IntactEntry(printer, e, docs) && Held(e, docs) == Some(c)
  {
    HeldAfterCommit(e, docs, c);
  }

  // The commit of a preview: what was handed in for the differing paths, and what it left.
  ghost predicate Previewed(printer: Printer, current: FileMap, target: FileMap, docs: map<DocId, Bytes>, kinds: map<string, ChangeType>,
                            contents: map<string, FileContent>, changes: seq<Change>, files: FileMap, more: map<DocId, Bytes>)
  {
    && Intact(printer, current, docs) && Intact(printer, target, docs) && Extends(docs, more)
    && BringsTo(kinds, contents, changes)
    && (forall path :: path in contents ==> HeldAt(target, docs, path) == Some(contents[path]))
    && (forall path :: Listed(changes, path) <==> path in kinds)
    && (forall i, path :: IsLastChange(changes, i, path) ==> Holds(printer, SlotAt(files, path), more, changes[i].1))
    && (forall path :: !Listed(changes, path) ==> SlotAt(files, path) == SlotAt(current, path))
  }

  // A path of the preview after the commit.
  lemma PreviewAt(printer: Printer, current: FileMap, target: FileMap, docs: map<DocId, Bytes>, kinds: map<string, ChangeType>,
                  contents: map<string, FileContent>, changes: seq<Change>, files: FileMap, more: map<DocId, Bytes>, path: string)
    requires Previewed(printer, current, target, docs, kinds, contents, changes, files, more)
    ensures path in files && files[path].Object? ==> IntactEntry(printer, files[path].entry, more)
    ensures if path in kinds then HeldAt(files, more, path) == (if kinds[path].Deleted? || path !in contents then None else Some(contents[path]))
            else HeldAt(files, more, path) == HeldAt(current, docs, path)
  {
    if path in kinds {
      assert Listed(changes, path);
      var i :| 0 <= i < |changes| && changes[i].0 == path;
      assert IsLastChange(changes, i, path);
      ChangedAt(printer, target, docs, kinds, contents, changes[i], files, more, path);
    } else {
      UnchangedAt(printer, current, docs, files, more, path);
    }
  }

  lemma UnchangedAt(printer: Printer, current: FileMap, docs: map<DocId, Bytes>, files: FileMap, more: map<DocId, Bytes>, path: string)
    requires Intact(printer, current, docs) && Extends(docs, more) && SlotAt(files, path) == SlotAt(current, path)
    ensures path in files && files[path].Object? ==> IntactEntry(printer, files[path].entry, more)
    ensures HeldAt(files, more, path) == HeldAt(current, docs, path)
  {
    if path in current && current[path].Object? {
      assert IntactEntry(printer, current[path].entry, docs);
      ExtendedHeld(current[path].entry, docs, more);
    }
  }

  lemma ChangedAt(printer: Printer, target: FileMap, docs: map<DocId, Bytes>, kinds: map<string, ChangeType>,
                  contents: map<string, FileContent>, change: Change, files: FileMap, more: map<DocId, Bytes>, path: string)
    requires Intact(printer, target, docs) && path in kinds && change == (path, Wanted(kinds, contents, path))
    requires path in contents ==> HeldAt(target, docs, path) == Some(contents[path])
    requires Holds(printer, SlotAt(files, path), more, change.1)
    ensures path in files && files[path].Object? ==> IntactEntry(printer, files[path].entry, more)
    ensures HeldAt(files, more, path) == if kinds[path].Deleted? || path !in contents then None else Some(contents[path])
  {
    if !kinds[path].Deleted? && path in contents {
      assert IntactEntry(printer, target[path].entry, docs);
      CommittedIntact(printer, files[path].entry, more, contents[path]);
    }
  }

  // Two refs with intact files have the same index exactly when they show the same bytes.
  lemma SameIndex(order: Order, printer: Printer, current: FileMap, target: FileMap, docs: map<DocId, Bytes>, ignored: set<string>)
    requires OrderOk(order) && Intact(printer, current, docs) && Intact(printer, target, docs)
    ensures RefIndex(order, printer, current, docs, ignored) == RefIndex(order, printer, target, docs, ignored)
      <==> forall path :: path !in ignored ==> BytesAt(printer, current, docs, path) == BytesAt(printer, target, docs, path)
  {
    var a, b := RefIndex(order, printer, current, docs, ignored), RefIndex(order, printer, target, docs, ignored);
    forall path ensures AtIndex(a, path) == AtIndex(b, path)
      <==> path in ignored || BytesAt(printer, current, docs, path) == BytesAt(printer, target, docs, path) {
      IntactIndex(order, printer, current, docs, ignored, path);
      IntactIndex(order, printer, target, docs, ignored, path);
    }
    IndexEqual(a, b);
  }

  function AtIndex(index: Index, path: string): Option<Hash>
  {
    if path in index then Some(index[path]) else None
  }

  lemma IndexEqual(a: Index, b: Index)
    ensures a == b <==> forall path :: AtIndex(a, path) == AtIndex(b, path)
  {
    if forall path :: AtIndex(a, path) == AtIndex(b, path) {
      forall path ensures path in a <==> path in b { assert AtIndex(a, path) == AtIndex(b, path); }
      forall path | path in a ensures a[path] == b[path] { assert AtIndex(a, path) == AtIndex(b, path); }
    }
  }

  // The preview holds the files of the target, intact, so every later read shows them; ignored
  // paths stay as on the branch. When the two refs show the same files there is nothing to
  // fetch, and the call fails.
  method CreateRevertPreview(order: Order, preview: Committer, target: FileMap, ignored: set<string>) returns (r: Result<()>)
    requires OrderOk(order) && preview.Valid()
    requires Intact(preview.printer, preview.files, preview.docs) && Intact(preview.printer, target, preview.docs)
    modifies preview
    ensures preview.Valid() && !r.Panicked? && Intact(preview.printer, preview.files, preview.docs)
    ensures r.NoFilters? <==> forall path :: path !in ignored ==>
      BytesAt(preview.printer, old(preview.files), old(preview.docs), path) == BytesAt(preview.printer, target, old(preview.docs), path)
    ensures r.NoFilters? ==> preview.files == old(preview.files)
    ensures r.Ok? ==> forall path :: path !in ignored ==>
      BytesAt(preview.printer, preview.files, preview.docs, path) == BytesAt(preview.printer, target, old(preview.docs), path)
    ensures r.Ok? ==> forall path :: path in ignored ==> SlotAt(preview.files, path) == SlotAt(old(preview.files), path)
  {
    var printer := preview.printer;
    ghost var current, docs := preview.files, preview.docs;
    IntactNoCrash(order, printer, preview.files, preview.docs);
    IntactNoCrash(order, printer, target, preview.docs);
    var before := GetHashIndex(printer, Views(order, preview.files), preview.docs, ignored);
    var after := GetHashIndex(printer, Views(order, target), preview.docs, ignored);
    var kinds := GetFileChanges(before.value, after.value);
    var fetched := GetFilesAtRef(order, target, preview.docs, kinds.Keys);
    SameIndex(order, printer, current, target, docs, ignored);
    KindsEmpty(before.value, after.value, kinds);
    FetchedAll(order, printer, current, target, docs, ignored, kinds, fetched);
    if fetched.NoFilters? { return NoFilters; }
    var contents := fetched.value;
    var changes := PairContents(kinds, contents);
    var hashes := preview.CommitFsChanges(changes);
    ListedOnce(changes);
    PreviewWhole(order, printer, current, target, docs, ignored, kinds, contents, changes, preview.files, preview.docs);
    r := Ok(());
  }

  lemma ListedOnce(changes: seq<Change>)
    ensures forall path :: !Listed(changes, path) ==> forall j :: 0 <= j < |changes| ==> changes[j].0 != path
  {
  }

  lemma KindsEmpty(before: Index, after: Index, kinds: map<string, ChangeType>)
    requires forall path :: path in kinds <==> ChangeOf(before, after, path).Some?
    ensures kinds.Keys == {} <==> before == after
  {
    if kinds.Keys == {} {
      forall path ensures ChangeOf(before, after, path).None? { assert path !in kinds.Keys; }
      forall path ensures path in before <==> path in after { assert ChangeOf(before, after, path).None?; }
      forall path | path in before ensures before[path] == after[path] { assert ChangeOf(before, after, path).None?; }
      assert before == after;
    }
  }

  // The kinds of change between the two refs, seen at one path.
  ghost predicate KindsOf(order: Order, printer: Printer, current: FileMap, target: FileMap, docs: map<DocId, Bytes>, ignored: set<string>,
                          kinds: map<string, ChangeType>)
    requires OrderOk(order)
  {
    forall path :: ChangeOf(RefIndex(order, printer, current, docs, ignored), RefIndex(order, printer, target, docs, ignored), path)
      == if path in kinds then Some(kinds[path]) else None
  }

  lemma KindMeans(order: Order, printer: Printer, current: FileMap, target: FileMap, docs: map<DocId, Bytes>, ignored: set<string>,
                  kinds: map<string, ChangeType>, path: string)
    requires OrderOk(order) && Intact(printer, current, docs) && Intact(printer, target, docs)
    requires KindsOf(order, printer, current, target, docs, ignored, kinds)
    ensures path in kinds <==> path !in ignored && BytesAt(printer, current, docs, path) != BytesAt(printer, target, docs, path)
    ensures path in kinds ==> (kinds[path].Deleted? <==> HeldAt(target, docs, path).None?)
  {
    IntactIndex(order, printer, current, docs, ignored, path);
    IntactIndex(order, printer, target, docs, ignored, path);
    var a, b := RefIndex(order, printer, current, docs, ignored), RefIndex(order, printer, target, docs, ignored);
    assert ChangeOf(a, b, path) == if path in kinds then Some(kinds[path]) else None;
  }

  lemma PreviewWhole(order: Order, printer: Printer, current: FileMap, target: FileMap, docs: map<DocId, Bytes>, ignored: set<string>,
                     kinds: map<string, ChangeType>, contents: map<string, FileContent>, changes: seq<Change>, files: FileMap, more: map<DocId, Bytes>)
    requires OrderOk(order) && Previewed(printer, current, target, docs, kinds, contents, changes, files, more)
    requires KindsOf(order, printer, current, target, docs, ignored, kinds)
    requires forall path :: path in kinds ==> (path in contents <==> !kinds[path].Deleted?)
    ensures Intact(printer, files, more)
    ensures forall path :: path !in ignored ==> BytesAt(printer, files, more, path) == BytesAt(printer, target, docs, path)
    ensures forall path :: path in ignored ==> SlotAt(files, path) == SlotAt(current, path)
  {
    forall path ensures path in files && files[path].Object? ==> IntactEntry(printer, files[path].entry, more) {
      PreviewAt(printer, current, target, docs, kinds, contents, changes, files, more, path);
    }
    forall path | path !in ignored ensures BytesAt(printer, files, more, path) == BytesAt(printer, target, docs, path) {
      PreviewAt(printer, current, target, docs, kinds, contents, changes, files, more, path);
      KindMeans(order, printer, current, target, docs, ignored, kinds, path);
    }
    forall path | path in ignored ensures SlotAt(files, path) == SlotAt(current, path) {
      KindMeans(order, printer, current, target, docs, ignored, kinds, path);
    }
  }

  // Everything that differs is found at the target.
  lemma FetchedAll(order: Order, printer: Printer, current: FileMap, target: FileMap, docs: map<DocId, Bytes>, ignored: set<string>,
                   kinds: map<string, ChangeType>, fetched: Result<map<string, FileContent>>)
    requires OrderOk(order) && Intact(printer, current, docs) && Intact(printer, target, docs)
    requires KindsOf(order, printer, current, target, docs, ignored, kinds)
    requires fetched.Panicked? ==> exists path :: path in target && target[path].Object? && Hydrate(order, target[path].entry).Panics?
    requires fetched.Ok? ==> forall path :: path in fetched.value <==> path in kinds.Keys && ReadPath(order, target, docs, path).Some?
    requires fetched.Ok? ==> forall path :: path in fetched.value ==> ReadPath(order, target, docs, path) == Some(fetched.value[path])
    ensures !fetched.Panicked?
    ensures fetched.Ok? ==> forall path :: path in fetched.value ==> HeldAt(target, docs, path) == Some(fetched.value[path])
    ensures fetched.Ok? ==> forall path :: path in kinds ==> (path in fetched.value <==> !kinds[path].Deleted?)
  {
    forall path ensures ReadPath(order, target, docs, path) == HeldAt(target, docs, path) { IntactRead(order, printer, target, docs, path); }
    forall path | path in target && target[path].Object? ensures !Hydrate(order, target[path].entry).Panics? {
      IntactRead(order, printer, target, docs, path);
    }
    forall path | path in kinds ensures kinds[path].Deleted? <==> HeldAt(target, docs, path).None? {
      KindMeans(order, printer, current, target, docs, ignored, kinds, path);
    }
  }

  // Right after a commit the stored hash is that of what is read, for texts and binary files
  // always, for a scene with readable keys exactly when it survives.
  lemma CommitFits(order: Order, a: Printer, b: Printer, e: Entry, docs: map<DocId, Bytes>, c: FileContent, t: SceneTree.Tree)
    requires OrderOk(order) && PrinterOk(a) && PrinterOk(b) && EntryHolds(e, docs, c)
    requires c.SceneFile? ==> KeysReadable(c.scene.nodes) && SceneHash.AllPrinted(c.scene, t) && SceneWriter.Printable(c.scene, t)
                              && SceneStability.OneText(c.scene, t)
    ensures ReadHash(b, Hydrate(order, e), docs) == Some(ToHash(a, c)) <==> ContentSurvives(c)
  {
    if c.SceneFile? {
      CommittedHashMatches(order, a, b, c.scene, t, e.structured.value);
      SceneHashRead(order, b, e, docs);
    }
  }

  lemma SceneHashRead(order: Order, printer: Printer, e: Entry, docs: map<DocId, Bytes>)
    requires OrderOk(order) && e.structured.Some?
    ensures ReadHash(printer, Hydrate(order, e), docs)
      == match ReadStored(order, e.structured.value) case None => None case Some(s) => Some(ToHash(printer, SceneFile(s)))
  {
  }
}
