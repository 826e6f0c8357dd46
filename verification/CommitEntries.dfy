// commit_entries and commit_fs_changes: writing a list of file changes into a document.

module CommitEntries {
  import opened Text
  import opened Files
  import opened SceneStore
  import SceneHash
  import SceneModel
  import SceneStability
  import SceneTree
  import SceneWriter

  datatype Item = BinaryItem(path: string, doc: DocId, hash: Hash)
                | TextItem(path: string, content: Bytes, hash: Hash)
                | SceneItem(path: string, scene: Stored, hash: Hash)
                | DeleteItem(path: string)

  datatype ChangedFile = ChangedFile(path: string, kind: ChangeType)

  const NEW_ENTRY := Entry(None, None, None, None)

  // ---------- one item ----------

  // The entry an item leaves under its path, given what was there.
  function Written(was: Option<Slot>, item: Item): Option<Slot>
  {
    var entry := if was.Some? && was.value.Object? then was.value.entry else NEW_ENTRY;
    match item
    case BinaryItem(_, doc, hash) => Some(Object(NEW_ENTRY.(url := Some(doc), hash := Some(hash))))
    case TextItem(_, content, hash) => Some(Object(entry.(url := None, structured := None, content := Some(content), hash := Some(hash))))
    case SceneItem(_, scene, hash) => Some(Object(entry.(structured := Some(scene), hash := Some(hash))))
    case DeleteItem(_) => None
  }

  function SlotAt(files: FileMap, path: string): Option<Slot>
  {
    if path in files then Some(files[path]) else None
  }

  // Text counts as a modification only of an object, binary and scene of any value.
  function KindOf(was: Option<Slot>, item: Item): ChangeType
  {
    match item
    case DeleteItem(_) => Deleted
    case TextItem(_, _, _) => if was.Some? && was.value.Object? then Modified else Created
    case _ => if was.Some? then Modified else Created
  }

  // The last item for a path decides.
  function SlotAfter(start: FileMap, items: seq<Item>, path: string): Option<Slot>
  {
    if items == [] then SlotAt(start, path)
    else
      var last := items[|items| - 1];
      var before := SlotAfter(start, items[..|items| - 1], path);
      if last.path == path then Written(before, last) else before
  }

  function Report(start: FileMap, items: seq<Item>): seq<ChangedFile>
  {
    if items == [] then []
    else
      var front, last := items[..|items| - 1], items[|items| - 1];
      Report(start, front) + [ChangedFile(last.path, KindOf(SlotAfter(start, front, last.path), last))]
  }

  class Transaction {
    var files: FileMap

    constructor (files: FileMap)
      ensures this.files == files
    {
      this.files := files;
    }

    method CommitEntries(items: seq<Item>) returns (changes: seq<ChangedFile>)
      modifies this
      ensures forall path :: SlotAt(files, path) == SlotAfter(old(files), items, path)
      ensures changes == Report(old(files), items)
    {
      changes := [];
      for i := 0 to |items|
        invariant forall path :: SlotAt(files, path) == SlotAfter(old(files), items[..i], path)
        invariant changes == Report(old(files), items[..i])
      {
        assert items[..i + 1][..i] == items[..i];
        var item := items[i];
        ghost var before := files;
        assert SlotAt(files, item.path) == SlotAfter(old(files), items[..i], item.path);
        match item {
          case BinaryItem(path, doc, hash) =>
            var kind := if path in files then Modified else Created;
            files := files[path := Object(Entry(None, None, Some(doc), Some(hash)))];
            changes := changes + [ChangedFile(path, kind)];
          case TextItem(path, content, hash) =>
            var kind := Modified;
            if path !in files || files[path].Scalar? {
              files := files[path := Object(NEW_ENTRY)];
              kind := Created;
            }
            changes := changes + [ChangedFile(path, kind)];
            var entry := files[path].entry;
            entry := entry.(url := None);
            entry := entry.(structured := None);
            entry := entry.(content := Some(content));
            entry := entry.(hash := Some(hash));
            files := files[path := Object(entry)];
          case SceneItem(path, scene, hash) =>
            var kind := if path in files then Modified else Created;
            if path !in files || files[path].Scalar? { files := files[path := Object(NEW_ENTRY)]; }
            var entry := files[path].entry;
            entry := entry.(structured := Some(scene));
            entry := entry.(hash := Some(hash));
            files := files[path := Object(entry)];
            changes := changes + [ChangedFile(path, kind)];
          case DeleteItem(path) =>
            files := files - {path};
            changes := changes + [ChangedFile(path, Deleted)];
        }
        forall path ensures SlotAt(files, path) == SlotAfter(old(files), items[..i + 1], path) {
          assert SlotAt(before, path) == SlotAfter(old(files), items[..i], path);
        }
      }
      assert items[..|items|] == items;
    }
  }

  // ---------- reading back ----------

  // What a reader gets for an item: its content, or the link to its document. A scene is read
  // through its keys and the renaming of siblings.
  function Delivered(order: Order, item: Item): Option<Read>
    requires OrderOk(order)
  {
    match item
    case BinaryItem(_, doc, _) => Some(Link(doc))
    case TextItem(_, content, _) => Some(Inline(TextFile(content)))
    case SceneItem(_, scene, _) => Some(match ReadStored(order, scene) case None => Panics case Some(s) => Inline(SceneFile(s)))
    case DeleteItem(_) => None
  }

  ghost predicate Keeps(order: Order, slot: Option<Slot>, item: Item)
    requires OrderOk(order)
  {
    match Delivered(order, item)
    case None => slot == None
    case Some(read) =>
      slot.Some? && slot.value.Object? && Hydrate(order, slot.value.entry) == read && slot.value.entry.hash == Some(item.hash)
  }

  predicate IsLast(items: seq<Item>, i: nat, path: string)
  {
    i < |items| && items[i].path == path && forall j :: i < j < |items| ==> items[j].path != path
  }

  // From any starting state, and whatever fields earlier kinds left behind, a path reads as the
  // last item committed for it, with that item's hash.
  lemma {:induction false} LastItemReads(order: Order, start: FileMap, items: seq<Item>, i: nat, path: string)
    requires OrderOk(order) && IsLast(items, i, path)
    ensures Keeps(order, SlotAfter(start, items, path), items[i])
    ensures var slot := SlotAfter(start, items, path); slot.Some? && slot.value.Object? ==> Contains(slot.value.entry, items[i])
  {
    if i < |items| - 1 {
      assert IsLast(items[..|items| - 1], i, path);
      LastItemReads(order, start, items[..|items| - 1], i, path);
    }
  }

  // The fields that decide what is read are those of the item.
  predicate Contains(e: Entry, item: Item)
  {
    match item
    case BinaryItem(_, doc, _) => e.structured == None && e.content == None && e.url == Some(doc)
    case TextItem(_, content, _) => e.structured == None && e.content == Some(content) && e.url == None
    case SceneItem(_, scene, _) => e.structured == Some(scene)
    case DeleteItem(_) => false
  }

  lemma {:induction false} UntouchedSlot(start: FileMap, items: seq<Item>, path: string)
    requires forall j :: 0 <= j < |items| ==> items[j].path != path
    ensures SlotAfter(start, items, path) == SlotAt(start, path)
  {
    if items != [] { UntouchedSlot(start, items[..|items| - 1], path); }
  }

  // One report per item, in order: a deletion for a deletion, a creation exactly when the item
  // found nothing under the path, or for text nothing but a scalar, a modification otherwise.
  lemma {:induction false} ReportAt(start: FileMap, items: seq<Item>, i: nat)
    requires i < |items|
    ensures |Report(start, items)| == |items| && Report(start, items)[i].path == items[i].path
    ensures var before, kind := SlotAfter(start, items[..i], items[i].path), Report(start, items)[i].kind;
      && (kind == Deleted <==> items[i].DeleteItem?)
      && (kind == Created <==> !items[i].DeleteItem? && (before == None || (items[i].TextItem? && before == Some(Scalar))))
  {
    if i < |items| - 1 {
      ReportAt(start, items[..|items| - 1], i);
      assert items[..|items| - 1][..i] == items[..i];
    } else {
      if i > 0 { ReportAt(start, items[..i], i - 1); }
    }
  }

  // ---------- commit_fs_changes ----------

  type Change = (string, Option<FileContent>)

  // Binary contents go into documents of their own, numbered from `next`; scenes are kept under
  // printed keys. The hash is taken from the content as it was handed in.
  ghost predicate Encodes(printer: Printer, docs: map<DocId, Bytes>, change: Change, item: Item)
  {
    && item.path == change.0
    && match change.1
       case None => item == DeleteItem(change.0)
       case Some(TextFile(b)) => item == TextItem(change.0, b, HashOf(b))
       case Some(SceneFile(s)) => item.SceneItem? && Stores(s, item.scene) && item.hash == ToHash(printer, SceneFile(s))
       case Some(Binary(b)) => item.BinaryItem? && item.doc in docs && docs[item.doc] == b && item.hash == HashOf(b)
  }

  class Committer {
    const printer: Printer
    var docs: map<DocId, Bytes>
    var next: DocId
    var files: FileMap

    ghost predicate Valid()
      reads this
    {
      forall id :: id in docs ==> id < next
    }

    constructor (printer: Printer, files: FileMap, docs: map<DocId, Bytes>, next: DocId)
      requires forall id :: id in docs ==> id < next
      ensures Valid() && this.printer == printer && this.files == files && this.docs == docs
    {
      this.printer, this.files, this.docs, this.next := printer, files, docs, next;
    }

    method CreateBinaryDoc(content: Bytes) returns (id: DocId)
      requires Valid()
      modifies this`docs, this`next
      ensures Valid() && id !in old(docs) && docs == old(docs)[id := content]
    {
      id := next;
      docs := docs[id := content];
      next := next + 1;
    }

    method MakeItem(change: Change) returns (item: Item)
      requires Valid()
      modifies this`docs, this`next
      ensures Valid() && Extends(old(docs), docs) && Encodes(printer, docs, change, item)
    {
      match change.1 {
        case None => item := DeleteItem(change.0);
        case Some(Binary(b)) =>
          var id := CreateBinaryDoc(b);
          item := BinaryItem(change.0, id, HashOf(b));
        case Some(TextFile(b)) => item := TextItem(change.0, b, HashOf(b));
        case Some(SceneFile(s)) =>
          var stored := StoreScene(s);
          item := SceneItem(change.0, stored, ToHash(printer, SceneFile(s)));
      }
    }

    method MakeItems(changes: seq<Change>) returns (items: seq<Item>, hashes: map<string, Option<Hash>>)
      requires Valid()
      modifies this`docs, this`next
      ensures Valid() && Extends(old(docs), docs) && EncodesAll(printer, docs, changes, items)
      ensures hashes == Hashes(printer, changes)
    {
      items, hashes := [], map[];
      for i := 0 to |changes|
        invariant Valid() && Extends(old(docs), docs) && EncodesAll(printer, docs, changes[..i], items)
        invariant hashes == Hashes(printer, changes[..i])
      {
        ghost var before := docs;
        assert changes[..i + 1][..i] == changes[..i];
        hashes := hashes[changes[i].0 := HashOfChange(printer, changes[i])];
        var item := MakeItem(changes[i]);
        EncodesNext(printer, before, docs, changes[..i], items, changes[i], item);
        assert changes[..i + 1] == changes[..i] + [changes[i]];
        items := items + [item];
      }
      assert changes[..|changes|] == changes;
    }

    // After the commit every changed path holds its last content, with the hash of that content;
    // no other path changes, and existing linked documents stay as they are.
    method CommitFsChanges(changes: seq<Change>) returns (hashes: map<string, Option<Hash>>)
      requires Valid()
      modifies this
      ensures Valid() && Extends(old(docs), docs) && hashes == Hashes(printer, changes)
      ensures forall i, path :: IsLastChange(changes, i, path) ==> Holds(printer, SlotAt(files, path), docs, changes[i].1)
      ensures forall path :: (forall j :: 0 <= j < |changes| ==> changes[j].0 != path) ==> SlotAt(files, path) == SlotAt(old(files), path)
    {
      var items;
      items, hashes := MakeItems(changes);
      var tx := new Transaction(files);
      ghost var before := files;
      var report := tx.CommitEntries(items);
      files := tx.files;
      forall i, path | IsLastChange(changes, i, path) ensures Holds(printer, SlotAt(files, path), docs, changes[i].1) {
        HoldsLast(printer, before, docs, changes, items, i, path);
      }
      forall path | forall j :: 0 <= j < |changes| ==> changes[j].0 != path
        ensures SlotAt(files, path) == SlotAt(before, path) {
        ItemsUntouched(printer, before, docs, changes, items, path);
      }
    }
  }

  ghost predicate Extends(a: map<DocId, Bytes>, b: map<DocId, Bytes>)
  {
    forall id :: id in a ==> id in b && b[id] == a[id]
  }

  ghost predicate EncodesAll(printer: Printer, docs: map<DocId, Bytes>, changes: seq<Change>, items: seq<Item>)
  {
    |items| == |changes| && forall i :: 0 <= i < |changes| ==> Encodes(printer, docs, changes[i], items[i])
  }

  lemma EncodesNext(printer: Printer, before: map<DocId, Bytes>, docs: map<DocId, Bytes>, changes: seq<Change>, items: seq<Item>,
                    change: Change, item: Item)
    requires EncodesAll(printer, before, changes, items) && Extends(before, docs) && Encodes(printer, docs, change, item)
    ensures EncodesAll(printer, docs, changes + [change], items + [item])
  {
  }

  predicate IsLastChange(changes: seq<Change>, i: int, path: string)
  {
    0 <= i < |changes| && changes[i].0 == path && forall j :: i < j < |changes| ==> changes[j].0 != path
  }

  function HashOfChange(printer: Printer, c: Change): Option<Hash>
  {
    if c.1.None? then None else Some(ToHash(printer, c.1.value))
  }

  // The hash of the last content of every path that was handed in; None for deletions.
  function Hashes(printer: Printer, changes: seq<Change>): map<string, Option<Hash>>
  {
    if changes == [] then map[]
    else
      var last := changes[|changes| - 1];
      Hashes(printer, changes[..|changes| - 1])[last.0 := HashOfChange(printer, last)]
  }

  lemma {:induction false} HashesLast(printer: Printer, changes: seq<Change>, i: int, path: string)
    requires IsLastChange(changes, i, path)
    ensures path in Hashes(printer, changes) && Hashes(printer, changes)[path] == HashOfChange(printer, changes[i])
  {
    if i < |changes| - 1 {
      assert IsLastChange(changes[..|changes| - 1], i, path);
      HashesLast(printer, changes[..|changes| - 1], i, path);
    }
  }

  // ---------- what a commit leaves ----------

  // The slot holds `content`: scenes under their printed keys, everything else as it is. The
  // stored hash is that of the content at the commit.
  ghost predicate Holds(printer: Printer, slot: Option<Slot>, docs: map<DocId, Bytes>, content: Option<FileContent>)
  {
    match content
    case None => slot == None
    case Some(c) => slot.Some? && slot.value.Object? && slot.value.entry.hash == Some(ToHash(printer, c)) && EntryHolds(slot.value.entry, docs, c)
  }

  ghost predicate EntryHolds(e: Entry, docs: map<DocId, Bytes>, c: FileContent)
  {
    match c
    case TextFile(b) => e.structured == None && e.content == Some(b)
    case Binary(b) => e.structured == None && e.content == None && e.url.Some? && e.url.value in docs && docs[e.url.value] == b
    case SceneFile(s) => e.structured.Some? && Stores(s, e.structured.value)
  }

  lemma HoldsLast(printer: Printer, start: FileMap, docs: map<DocId, Bytes>, changes: seq<Change>, items: seq<Item>, i: nat, path: string)
    requires EncodesAll(printer, docs, changes, items) && IsLastChange(changes, i, path)
    ensures Holds(printer, SlotAfter(start, items, path), docs, changes[i].1)
  {
    forall j | i < j < |items| ensures items[j].path != path { assert Encodes(printer, docs, changes[j], items[j]); }
    assert Encodes(printer, docs, changes[i], items[i]);
    LastItemStays(start, items, i, path);
  }

  lemma {:induction false} LastItemStays(start: FileMap, items: seq<Item>, i: nat, path: string)
    requires IsLast(items, i, path)
    ensures var slot := SlotAfter(start, items, path);
      if items[i].DeleteItem? then slot == None
      else slot.Some? && slot.value.Object? && Contains(slot.value.entry, items[i]) && slot.value.entry.hash == Some(items[i].hash)
  {
    if i < |items| - 1 {
      assert IsLast(items[..|items| - 1], i, path);
      LastItemStays(start, items[..|items| - 1], i, path);
    }
  }

  lemma ItemsUntouched(printer: Printer, start: FileMap, docs: map<DocId, Bytes>, changes: seq<Change>, items: seq<Item>, path: string)
    requires EncodesAll(printer, docs, changes, items) && forall j :: 0 <= j < |changes| ==> changes[j].0 != path
    ensures SlotAfter(start, items, path) == SlotAt(start, path)
  {
    forall j | 0 <= j < |items| ensures items[j].path != path { assert Encodes(printer, docs, changes[j], items[j]); }
    UntouchedSlot(start, items, path);
  }

  // ---------- and what is read of it ----------

  // Texts and binary files always survive the document; a scene does if its keys can be read
  // and no siblings share a name.
  ghost predicate ContentSurvives(c: FileContent)
  {
    c.SceneFile? ==> Survives(c.scene)
  }

  // A committed content is read back, in whatever order the read visits the nodes of a scene,
  // exactly when it survives.
  lemma CommittedReadBack(order: Order, e: Entry, docs: map<DocId, Bytes>, c: FileContent)
    requires OrderOk(order) && EntryHolds(e, docs, c)
    ensures ReadContent(order, e, docs) == Some(c) <==> ContentSurvives(c)
  {
    if c.SceneFile? {
      SceneReadBack(order, c.scene, e.structured.value);
      SceneRead(order, e, docs, c.scene);
    }
  }

  lemma SceneRead(order: Order, e: Entry, docs: map<DocId, Bytes>, s: SceneModel.Scene)
    requires OrderOk(order) && e.structured.Some?
    ensures ReadContent(order, e, docs) == Some(SceneFile(s)) <==> ReadStored(order, e.structured.value) == Some(s)
  {
  }

  lemma HeldAfterCommit(e: Entry, docs: map<DocId, Bytes>, c: FileContent)
    requires EntryHolds(e, docs, c)
    ensures c.SceneFile? && KeysReadable(c.scene.nodes) ==> Held(e, docs) == Some(c)
    ensures !c.SceneFile? ==> Held(e, docs) == Some(c)
  {
    if c.SceneFile? { ReadKeysBack(c.scene.nodes, e.structured.value.nodes); }
  }

  // The hash stored for a scene is that of the scene a reader gets exactly when the scene
  // survives, whatever orders the commit, the read and the later printing visit hash maps in.
  lemma CommittedHashMatches(order: Order, a: Printer, b: Printer, s: SceneModel.Scene, t: SceneTree.Tree, st: Stored)
    requires OrderOk(order) && PrinterOk(a) && PrinterOk(b) && Stores(s, st) && KeysReadable(s.nodes)
    requires SceneHash.AllPrinted(s, t) && SceneWriter.Printable(s, t) && SceneStability.OneText(s, t)
    ensures ReadStored(order, st).Some? && ToHash(a, SceneFile(s)) == ToHash(b, SceneFile(ReadStored(order, st).value)) <==> Survives(s)
  {
    SceneReadBack(order, s, st);
    if s.nodes == map[] {
      SteadyHash(a, b, SceneFile(s));
    } else if ReadStored(order, st).Some? {
      var read := ReadStored(order, st).value;
      SceneHash.ReadRenames(order, s, st);
      SceneHash.ReadPrintable(order, s, t, st);
      HashesMatch(order, a, b, s, t, st, read.nodes);
    }
  }

  lemma HashesMatch(order: Order, a: Printer, b: Printer, s: SceneModel.Scene, t: SceneTree.Tree, st: Stored, nodes: map<SceneModel.NodeId, SceneModel.Node>)
    requires OrderOk(order) && PrinterOk(a) && PrinterOk(b) && Stores(s, st) && KeysReadable(s.nodes)
    requires SceneHash.TreePrinted(s, t) && SceneWriter.Printable(s, t) && SceneStability.OneText(s, t)
    requires ReadStored(order, st) == Some(s.(nodes := nodes)) && SceneWriter.Printable(s.(nodes := nodes), SceneHash.Renamed(t, nodes))
    ensures ToHash(a, SceneFile(s)) == ToHash(b, SceneFile(s.(nodes := nodes))) <==> Survives(s)
  {
    var l1, p1 := PrintsOf(a, s, t);
    var l2, p2 := PrintsOf(b, s.(nodes := nodes), SceneHash.Renamed(t, nodes));
    SceneHash.TextReadBack(order, s, t, st, nodes, l1, p1, l2, p2);
  }
}
