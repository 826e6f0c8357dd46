// Versioned files: contents, their hashes, the entry a document keeps for a path, and the
// comparison of two hash indices.

module Files {
  import opened Text
  import opened Sets
  import SceneModel
  import SceneText
  import SceneTree
  import SceneStability
  import SceneWriter
  import opened SceneStore

  // A file on the disk. Of a file that announces itself as a scene the parser sees the sections;
  // `spacing` is everything it does not see.
  datatype Bytes = Data(bytes: string) | SceneBytes(sections: seq<SceneModel.Section>, spacing: string)

  type DocId = nat

  datatype FileContent = Binary(bytes: Bytes) | TextFile(bytes: Bytes) | SceneFile(scene: SceneModel.Scene)

  // The hash function is taken to be injective on bytes.
  datatype Hash = HashOf(bytes: Bytes)

  // One way of visiting the hash maps of scenes while printing them.
  type Printer = SceneModel.Scene -> seq<SceneModel.Section>

  ghost predicate PrintedAs(s: SceneModel.Scene, t: SceneTree.Tree, sections: seq<SceneModel.Section>)
    requires SceneText.TreeOf(s, t)
  {
    exists layout, p :: SceneText.Prints(s, t, layout, p) && sections == SceneText.AllSections(p)
  }

  ghost predicate PrinterOk(printer: Printer)
  {
    forall s, t :: SceneWriter.Printable(s, t) ==> PrintedAs(s, t, printer(s))
  }

  // The bytes a content is written as.
  function ToBytes(printer: Printer, c: FileContent): Bytes
  {
    match c
    case Binary(b) => b
    case TextFile(b) => b
    case SceneFile(s) => SceneBytes(printer(s), "")
  }

  function ToHash(printer: Printer, c: FileContent): Hash { HashOf(ToBytes(printer, c)) }

  // The fields of a file entry. Changing the kind of a file may leave fields of the old kind behind.
  datatype Entry = Entry(structured: Option<Stored>, content: Option<Bytes>, url: Option<DocId>, hash: Option<Hash>)

  datatype Read = Inline(content: FileContent) | Link(id: DocId) | Unreadable | Panics

  // hydrate_content_at: structured content first, then text, then the link. Reading a scene may
  // rename nodes, or panic.
  function Hydrate(order: Order, e: Entry): Read
    requires OrderOk(order)
  {
    if e.structured.Some? then
      match ReadStored(order, e.structured.value) case None => Panics case Some(s) => Inline(SceneFile(s))
    else if e.content.Some? then Inline(TextFile(e.content.value))
    else if e.url.Some? then Link(e.url.value)
    else Unreadable
  }

  // The value under a path; anything but an object is ignored by readers.
  datatype Slot = Scalar | Object(entry: Entry)

  type FileMap = map<string, Slot>

  function ReadContent(order: Order, e: Entry, docs: map<DocId, Bytes>): Option<FileContent>
    requires OrderOk(order)
  {
    match Hydrate(order, e)
    case Inline(c) => Some(c)
    case Link(id) => if id in docs then Some(Binary(docs[id])) else None
    case Unreadable => None
    case Panics => None
  }

  function ReadPath(order: Order, files: FileMap, docs: map<DocId, Bytes>, path: string): Option<FileContent>
    requires OrderOk(order)
  {
    if path in files && files[path].Object? then ReadContent(order, files[path].entry, docs) else None
  }

  // ---------- contents that reading does not change ----------

  // What an entry holds, before any renaming.
  function Held(e: Entry, docs: map<DocId, Bytes>): Option<FileContent>
  {
    if e.structured.Some? then
      match ReadKeys(e.structured.value.nodes)
      case None => None
      case Some(nodes) => Some(SceneFile(e.structured.value.rest.(nodes := nodes)))
    else if e.content.Some? then Some(TextFile(e.content.value))
    else if e.url.Some? && e.url.value in docs then Some(Binary(docs[e.url.value]))
    else None
  }

  // Neither the names nor the text of the content depend on the order in which maps are visited.
  ghost predicate Steady(c: FileContent)
  {
    c.SceneFile? ==> Survives(c.scene) && StableScene(c.scene)
  }

  ghost predicate StableScene(s: SceneModel.Scene)
  {
    exists t :: SceneWriter.Printable(s, t) && SceneStability.OneText(s, t)
  }

  // A steady content is read as it is held, in whatever order.
  lemma SteadyRead(order: Order, e: Entry, docs: map<DocId, Bytes>)
    requires OrderOk(order) && Held(e, docs).Some? && Steady(Held(e, docs).value)
    ensures ReadContent(order, e, docs) == Held(e, docs)
  {
    if e.structured.Some? {
      var nodes := ReadKeys(e.structured.value.nodes).value;
      RenamesNothing(nodes, order(nodes));
    }
  }

  lemma PrintsOf(printer: Printer, s: SceneModel.Scene, t: SceneTree.Tree) returns (layout: SceneText.Layout, p: SceneText.Pieces)
    requires PrinterOk(printer) && SceneWriter.Printable(s, t)
    ensures SceneText.Prints(s, t, layout, p) && printer(s) == SceneText.AllSections(p)
  {
    assert PrintedAs(s, t, printer(s));
    layout, p :| SceneText.Prints(s, t, layout, p) && printer(s) == SceneText.AllSections(p);
  }

  lemma OneTextTwice(s: SceneModel.Scene, t: SceneTree.Tree, l1: SceneText.Layout, p1: SceneText.Pieces, l2: SceneText.Layout, p2: SceneText.Pieces)
    requires SceneText.TreeOf(s, t) && SceneStability.OneText(s, t) && SceneText.Prints(s, t, l1, p1) && SceneText.Prints(s, t, l2, p2)
    ensures SceneText.AllSections(p1) == SceneText.AllSections(p2)
  {
  }

  lemma SteadyText(a: Printer, b: Printer, s: SceneModel.Scene, t: SceneTree.Tree)
    requires PrinterOk(a) && PrinterOk(b) && SceneWriter.Printable(s, t) && SceneStability.OneText(s, t)
    ensures a(s) == b(s)
  {
    var l1, p1 := PrintsOf(a, s, t);
    var l2, p2 := PrintsOf(b, s, t);
    OneTextTwice(s, t, l1, p1, l2, p2);
  }

  // A steady content has one hash, whatever the printer.
  lemma SteadyHash(a: Printer, b: Printer, c: FileContent)
    requires PrinterOk(a) && PrinterOk(b) && Steady(c)
    ensures ToHash(a, c) == ToHash(b, c)
  {
    if c.SceneFile? {
      var t :| SceneWriter.Printable(c.scene, t) && SceneStability.OneText(c.scene, t);
      SteadyText(a, b, c.scene, t);
    }
  }

  // ---------- comparing indices ----------

  type Index = map<string, Hash>

  datatype ChangeType = Created | Deleted | Modified

  function ChangeOf(before: Index, after: Index, path: string): Option<ChangeType>
  {
    if path in after then
      if path !in before then Some(Created)
      else if before[path] != after[path] then Some(Modified) else None
    else if path in before then Some(Deleted) else None
  }

  // A path is reported exactly when the two indices differ there.
  lemma ChangeMeansDifference(before: Index, after: Index, path: string)
    ensures ChangeOf(before, after, path).None?
      <==> (path in before <==> path in after) && (path in before ==> before[path] == after[path])
  {
  }

  method GetFileChanges(before: Index, after: Index) returns (changes: map<string, ChangeType>)
    ensures forall path :: path in changes <==> ChangeOf(before, after, path).Some?
    ensures forall path :: path in changes ==> ChangeOf(before, after, path) == Some(changes[path])
  {
    changes := map[];
    var rest := after.Keys;
    while rest != {}
      invariant rest <= after.Keys
      invariant forall path :: path in changes <==> path in after && path !in rest && ChangeOf(before, after, path).Some?
      invariant forall path :: path in changes ==> ChangeOf(before, after, path) == Some(changes[path])
      decreases rest
    {
      var path := Any(rest);
      rest := rest - {path};
      if path !in before {
        changes := changes[path := Created];
      } else if before[path] != after[path] {
        changes := changes[path := Modified];
      }
    }
    var gone := before.Keys - after.Keys;
    while gone != {}
      invariant gone <= before.Keys - after.Keys
      invariant forall path :: path in changes <==> path !in gone && ChangeOf(before, after, path).Some?
      invariant forall path :: path in changes ==> ChangeOf(before, after, path) == Some(changes[path])
      decreases gone
    {
      var path := Any(gone);
      gone := gone - {path};
      changes := changes[path := Deleted];
    }
  }
}
