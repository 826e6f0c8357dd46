// The in-memory scene and the sections of its text form, at the level of the
// captures the parser queries: section kind, attributes, properties.

module SceneModel {
  import opened Text

  datatype NodeId = NodeId(id: int, rootInstance: Option<seq<int>>)

  const UNASSIGNED := NodeId(0, None)

  datatype TypeOrInstance = Type(name: string) | Instance(resource: string)

  datatype Property = Property(value: string, order: int)

  type Properties = map<string, Property>

  datatype Node = Node(
    id: NodeId,
    name: string,
    kind: Option<TypeOrInstance>,
    placeholder: Option<string>,
    parent: Option<NodeId>,
    fallback: Option<string>,
    parentIdPath: Option<seq<int>>,
    owner: Option<string>,
    ownerUidPath: Option<seq<int>>,
    index: Option<int>,
    groups: Option<string>,
    nodePaths: Option<string>,
    properties: Properties,
    children: seq<NodeId>)

  datatype Connection = Connection(
    signal: string,
    from: NodeId,
    to: NodeId,
    callee: string,
    flags: Option<int>,
    fromUidPath: Option<seq<int>>,
    toUidPath: Option<seq<int>>,
    unbinds: Option<int>,
    binds: Option<string>)

  datatype ExtResource = ExtResource(kind: string, uid: Option<string>, path: string, id: string, idx: int)

  datatype SubResource = SubResource(id: string, kind: string, properties: Properties, idx: int)

  datatype Scene = Scene(
    loadSteps: int,
    format: int,
    uid: string,
    scriptClass: Option<string>,
    resourceType: string,
    root: Option<NodeId>,
    extResources: map<string, ExtResource>,
    subResources: map<string, SubResource>,
    nodes: map<NodeId, Node>,
    connections: map<string, Connection>,
    editable: seq<string>,
    mainResource: Option<SubResource>)

  // A node without type and instance edits a node that lives inside an instanced scene.
  predicate IsEdited(n: Node) { n.kind.None? }

  // ---------- node identifiers as map keys ----------

  function PrintNumbers(ids: seq<int>): seq<string>
    ensures |PrintNumbers(ids)| == |ids|
    ensures forall i :: 0 <= i < |ids| ==> PrintNumbers(ids)[i] == PrintInt(ids[i])
  {
    seq(|ids|, i requires 0 <= i < |ids| => PrintInt(ids[i]))
  }

  function IdNumbers(n: NodeId): seq<int>
  {
    [n.id] + match n.rootInstance case None => [] case Some(path) => path
  }

  function PrintNodeId(n: NodeId): string
  {
    Join(PrintNumbers(IdNumbers(n)), "-")
  }

  function ReadNumbers(parts: seq<string>): Option<seq<int>>
  {
    if parts == [] then Some([])
    else
      match (ParseI32(parts[0]), ReadNumbers(parts[1..]))
      case (Some(n), Some(rest)) => Some([n] + rest)
      case _ => None
  }

  function ReadNodeId(s: string): Option<NodeId>
  {
    match ReadNumbers(Split(s, '-'))
    case None => None
    case Some(ns) =>
      if ns == [] then None
      else Some(NodeId(ns[0], if |ns| > 1 then Some(ns[1..]) else None))
  }

  // ---------- integer arrays ----------

  const ARRAY_PREFIX := "PackedInt32Array("

  function PrintArray(ids: seq<int>): string
  {
    ARRAY_PREFIX + Join(PrintNumbers(ids), ", ") + ")"
  }

  function ReadElement(s: string): int
  {
    match ParseI32(Trim(s)) case None => 0 case Some(n) => n
  }

  function ReadElements(parts: seq<string>): (r: seq<int>)
    ensures |r| == |parts|
  {
    seq(|parts|, i requires 0 <= i < |parts| => ReadElement(parts[i]))
  }

  // None stands for the panic of the two unwraps.
  function ReadArray(s: string): Option<seq<int>>
  {
    var n := |ARRAY_PREFIX|;
    if |s| > n && s[..n] == ARRAY_PREFIX && s[|s| - 1] == ')' then
      Some(ReadElements(Split(Trim(s[n..|s| - 1]), ',')))
    else
      None
  }

  // ---------- connections ----------

  function ConnectionId(c: Connection): string
  {
    c.signal + "-" + PrintNodeId(c.from) + "-" + PrintNodeId(c.to) + "-" + c.callee + "-"
    + (match c.flags case None => "" case Some(n) => PrintInt(n)) + "-"
    + (match c.unbinds case None => "" case Some(n) => PrintInt(n)) + "-"
    + (match c.binds case None => "[]" case Some(b) => b)
  }

  // ---------- sections ----------

  datatype SectionKind = GdScene | GdResource | ExtResourceSection | SubResourceSection | ResourceSection
                       | NodeSection | ConnectionSection | EditableSection | OtherSection(name: string)

  datatype Key = Name | TypeKey | ParentKey | ParentIdPath | Owner | OwnerUidPath | Index | UniqueId | NodePaths
               | Groups | Placeholder | InstanceKey | LoadSteps | Format | Uid | ScriptClass | Path | Id
               | Signal | From | To | Method | Flags | FromUidPath | ToUidPath | Unbinds | Binds | OtherKey(key: string)

  datatype Section = Section(kind: SectionKind, attributes: seq<(Key, string)>, properties: seq<(string, string)>)

  // The heading map: a later attribute overwrites an earlier one.
  function Lookup(attributes: seq<(Key, string)>, key: Key): Option<string>
  {
    if attributes == [] then None
    else
      var last := attributes[|attributes| - 1];
      if last.0 == key then Some(last.1) else Lookup(attributes[..|attributes| - 1], key)
  }

  // Optional attributes in printing order.
  function Present(fields: seq<(Key, Option<string>)>): seq<(Key, string)>
  {
    if fields == [] then []
    else
      var last := fields[|fields| - 1];
      var front := Present(fields[..|fields| - 1]);
      if last.1.Some? then front + [(last.0, last.1.value)] else front
  }

  predicate DistinctKeys(fields: seq<(Key, Option<string>)>)
  {
    forall i, j :: 0 <= i < j < |fields| ==> fields[i].0 != fields[j].0
  }

  lemma {:induction false} LookupAbsent(fields: seq<(Key, Option<string>)>, key: Key)
    requires forall i :: 0 <= i < |fields| ==> fields[i].0 != key
    ensures Lookup(Present(fields), key) == None
  {
    if fields != [] {
      var front, last := fields[..|fields| - 1], fields[|fields| - 1];
      LookupAbsent(front, key);
      if last.1.Some? {
        assert Present(fields)[..|Present(fields)| - 1] == Present(front);
      }
    }
  }

  // A printed attribute is found again, and an attribute that was left out is not found.
  lemma {:induction false} LookupPresent(fields: seq<(Key, Option<string>)>, i: nat)
    requires i < |fields| && DistinctKeys(fields)
    ensures Lookup(Present(fields), fields[i].0) == fields[i].1
  {
    var front, last := fields[..|fields| - 1], fields[|fields| - 1];
    if last.1.Some? {
      assert Present(fields)[..|Present(fields)| - 1] == Present(front);
    }
    if i < |fields| - 1 {
      LookupPresent(front, i);
    } else if last.1.None? {
      LookupAbsent(front, last.0);
    }
  }

  // ---------- properties ----------

  function ReadProperties(pairs: seq<(string, string)>): Properties
  {
    if pairs == [] then map[]
    else
      var n := |pairs| - 1;
      ReadProperties(pairs[..n])[pairs[n].0 := Property(pairs[n].1, n)]
  }

  // Keys of a map listed once each.
  ghost predicate Lists<K, V>(ks: seq<K>, m: map<K, V>)
  {
    && (forall i, j :: 0 <= i < j < |ks| ==> ks[i] != ks[j])
    && (forall i :: 0 <= i < |ks| ==> ks[i] in m)
    && |ks| == |m|
  }

  ghost predicate PrintsProperties(m: Properties, pairs: seq<(string, string)>)
  {
    && |pairs| == |m|
    && (forall i :: 0 <= i < |pairs| ==> pairs[i].0 in m && m[pairs[i].0].value == pairs[i].1)
    && (forall i, j :: 0 <= i < j < |pairs| ==> pairs[i].0 != pairs[j].0)
    && (forall i, j :: 0 <= i < j < |pairs| ==> m[pairs[i].0].order <= m[pairs[j].0].order)
  }

  // The orders 0 .. n-1, each used once.
  predicate DenseOrders(m: Properties)
  {
    && (forall k :: k in m ==> 0 <= m[k].order < |m|)
    && (forall k, l :: k in m && l in m && k != l ==> m[k].order != m[l].order)
  }
}
