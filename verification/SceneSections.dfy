// One section of the text form at a time: how the printer writes it and how the parser reads it.

module SceneSections {
  import opened Text
  import opened SceneModel
  import opened SceneCodec
  import opened SceneLinks

  // ---------- attribute values ----------

  // The grammar captures whole string literals, so no captured value is a lone quote.
  predicate Captured(attributes: seq<(Key, string)>)
  {
    forall i :: 0 <= i < |attributes| ==> attributes[i].1 != "\""
  }

  lemma {:induction false} LookupCaptured(attributes: seq<(Key, string)>, key: Key)
    requires Captured(attributes)
    ensures Lookup(attributes, key) != Some("\"")
  {
    if attributes != [] { LookupCaptured(attributes[..|attributes| - 1], key); }
  }

  function LookupText(attributes: seq<(Key, string)>, key: Key): Option<string>
    requires Captured(attributes)
  {
    LookupCaptured(attributes, key);
    match Lookup(attributes, key) case None => None case Some(v) => Some(Unquote(v))
  }

  function LookupI64(attributes: seq<(Key, string)>, key: Key): Option<int>
  {
    match Lookup(attributes, key) case None => None case Some(v) => ParseI64(v)
  }

  // An absent array, or one the source can read.
  predicate ArrayReadable(attributes: seq<(Key, string)>, key: Key)
  {
    match Lookup(attributes, key) case None => true case Some(v) => ReadArray(v).Some?
  }

  function LookupArray(attributes: seq<(Key, string)>, key: Key): Option<seq<int>>
  {
    match Lookup(attributes, key) case None => None case Some(v) => ReadArray(v)
  }

  function Quoted(v: Option<string>): Option<string>
  {
    match v case None => None case Some(s) => Some(Quote(s))
  }

  function Number(v: Option<int>): Option<string>
  {
    match v case None => None case Some(n) => Some(PrintInt(n))
  }

  function NumberArray(v: Option<seq<int>>): Option<string>
  {
    match v case None => None case Some(ids) => Some(PrintArray(ids))
  }

  // Text printed without quotes and read with unquote.
  predicate Plain(v: Option<string>) { v.Some? ==> v.value != "\"" && !IsQuoted(v.value) }

  predicate WideNumber(v: Option<int>) { v.Some? ==> IsI64(v.value) }

  predicate ArrayOk(v: Option<seq<int>>) { v.Some? ==> v.value != [] && AllI32(v.value) }

  lemma ReadQuoted(v: Option<string>)
    ensures v.Some? ==> Quote(v.value) != "\"" && Unquote(Quote(v.value)) == v.value
  {
  }

  lemma ReadWideNumber(n: int)
    requires IsI64(n)
    ensures ParseI64(PrintInt(n)) == Some(n) && PrintInt(n) != "\"" && !IsQuoted(PrintInt(n))
  {
    PrintReadInt(n);
    PrintedChars(n);
    var s := PrintInt(n);
    assert s[0] != '"';
    assert "\""[0] == '"';
  }

  lemma ReadNumberArray(v: Option<seq<int>>)
    requires ArrayOk(v)
    ensures v.Some? ==> PrintArray(v.value) != "\"" && ReadArray(PrintArray(v.value)) == v
  {
    if v.Some? {
      ArrayRoundTrip(v.value);
      assert |PrintArray(v.value)| > 1;
    }
  }

  // ---------- node sections ----------

  function NodeFields(n: Node, parentName: Option<string>): seq<(Key, Option<string>)>
  {
    [(Name, Some(Quote(n.name))),
     (TypeKey, if n.kind.Some? && n.kind.value.Type? then Some(Quote(n.kind.value.name)) else None),
     (ParentKey, Quoted(parentName)),
     (ParentIdPath, if parentName.Some? then NumberArray(n.parentIdPath) else None),
     (Owner, Quoted(n.owner)),
     (OwnerUidPath, if n.owner.Some? then NumberArray(n.ownerUidPath) else None),
     (Index, match n.index case None => None case Some(i) => Some(Quote(PrintInt(i)))),
     (UniqueId, Some(PrintInt(n.id.id))),
     (NodePaths, n.nodePaths),
     (Groups, n.groups),
     (Placeholder, n.placeholder),
     (InstanceKey, if n.kind.Some? && n.kind.value.Instance? then Some(n.kind.value.resource) else None)]
  }

  ghost predicate PrintsNode(n: Node, parentName: Option<string>, s: Section)
  {
    && s.kind == NodeSection
    && s.attributes == Present(NodeFields(n, parentName))
    && PrintsProperties(n.properties, s.properties)
  }

  function ReadUniqueId(v: Option<string>): int
  {
    match v case None => 0 case Some(text) => match ParseI32(text) case None => 0 case Some(n) => n
  }

  function ReadIndex(v: Option<string>): Option<int>
  {
    match v case None => None case Some(text) => ParseI64(text)
  }

  function ReadKind(a: seq<(Key, string)>): Option<TypeOrInstance>
    requires Captured(a)
  {
    if Lookup(a, TypeKey).Some? then Some(Type(LookupText(a, TypeKey).value))
    else if Lookup(a, InstanceKey).Some? then Some(Instance(LookupText(a, InstanceKey).value))
    else None
  }

  // The node of a section, before duplicate identifiers are replaced and links are made.
  function ReadNode(s: Section): Result<Node>
    requires Captured(s.attributes)
  {
    var a := s.attributes;
    if Lookup(a, Name).None? then Err(MissingAttribute)
    else if !ArrayReadable(a, ParentIdPath) || !ArrayReadable(a, OwnerUidPath) then Err(MalformedArray)
    else
      Ok(Node(NodeId(ReadUniqueId(Lookup(a, UniqueId)), None), LookupText(a, Name).value, ReadKind(a), LookupText(a, Placeholder),
              None, LookupText(a, ParentKey), LookupArray(a, ParentIdPath), LookupText(a, Owner), LookupArray(a, OwnerUidPath),
              ReadIndex(LookupText(a, Index)), Lookup(a, Groups), LookupText(a, NodePaths), ReadProperties(s.properties), []))
  }

  // What a node must satisfy for its section to be read back.
  predicate NodeTextOk(n: Node, isRoot: bool)
  {
    && IsI32(n.id.id)
    && (n.kind.Some? && n.kind.value.Instance? ==> Plain(Some(n.kind.value.resource)))
    && Plain(n.placeholder) && Plain(n.nodePaths) && n.groups != Some("\"")
    && (if isRoot then n.parentIdPath == None else ArrayOk(n.parentIdPath))
    && (if n.owner.None? then n.ownerUidPath == None else ArrayOk(n.ownerUidPath))
    && WideNumber(n.index)
    && DenseOrders(n.properties)
  }

  // What the parser finds in a printed node section, attribute by attribute.
  predicate NodeLookups(a: seq<(Key, string)>, n: Node, parentName: Option<string>)
  {
    && Lookup(a, Name) == Some(Quote(n.name))
    && Lookup(a, TypeKey) == (if n.kind.Some? && n.kind.value.Type? then Some(Quote(n.kind.value.name)) else None)
    && Lookup(a, ParentKey) == Quoted(parentName)
    && Lookup(a, ParentIdPath) == (if parentName.Some? then NumberArray(n.parentIdPath) else None)
    && Lookup(a, Owner) == Quoted(n.owner)
    && Lookup(a, OwnerUidPath) == (if n.owner.Some? then NumberArray(n.ownerUidPath) else None)
    && Lookup(a, Index) == (match n.index case None => None case Some(i) => Some(Quote(PrintInt(i))))
    && Lookup(a, UniqueId) == Some(PrintInt(n.id.id))
    && Lookup(a, NodePaths) == n.nodePaths
    && Lookup(a, Groups) == n.groups
    && Lookup(a, Placeholder) == n.placeholder
    && Lookup(a, InstanceKey) == if n.kind.Some? && n.kind.value.Instance? then Some(n.kind.value.resource) else None
  }

  lemma NodeAttributes(n: Node, parentName: Option<string>)
    ensures NodeLookups(Present(NodeFields(n, parentName)), n, parentName)
  {
    var f := NodeFields(n, parentName);
    assert DistinctKeys(f);
    LookupPresent(f, 0);
    LookupPresent(f, 1);
    LookupPresent(f, 2);
    LookupPresent(f, 3);
    LookupPresent(f, 4);
    LookupPresent(f, 5);
    LookupPresent(f, 6);
    LookupPresent(f, 7);
    LookupPresent(f, 8);
    LookupPresent(f, 9);
    LookupPresent(f, 10);
    LookupPresent(f, 11);
  }

  lemma {:induction false} PresentCaptured(fields: seq<(Key, Option<string>)>)
    requires forall i :: 0 <= i < |fields| ==> fields[i].1 != Some("\"")
    ensures Captured(Present(fields))
  {
    if fields != [] { PresentCaptured(fields[..|fields| - 1]); }
  }

  lemma NodeCaptured(n: Node, parentName: Option<string>)
    requires NodeTextOk(n, parentName.None?)
    ensures Captured(Present(NodeFields(n, parentName)))
  {
    var f := NodeFields(n, parentName);
    UnquoteQuote(n.name);
    if n.kind.Some? && n.kind.value.Type? { UnquoteQuote(n.kind.value.name); }
    ReadQuoted(parentName);
    ReadQuoted(n.owner);
    if n.index.Some? { UnquoteQuote(PrintInt(n.index.value)); }
    ReadWideNumber(n.id.id);
    ReadNumberArray(n.parentIdPath);
    if n.owner.Some? { ReadNumberArray(n.ownerUidPath); }
    PresentCaptured(f);
  }

  // A printed node section is read back as the node without its links.
  lemma ReadPrintedNode(n: Node, parentName: Option<string>, s: Section)
    requires NodeTextOk(n, parentName.None?) && PrintsNode(n, parentName, s)
    ensures Captured(s.attributes)
    ensures ReadNode(s) == Ok(n.(id := NodeId(n.id.id, None), parent := None, fallback := parentName, children := []))
  {
    NodeCaptured(n, parentName);
    NodeAttributes(n, parentName);
    ReadNodeLookups(n, parentName, s);
  }

  lemma ReadNodeLookups(n: Node, parentName: Option<string>, s: Section)
    requires NodeTextOk(n, parentName.None?) && PrintsProperties(n.properties, s.properties)
    requires Captured(s.attributes) && NodeLookups(s.attributes, n, parentName)
    ensures ReadNode(s) == Ok(n.(id := NodeId(n.id.id, None), parent := None, fallback := parentName, children := []))
  {
    var a := s.attributes;
    FindQuoted(a, Name, Some(n.name));
    FindQuoted(a, ParentKey, parentName);
    FindQuoted(a, Owner, n.owner);
    FindPlain(a, NodePaths, n.nodePaths);
    FindPlain(a, Placeholder, n.placeholder);
    FindArray(a, ParentIdPath, n.parentIdPath);
    FindArray(a, OwnerUidPath, n.ownerUidPath);
    FindKind(a, n.kind);
    FindIndex(a, n.index);
    PrintReadInt(n.id.id);
    ReadPrintedProperties(n.properties, s.properties);
  }

  lemma FindKind(a: seq<(Key, string)>, kind: Option<TypeOrInstance>)
    requires Captured(a) && (kind.Some? && kind.value.Instance? ==> Plain(Some(kind.value.resource)))
    requires Lookup(a, TypeKey) == if kind.Some? && kind.value.Type? then Some(Quote(kind.value.name)) else None
    requires Lookup(a, InstanceKey) == if kind.Some? && kind.value.Instance? then Some(kind.value.resource) else None
    ensures ReadKind(a) == kind
  {
  }

  lemma FindQuoted(a: seq<(Key, string)>, key: Key, v: Option<string>)
    requires Captured(a) && Lookup(a, key) == Quoted(v)
    ensures LookupText(a, key) == v
  {
  }

  lemma FindPlain(a: seq<(Key, string)>, key: Key, v: Option<string>)
    requires Captured(a) && Lookup(a, key) == v && Plain(v)
    ensures LookupText(a, key) == v
  {
  }

  lemma FindArray(a: seq<(Key, string)>, key: Key, v: Option<seq<int>>)
    requires Lookup(a, key) == NumberArray(v) && ArrayOk(v)
    ensures ArrayReadable(a, key) && LookupArray(a, key) == v
  {
    ReadNumberArray(v);
  }

  lemma FindIndex(a: seq<(Key, string)>, v: Option<int>)
    requires Captured(a) && WideNumber(v)
    requires Lookup(a, Index) == match v case None => None case Some(i) => Some(Quote(PrintInt(i)))
    ensures ReadIndex(LookupText(a, Index)) == v
  {
    if v.Some? {
      ReadWideNumber(v.value);
      UnquoteQuote(PrintInt(v.value));
    }
  }

  // ---------- resource sections ----------

  function ExtFields(r: ExtResource): seq<(Key, Option<string>)>
  {
    [(TypeKey, Some(Quote(r.kind))), (Uid, Quoted(r.uid)), (Path, Some(Quote(r.path))), (Id, Some(Quote(r.id)))]
  }

  function PrintExt(r: ExtResource): Section
  {
    Section(ExtResourceSection, Present(ExtFields(r)), [])
  }

  function ReadExt(s: Section, idx: int): Result<ExtResource>
    requires Captured(s.attributes)
  {
    var a := s.attributes;
    if Lookup(a, TypeKey).None? || Lookup(a, Path).None? || Lookup(a, Id).None? then Err(MissingAttribute)
    else Ok(ExtResource(LookupText(a, TypeKey).value, LookupText(a, Uid), LookupText(a, Path).value, LookupText(a, Id).value, idx))
  }

  lemma ExtFound(r: ExtResource)
    ensures var a := PrintExt(r).attributes;
      && Lookup(a, TypeKey) == Some(Quote(r.kind)) && Lookup(a, Uid) == Quoted(r.uid)
      && Lookup(a, Path) == Some(Quote(r.path)) && Lookup(a, Id) == Some(Quote(r.id))
  {
    var f := ExtFields(r);
    LookupPresent(f, 0);
    LookupPresent(f, 1);
    LookupPresent(f, 2);
    LookupPresent(f, 3);
  }

  lemma ReadPrintedExt(r: ExtResource)
    ensures Captured(PrintExt(r).attributes)
    ensures ReadExt(PrintExt(r), r.idx) == Ok(r)
  {
    UnquoteQuote(r.kind);
    UnquoteQuote(r.path);
    UnquoteQuote(r.id);
    ReadQuoted(r.uid);
    PresentCaptured(ExtFields(r));
    ExtFound(r);
  }

  function SubFields(r: SubResource): seq<(Key, Option<string>)>
  {
    [(TypeKey, Some(Quote(r.kind))), (Id, Some(Quote(r.id)))]
  }

  ghost predicate PrintsSub(r: SubResource, s: Section)
  {
    && s.kind == SubResourceSection
    && s.attributes == Present(SubFields(r))
    && PrintsProperties(r.properties, s.properties)
  }

  function ReadSub(s: Section, idx: int): Result<SubResource>
    requires Captured(s.attributes)
  {
    var a := s.attributes;
    if Lookup(a, Id).None? || Lookup(a, TypeKey).None? then Err(MissingAttribute)
    else Ok(SubResource(LookupText(a, Id).value, LookupText(a, TypeKey).value, ReadProperties(s.properties), idx))
  }

  lemma ReadPrintedSub(r: SubResource, s: Section)
    requires DenseOrders(r.properties) && PrintsSub(r, s)
    ensures Captured(s.attributes)
    ensures ReadSub(s, r.idx) == Ok(r)
  {
    var f := SubFields(r);
    UnquoteQuote(r.kind);
    UnquoteQuote(r.id);
    PresentCaptured(f);
    forall i | 0 <= i < |f| ensures Lookup(Present(f), f[i].0) == f[i].1 { LookupPresent(f, i); }
    assert f[0].0 == TypeKey && f[1].0 == Id;
    ReadPrintedProperties(r.properties, s.properties);
  }

  // ---------- header ----------

  datatype Metadata = Metadata(loadSteps: int, format: int, uid: string, scriptClass: Option<string>, resourceType: string)

  const PACKED_SCENE := "PackedScene"

  function HeaderFields(m: Metadata): seq<(Key, Option<string>)>
  {
    var packed := m.resourceType == PACKED_SCENE;
    [(TypeKey, if packed then None else Some(Quote(m.resourceType))),
     (ScriptClass, if packed then None else Quoted(m.scriptClass)),
     (LoadSteps, if m.loadSteps != 0 then Some(PrintInt(m.loadSteps)) else None),
     (Format, Some(PrintInt(m.format))),
     (Uid, Some(Quote(m.uid)))]
  }

  function PrintHeader(m: Metadata): Section
  {
    Section(if m.resourceType == PACKED_SCENE then GdScene else GdResource, Present(HeaderFields(m)), [])
  }

  function ReadHeader(s: Section): Result<Metadata>
    requires Captured(s.attributes)
  {
    var a := s.attributes;
    var steps := match LookupI64(a, LoadSteps) case None => 0 case Some(n) => n;
    var format := LookupI64(a, Format);
    if format.None? || Lookup(a, Uid).None? then Err(MissingAttribute)
    else if s.kind == GdScene then Ok(Metadata(steps, format.value, LookupText(a, Uid).value, None, PACKED_SCENE))
    else if Lookup(a, TypeKey).None? then Err(MissingAttribute)
    else Ok(Metadata(steps, format.value, LookupText(a, Uid).value, LookupText(a, ScriptClass), LookupText(a, TypeKey).value))
  }

  predicate HeaderOk(m: Metadata)
  {
    IsI64(m.loadSteps) && IsI64(m.format) && (m.resourceType == PACKED_SCENE ==> m.scriptClass == None)
  }

  lemma ReadPrintedHeader(m: Metadata)
    requires HeaderOk(m)
    ensures Captured(PrintHeader(m).attributes)
    ensures ReadHeader(PrintHeader(m)) == Ok(m)
  {
    HeaderCaptured(m);
    HeaderAttributes(m);
    UnquoteQuote(m.resourceType);
    UnquoteQuote(m.uid);
    ReadQuoted(m.scriptClass);
    ReadWideNumber(m.loadSteps);
    ReadWideNumber(m.format);
  }

  lemma HeaderCaptured(m: Metadata)
    requires HeaderOk(m)
    ensures Captured(Present(HeaderFields(m)))
  {
    UnquoteQuote(m.resourceType);
    UnquoteQuote(m.uid);
    ReadQuoted(m.scriptClass);
    ReadWideNumber(m.loadSteps);
    ReadWideNumber(m.format);
    PresentCaptured(HeaderFields(m));
  }

  lemma HeaderAttributes(m: Metadata)
    ensures var a, packed := Present(HeaderFields(m)), m.resourceType == PACKED_SCENE;
      && Lookup(a, TypeKey) == (if packed then None else Some(Quote(m.resourceType)))
      && Lookup(a, ScriptClass) == (if packed then None else Quoted(m.scriptClass))
      && Lookup(a, LoadSteps) == (if m.loadSteps != 0 then Some(PrintInt(m.loadSteps)) else None)
      && Lookup(a, Format) == Some(PrintInt(m.format))
      && Lookup(a, Uid) == Some(Quote(m.uid))
  {
    var f := HeaderFields(m);
    LookupPresent(f, 0);
    LookupPresent(f, 1);
    LookupPresent(f, 2);
    LookupPresent(f, 3);
    LookupPresent(f, 4);
  }

  // ---------- connections ----------

  function ConnectionFields(c: Connection, from: string, to: string): seq<(Key, Option<string>)>
  {
    [(Signal, Some(Quote(c.signal))), (From, Some(Quote(from))), (To, Some(Quote(to))), (Method, Some(Quote(c.callee))),
     (Flags, Number(c.flags)), (FromUidPath, NumberArray(c.fromUidPath)), (ToUidPath, NumberArray(c.toUidPath)),
     (Unbinds, Number(c.unbinds)), (Binds, c.binds)]
  }

  function PrintConnection(c: Connection, from: string, to: string): Section
  {
    Section(ConnectionSection, Present(ConnectionFields(c, from, to)), [])
  }

  function ReadConnection(s: Section): Result<RawConnection>
    requires Captured(s.attributes)
  {
    var a := s.attributes;
    if Lookup(a, Signal).None? || Lookup(a, From).None? || Lookup(a, To).None? || Lookup(a, Method).None? then Err(MissingAttribute)
    else if !ArrayReadable(a, FromUidPath) || !ArrayReadable(a, ToUidPath) then Err(MalformedArray)
    else
      Ok(RawConnection(LookupText(a, From).value, LookupText(a, To).value,
           Connection(LookupText(a, Signal).value, UNASSIGNED, UNASSIGNED, LookupText(a, Method).value, LookupI64(a, Flags),
                      LookupArray(a, FromUidPath), LookupArray(a, ToUidPath), LookupI64(a, Unbinds), LookupText(a, Binds))))
  }

  predicate ConnectionTextOk(c: Connection)
  {
    && WideNumber(c.flags) && WideNumber(c.unbinds)
    && ArrayOk(c.fromUidPath) && ArrayOk(c.toUidPath)
    && Plain(c.binds)
  }

  predicate ConnectionLookups(a: seq<(Key, string)>, c: Connection, from: string, to: string)
  {
    && Lookup(a, Signal) == Some(Quote(c.signal)) && Lookup(a, From) == Some(Quote(from))
    && Lookup(a, To) == Some(Quote(to)) && Lookup(a, Method) == Some(Quote(c.callee))
    && Lookup(a, Flags) == Number(c.flags) && Lookup(a, FromUidPath) == NumberArray(c.fromUidPath)
    && Lookup(a, ToUidPath) == NumberArray(c.toUidPath) && Lookup(a, Unbinds) == Number(c.unbinds)
    && Lookup(a, Binds) == c.binds
  }

  lemma ConnectionAttributes(c: Connection, from: string, to: string)
    ensures ConnectionLookups(Present(ConnectionFields(c, from, to)), c, from, to)
  {
    var f := ConnectionFields(c, from, to);
    assert DistinctKeys(f);
    LookupPresent(f, 0);
    LookupPresent(f, 1);
    LookupPresent(f, 2);
    LookupPresent(f, 3);
    LookupPresent(f, 4);
    LookupPresent(f, 5);
    LookupPresent(f, 6);
    LookupPresent(f, 7);
    LookupPresent(f, 8);
  }

  lemma ReadPrintedConnection(c: Connection, from: string, to: string)
    requires ConnectionTextOk(c)
    ensures Captured(PrintConnection(c, from, to).attributes)
    ensures ReadConnection(PrintConnection(c, from, to))
         == Ok(RawConnection(from, to, c.(from := UNASSIGNED, to := UNASSIGNED)))
  {
    ConnectionCaptured(c, from, to);
    ConnectionAttributes(c, from, to);
    ReadConnectionLookups(c, from, to, PrintConnection(c, from, to));
  }

  lemma ConnectionCaptured(c: Connection, from: string, to: string)
    requires ConnectionTextOk(c)
    ensures Captured(Present(ConnectionFields(c, from, to)))
  {
    UnquoteQuote(c.signal);
    UnquoteQuote(from);
    UnquoteQuote(to);
    UnquoteQuote(c.callee);
    if c.flags.Some? { ReadWideNumber(c.flags.value); }
    if c.unbinds.Some? { ReadWideNumber(c.unbinds.value); }
    ReadNumberArray(c.fromUidPath);
    ReadNumberArray(c.toUidPath);
    PresentCaptured(ConnectionFields(c, from, to));
  }

  lemma ReadConnectionLookups(c: Connection, from: string, to: string, s: Section)
    requires ConnectionTextOk(c) && Captured(s.attributes) && ConnectionLookups(s.attributes, c, from, to)
    ensures ReadConnection(s) == Ok(RawConnection(from, to, c.(from := UNASSIGNED, to := UNASSIGNED)))
  {
    var a := s.attributes;
    FindQuoted(a, Signal, Some(c.signal));
    FindQuoted(a, From, Some(from));
    FindQuoted(a, To, Some(to));
    FindQuoted(a, Method, Some(c.callee));
    FindWide(a, Flags, c.flags);
    FindWide(a, Unbinds, c.unbinds);
    FindArray(a, FromUidPath, c.fromUidPath);
    FindArray(a, ToUidPath, c.toUidPath);
    FindPlain(a, Binds, c.binds);
  }

  lemma FindWide(a: seq<(Key, string)>, key: Key, v: Option<int>)
    requires WideNumber(v) && Lookup(a, key) == Number(v)
    ensures LookupI64(a, key) == v
  {
    if v.Some? { ReadWideNumber(v.value); }
  }
}
