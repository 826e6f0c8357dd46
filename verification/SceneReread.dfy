// What the section loop of the parser makes of a printed text, without assuming that the text
// means the scene it was printed from.

module SceneReread {
  import opened Text
  import opened SceneModel
  import opened SceneLinks
  import opened SceneSections
  import opened SceneText
  import opened SceneRoundTrip

  // ---------- sections that were accepted ----------

  ghost predicate UnderstandsHeaders(step: Step)
  {
    forall p: Parsed, s: Section :: (s.kind == GdScene || s.kind == GdResource) && step(p, s).Ok? ==>
      Captured(s.attributes) && ReadHeader(s).Ok? && step(p, s).value == p.(meta := Some(ReadHeader(s).value))
  }

  ghost predicate UnderstandsExts(step: Step)
  {
    forall p: Parsed, s: Section :: s.kind == ExtResourceSection && step(p, s).Ok? ==>
      step(p, s).value == p.(ext := step(p, s).value.ext, extIdx := p.extIdx + 1)
  }

  ghost predicate UnderstandsSubs(step: Step)
  {
    forall p: Parsed, s: Section :: s.kind == SubResourceSection && step(p, s).Ok? ==>
      && Captured(s.attributes) && ReadSub(s, p.subIdx).Ok?
      && step(p, s).value == p.(sub := p.sub[ReadSub(s, p.subIdx).value.id := ReadSub(s, p.subIdx).value], subIdx := p.subIdx + 1)
  }

  ghost predicate UnderstandsMain(step: Step)
  {
    forall p: Parsed, s: Section :: s.kind == ResourceSection && step(p, s).Ok? && p.meta.Some? ==>
      step(p, s).value == p.(main := Some(SubResource("", p.meta.value.resourceType, ReadProperties(s.properties), 0)))
  }

  function NodeIn(s: Section): Option<Node>
  {
    if Captured(s.attributes) && ReadNode(s).Ok? then Some(ReadNode(s).value) else None
  }

  function ConnectionIn(s: Section): Option<RawConnection>
  {
    if Captured(s.attributes) && ReadConnection(s).Ok? then Some(ReadConnection(s).value) else None
  }

  // The proofs about groups run over any reader of single sections.
  ghost predicate UnderstandsNodes(step: Step, read: Section -> Option<Node>)
  {
    forall p: Parsed, s: Section :: s.kind == NodeSection && step(p, s).Ok? ==>
      read(s).Some? && step(p, s).value == AddNode(p, read(s).value)
  }

  ghost predicate UnderstandsConnections(step: Step, read: Section -> Option<RawConnection>)
  {
    forall p: Parsed, s: Section :: s.kind == ConnectionSection && step(p, s).Ok? ==>
      read(s).Some? && step(p, s).value == p.(connections := p.connections + [read(s).value])
  }

  ghost predicate UnderstandsEditables(step: Step)
  {
    forall p: Parsed, s: Section :: s.kind == EditableSection && step(p, s).Ok? ==>
      step(p, s).value == p.(editable := step(p, s).value.editable) && |step(p, s).value.editable| == |p.editable| + 1
  }

  ghost predicate Understands(step: Step)
  {
    UnderstandsHeaders(step) && UnderstandsExts(step) && UnderstandsSubs(step) && UnderstandsMain(step)
    && UnderstandsNodes(step, NodeIn) && UnderstandsConnections(step, ConnectionIn) && UnderstandsEditables(step)
  }

  lemma ReadSectionUnderstands()
    ensures Understands(ReadSection)
  {
    SectionsUnderstoodOne();
    SectionsUnderstoodTwo();
    SectionsUnderstoodThree();
  }

  lemma SectionsUnderstoodOne()
    ensures UnderstandsHeaders(ReadSection) && UnderstandsExts(ReadSection) && UnderstandsMain(ReadSection)
  {
  }

  lemma SectionsUnderstoodTwo()
    ensures UnderstandsSubs(ReadSection) && UnderstandsEditables(ReadSection)
  {
  }

  lemma SectionsUnderstoodThree()
    ensures UnderstandsNodes(ReadSection, NodeIn) && UnderstandsConnections(ReadSection, ConnectionIn)
  {
  }

  // ---------- groups of sections ----------

  lemma FoldSplit<S, A>(step: (S, A) -> Result<S>, s: S, a: seq<A>, b: seq<A>) returns (q: S)
    requires Fold(step, s, a + b).Ok?
    ensures Fold(step, s, a) == Ok(q) && Fold(step, q, b) == Fold(step, s, a + b)
  {
    assert (a + b)[..|a|] == a;
    if Fold(step, s, a).Err? { FoldFails(step, s, a + b, |a|); }
    q := Fold(step, s, a).value;
    FoldConcat(step, s, a, b, q);
  }

  predicate AllOf(ss: seq<Section>, kind: SectionKind) { forall i :: 0 <= i < |ss| ==> ss[i].kind == kind }

  lemma {:induction false} RereadExts(step: Step, p: Parsed, ss: seq<Section>, q: Parsed)
    requires UnderstandsExts(step) && AllOf(ss, ExtResourceSection) && Fold(step, p, ss) == Ok(q)
    ensures q == p.(ext := q.ext, extIdx := p.extIdx + |ss|)
  {
    if ss != [] { RereadExts(step, p, ss[..|ss| - 1], Fold(step, p, ss[..|ss| - 1]).value); }
  }

  // The identifier a resource section gives.
  function SubIdOf(s: Section): string
    requires Captured(s.attributes)
  {
    match LookupText(s.attributes, Id) case None => "" case Some(id) => id
  }

  // No later section gives the same identifier.
  predicate LastSub(ss: seq<Section>, i: int)
  {
    && 0 <= i < |ss| && Captured(ss[i].attributes)
    && forall j :: i < j < |ss| ==> Captured(ss[j].attributes) && SubIdOf(ss[j]) != SubIdOf(ss[i])
  }

  ghost predicate SubsRead(ss: seq<Section>, sub: map<string, SubResource>)
  {
    && (forall i :: 0 <= i < |ss| ==> Captured(ss[i].attributes))
    && (forall i :: LastSub(ss, i) ==> SubIdOf(ss[i]) in sub && sub[SubIdOf(ss[i])].properties == ReadProperties(ss[i].properties))
  }

  lemma {:induction false} RereadSubs(step: Step, p: Parsed, ss: seq<Section>, q: Parsed)
    requires UnderstandsSubs(step) && AllOf(ss, SubResourceSection) && Fold(step, p, ss) == Ok(q)
    ensures q == p.(sub := q.sub, subIdx := p.subIdx + |ss|) && SubsRead(ss, q.sub)
  {
    if ss != [] {
      var front, last := ss[..|ss| - 1], ss[|ss| - 1];
      var before := Fold(step, p, front).value;
      RereadSubs(step, p, front, before);
      SubUnderstood(step, before, last, q);
      SubsReadNext(front, before.sub, last, before.subIdx);
      assert front + [last] == ss;
    }
  }

  lemma SubUnderstood(step: Step, p: Parsed, s: Section, q: Parsed)
    requires UnderstandsSubs(step) && s.kind == SubResourceSection && step(p, s) == Ok(q)
    ensures Captured(s.attributes) && ReadSub(s, p.subIdx).Ok?
    ensures q == p.(sub := p.sub[ReadSub(s, p.subIdx).value.id := ReadSub(s, p.subIdx).value], subIdx := p.subIdx + 1)
  {
  }

  lemma SubsReadNext(front: seq<Section>, sub: map<string, SubResource>, last: Section, idx: int)
    requires SubsRead(front, sub) && Captured(last.attributes) && ReadSub(last, idx).Ok?
    ensures SubsRead(front + [last], sub[ReadSub(last, idx).value.id := ReadSub(last, idx).value])
  {
    var ss, after := front + [last], sub[ReadSub(last, idx).value.id := ReadSub(last, idx).value];
    forall i | LastSub(ss, i)
      ensures SubIdOf(ss[i]) in after && after[SubIdOf(ss[i])].properties == ReadProperties(ss[i].properties)
    {
      assert ss[|front|] == last;
      if i < |front| {
        assert LastSub(front, i) by { assert forall j :: 0 <= j < |front| ==> front[j] == ss[j]; }
      }
    }
  }

  type Reader = Section -> Option<Node>

  function NumberOf(read: Reader, s: Section): int
  {
    match read(s) case None => 0 case Some(n) => n.id.id
  }

  predicate Repeats(read: Reader, ss: seq<Section>, i: nat)
    requires i < |ss|
  {
    exists j :: 0 <= j < i && NumberOf(read, ss[j]) == NumberOf(read, ss[i])
  }

  // A typed node that repeats a number has lost it.
  predicate NodeFrom(read: Reader, ss: seq<Section>, i: nat, raw: Node)
    requires i < |ss|
  {
    read(ss[i]).Some? && raw == if Repeats(read, ss, i) && read(ss[i]).value.kind.Some? then read(ss[i]).value.(id := UNASSIGNED) else read(ss[i]).value
  }

  predicate NodesRead(read: Reader, ss: seq<Section>, raws: seq<Node>)
  {
    |raws| == |ss| && forall i :: 0 <= i < |ss| ==> NodeFrom(read, ss, i, raws[i])
  }

  ghost predicate Sees(read: Reader, ss: seq<Section>, seen: set<int>)
  {
    forall n :: n in seen <==> exists j :: 0 <= j < |ss| && NumberOf(read, ss[j]) == n
  }

  lemma {:induction false} RereadNodes(step: Step, read: Reader, p: Parsed, ss: seq<Section>, q: Parsed)
    requires UnderstandsNodes(step, read) && AllOf(ss, NodeSection) && Fold(step, p, ss) == Ok(q) && p.raws == [] && p.seen == {}
    ensures q == p.(raws := q.raws, seen := q.seen) && NodesRead(read, ss, q.raws) && Sees(read, ss, q.seen)
  {
    if ss != [] {
      var front, last := ss[..|ss| - 1], ss[|ss| - 1];
      var before := Fold(step, p, front).value;
      RereadNodes(step, read, p, front, before);
      assert step(before, last) == Ok(q) && last.kind == NodeSection;
      NodesReadNext(read, front, before, last);
      assert front + [last] == ss;
    }
  }

  lemma NodesReadNext(read: Reader, front: seq<Section>, p: Parsed, last: Section)
    requires NodesRead(read, front, p.raws) && read(last).Some? && Sees(read, front, p.seen)
    ensures var q, ss := AddNode(p, read(last).value), front + [last]; NodesRead(read, ss, q.raws) && Sees(read, ss, q.seen)
  {
    var q, ss := AddNode(p, read(last).value), front + [last];
    SeesNext(read, front, p.seen, last);
    forall i | 0 <= i < |ss| ensures NodeFrom(read, ss, i, q.raws[i]) {
      if i < |front| {
        assert NodeFrom(read, front, i, p.raws[i]);
        RepeatsPrefix(read, front, last, i);
      } else {
        RepeatsLast(read, front, p.seen, last);
      }
    }
  }

  lemma RepeatsPrefix(read: Reader, front: seq<Section>, last: Section, i: nat)
    requires i < |front|
    ensures Repeats(read, front + [last], i) <==> Repeats(read, front, i)
  {
    assert forall j :: 0 <= j <= i ==> (front + [last])[j] == front[j];
  }

  lemma RepeatsLast(read: Reader, front: seq<Section>, seen: set<int>, last: Section)
    requires Sees(read, front, seen)
    ensures Repeats(read, front + [last], |front|) <==> NumberOf(read, last) in seen
  {
    assert forall j :: 0 <= j < |front| ==> (front + [last])[j] == front[j];
  }

  lemma SeesNext(read: Reader, front: seq<Section>, seen: set<int>, last: Section)
    requires Sees(read, front, seen)
    ensures Sees(read, front + [last], seen + {NumberOf(read, last)})
  {
    var ss := front + [last];
    forall n ensures n in seen + {NumberOf(read, last)} <==> exists j :: 0 <= j < |ss| && NumberOf(read, ss[j]) == n {
      if n in seen {
        var j :| 0 <= j < |front| && NumberOf(read, front[j]) == n;
        assert ss[j] == front[j];
      }
      assert ss[|front|] == last;
    }
  }

  predicate ConnectionsRead(read: Section -> Option<RawConnection>, ss: seq<Section>, raws: seq<RawConnection>)
  {
    |raws| == |ss| && forall i :: 0 <= i < |ss| ==> read(ss[i]) == Some(raws[i])
  }

  lemma {:induction false} RereadConnections(step: Step, read: Section -> Option<RawConnection>, p: Parsed, ss: seq<Section>, q: Parsed)
    requires UnderstandsConnections(step, read) && AllOf(ss, ConnectionSection) && Fold(step, p, ss) == Ok(q) && p.connections == []
    ensures q == p.(connections := q.connections) && ConnectionsRead(read, ss, q.connections)
  {
    if ss != [] {
      var front, last := ss[..|ss| - 1], ss[|ss| - 1];
      var before := Fold(step, p, front).value;
      RereadConnections(step, read, p, front, before);
      assert step(before, last) == Ok(q) && last.kind == ConnectionSection;
      assert front + [last] == ss;
    }
  }

  lemma {:induction false} RereadEditables(step: Step, p: Parsed, ss: seq<Section>, q: Parsed)
    requires UnderstandsEditables(step) && AllOf(ss, EditableSection) && Fold(step, p, ss) == Ok(q)
    ensures q == p.(editable := q.editable) && |q.editable| == |p.editable| + |ss|
  {
    if ss != [] { RereadEditables(step, p, ss[..|ss| - 1], Fold(step, p, ss[..|ss| - 1]).value); }
  }
}
