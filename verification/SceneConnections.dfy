// The keys connections are kept under: texts with dashes between them, which tell connections
// apart as long as the texts have no dashes of their own.

module SceneConnections {
  import opened Text
  import opened SceneModel
  import opened SceneTree
  import opened SceneLinks
  import opened SceneVerdict

  function NumberText(n: Option<int>): string
  {
    match n case None => "" case Some(i) => PrintInt(i)
  }

  function BindsText(c: Connection): string
  {
    match c.binds case None => "[]" case Some(b) => b
  }

  // Signal and method without dashes, and only nodes outside instanced scenes.
  predicate Dashless(c: Connection)
  {
    && Lacks(c.signal, '-') && Lacks(c.callee, '-')
    && c.from.rootInstance == None && c.from.id >= 0 && c.to.rootInstance == None && c.to.id >= 0
    && (c.flags.Some? ==> c.flags.value >= 0) && (c.unbinds.Some? ==> c.unbinds.value >= 0)
  }

  // What a key is made of, up to the bound arguments.
  function KeyParts(c: Connection): seq<string>
  {
    [c.signal, PrintInt(c.from.id), PrintInt(c.to.id), c.callee, NumberText(c.flags), NumberText(c.unbinds)]
  }

  function WithDashes(parts: seq<string>, rest: string): string
  {
    if parts == [] then rest else parts[0] + ['-'] + WithDashes(parts[1..], rest)
  }

  lemma PlainId(k: NodeId)
    requires k.rootInstance == None
    ensures PrintNodeId(k) == PrintInt(k.id)
  {
    assert IdNumbers(k) == [k.id];
  }

  // The same text, put together from the left.
  function FromLeft(front: string, parts: seq<string>, rest: string): string
    decreases |parts|
  {
    if parts == [] then front + rest else FromLeft(front + parts[0] + "-", parts[1..], rest)
  }

  lemma {:induction false} FromLeftIs(front: string, parts: seq<string>, rest: string)
    ensures FromLeft(front, parts, rest) == front + WithDashes(parts, rest)
    decreases |parts|
  {
    if parts != [] {
      FromLeftIs(front + parts[0] + "-", parts[1..], rest);
      Regroup(front, parts[0], WithDashes(parts[1..], rest));
    }
  }

  lemma Regroup(a: string, b: string, c: string)
    ensures (a + b + "-") + c == a + (b + ['-'] + c)
  {
  }

  lemma FromLeftThree(front: string, a: string, b: string, c: string, parts: seq<string>, rest: string)
    ensures FromLeft(front, [a, b, c] + parts, rest) == FromLeft(front + a + "-" + b + "-" + c + "-", parts, rest)
  {
    assert ([a, b, c] + parts)[1..] == [b, c] + parts && ([b, c] + parts)[1..] == [c] + parts && ([c] + parts)[1..] == parts;
    assert FromLeft(front + a + "-", [b, c] + parts, rest) == FromLeft(front + a + "-" + b + "-", [c] + parts, rest);
  }

  lemma FromLeftSix(a: string, b: string, c: string, d: string, e: string, f: string, rest: string)
    ensures FromLeft("", [a, b, c, d, e, f], rest) == a + "-" + b + "-" + c + "-" + d + "-" + e + "-" + f + "-" + rest
  {
    assert "" + a == a;
    assert [a, b, c] + [d, e, f] == [a, b, c, d, e, f] && [d, e, f] + [] == [d, e, f];
    FromLeftThree("", a, b, c, [d, e, f], rest);
    FromLeftThree(a + "-" + b + "-" + c + "-", d, e, f, [], rest);
  }

  lemma KeyOf(c: Connection)
    requires c.from.rootInstance == None && c.to.rootInstance == None
    ensures ConnectionId(c) == WithDashes(KeyParts(c), BindsText(c))
  {
    PlainId(c.from);
    PlainId(c.to);
    FromLeftSix(c.signal, PrintInt(c.from.id), PrintInt(c.to.id), c.callee, NumberText(c.flags), NumberText(c.unbinds), BindsText(c));
    FromLeftIs("", KeyParts(c), BindsText(c));
  }

  // Parts without dashes can be read off again, and so can the rest.
  lemma {:induction false} PartsFound(a: seq<string>, b: seq<string>, x: string, y: string)
    requires |a| == |b| && WithDashes(a, x) == WithDashes(b, y)
    requires forall i :: 0 <= i < |a| ==> Lacks(a[i], '-') && Lacks(b[i], '-')
    ensures a == b && x == y
  {
    if a != [] {
      var s, t := WithDashes(a[1..], x), WithDashes(b[1..], y);
      SplitFirst(a[0], '-', s);
      SplitFirst(b[0], '-', t);
      assert ([a[0]] + Split(s, '-'))[0] == ([b[0]] + Split(t, '-'))[0];
      assert (a[0] + ['-'] + s)[|a[0]| + 1..] == s && (b[0] + ['-'] + t)[|b[0]| + 1..] == t;
      PartsFound(a[1..], b[1..], x, y);
      assert a == [a[0]] + a[1..] && b == [b[0]] + b[1..];
    }
  }

  lemma NumberLacks(n: int)
    requires n >= 0
    ensures Lacks(PrintInt(n), '-') && PrintInt(n) != ""
  {
    PrintedChars(n);
  }

  lemma PartsDashless(c: Connection)
    requires Dashless(c)
    ensures forall i :: 0 <= i < 6 ==> Lacks(KeyParts(c)[i], '-')
  {
    NumberLacks(c.from.id);
    NumberLacks(c.to.id);
    if c.flags.Some? { NumberLacks(c.flags.value); }
    if c.unbinds.Some? { NumberLacks(c.unbinds.value); }
  }

  lemma NumberTextInjective(a: Option<int>, b: Option<int>)
    requires (a.Some? ==> a.value >= 0) && (b.Some? ==> b.value >= 0) && NumberText(a) == NumberText(b)
    ensures a == b
  {
    if a.Some? { NumberLacks(a.value); PrintReadInt(a.value); }
    if b.Some? { NumberLacks(b.value); PrintReadInt(b.value); }
  }

  // Without such dashes the key tells connections apart by everything but the uid paths.
  lemma KeyTellsApart(c: Connection, d: Connection)
    requires Dashless(c) && Dashless(d)
    ensures ConnectionId(c) == ConnectionId(d) <==>
      && c.signal == d.signal && c.from == d.from && c.to == d.to && c.callee == d.callee
      && c.flags == d.flags && c.unbinds == d.unbinds && BindsText(c) == BindsText(d)
  {
    KeyOf(c);
    KeyOf(d);
    if ConnectionId(c) == ConnectionId(d) {
      PartsDashless(c);
      PartsDashless(d);
      var p, q := KeyParts(c), KeyParts(d);
      PartsFound(p, q, BindsText(c), BindsText(d));
      assert p[0] == q[0] && p[1] == q[1] && p[2] == q[2] && p[3] == q[3] && p[4] == q[4] && p[5] == q[5];
      NumberTextInjective(Some(c.from.id), Some(d.from.id));
      NumberTextInjective(Some(c.to.id), Some(d.to.id));
      NumberTextInjective(c.flags, d.flags);
      NumberTextInjective(c.unbinds, d.unbinds);
    }
  }

  // ---------- connections that share a key ----------

  predicate SharesKey(paths: map<string, NodeId>, raws: seq<RawConnection>, i: nat, j: nat)
  {
    && i < |raws| && j < |raws| && Known(paths, raws[i]) && Known(paths, raws[j])
    && ConnectionId(Made(paths, raws[i])) == ConnectionId(Made(paths, raws[j]))
  }

  ghost predicate AllKept(paths: map<string, NodeId>, raws: seq<RawConnection>, m: map<string, Connection>)
  {
    forall i :: 0 <= i < |raws| && Known(paths, raws[i]) ==> Made(paths, raws[i]) in m.Values
  }

  // No connection of a text is lost exactly when those with one key are the same.
  lemma KeptExactly(paths: map<string, NodeId>, raws: seq<RawConnection>)
    requires ResolveAll(paths, raws).Ok?
    ensures AllKept(paths, raws, ResolveAll(paths, raws).value)
      <==> forall i: nat, j: nat :: SharesKey(paths, raws, i, j) ==> Made(paths, raws[i]) == Made(paths, raws[j])
  {
    ConnectionsExactly(paths, raws);
    var m := ResolveAll(paths, raws).value;
    forall i: nat | i < |raws| && Known(paths, raws[i])
      ensures var key := ConnectionId(Made(paths, raws[i]));
        key in m && (Made(paths, raws[i]) in m.Values <==> m[key] == Made(paths, raws[i])) {
      KeptAt(paths, raws, m, i);
    }
    if forall i: nat, j: nat :: SharesKey(paths, raws, i, j) ==> Made(paths, raws[i]) == Made(paths, raws[j]) {
      forall i: nat | i < |raws| && Known(paths, raws[i]) ensures Made(paths, raws[i]) in m.Values {
        var key := ConnectionId(Made(paths, raws[i]));
        assert KeptUnder(paths, raws, m, key);
        var j: nat :| LastMade(paths, raws, j, key, m[key]);
        assert SharesKey(paths, raws, i, j);
      }
    }
  }

  lemma KeptAt(paths: map<string, NodeId>, raws: seq<RawConnection>, m: map<string, Connection>, i: nat)
    requires i < |raws| && Known(paths, raws[i]) && forall key :: KeptUnder(paths, raws, m, key)
    ensures var key := ConnectionId(Made(paths, raws[i]));
      key in m && (Made(paths, raws[i]) in m.Values <==> m[key] == Made(paths, raws[i]))
  {
    var c := Made(paths, raws[i]);
    assert KeptUnder(paths, raws, m, ConnectionId(c));
    if c in m.Values {
      var key :| key in m && m[key] == c;
      assert KeptUnder(paths, raws, m, key);
    }
  }

  function Plainly(from: NodeId, to: NodeId): Connection
  {
    Connection("s", from, to, "m", None, None, None, None, None)
  }

  // From node 5 inside instance 2 to node 3, and from node 5 to node 2 inside instance 3: the key
  // of both is s-5-2-3-m---[].
  lemma OneKeyForTwo()
    ensures var c, d := Plainly(NodeId(5, Some([2])), NodeId(3, None)), Plainly(NodeId(5, None), NodeId(2, Some([3])));
      c != d && ConnectionId(c) == ConnectionId(d)
  {
    assert PrintNumbers([5, 2]) == [PrintInt(5), PrintInt(2)] && PrintNumbers([2, 3]) == [PrintInt(2), PrintInt(3)];
    assert IdNumbers(NodeId(5, Some([2]))) == [5, 2] && IdNumbers(NodeId(2, Some([3]))) == [2, 3];
    JoinTwo(PrintInt(5), PrintInt(2));
    JoinTwo(PrintInt(2), PrintInt(3));
    PlainId(NodeId(3, None));
    PlainId(NodeId(5, None));
  }

  lemma JoinTwo(a: string, b: string)
    ensures Join([a, b], "-") == a + "-" + b
  {
    assert [a, b][1..] == [b];
  }

  // So of these two connections of a text the first is lost.
  lemma FirstLost(paths: map<string, NodeId>, a: RawConnection, b: RawConnection)
    requires a.from in paths && a.to in paths && b.from in paths && b.to in paths
    requires paths[a.from] == NodeId(5, Some([2])) && paths[a.to] == NodeId(3, None)
    requires paths[b.from] == NodeId(5, None) && paths[b.to] == NodeId(2, Some([3]))
    requires a.connection == b.connection == Plainly(UNASSIGNED, UNASSIGNED)
    ensures ResolveAll(paths, [a, b]).Ok? && !AllKept(paths, [a, b], ResolveAll(paths, [a, b]).value)
  {
    OneKeyForTwo();
    ConnectionsExactly(paths, [a, b]);
    KeptExactly(paths, [a, b]);
    assert SharesKey(paths, [a, b], 0, 1);
  }
}
