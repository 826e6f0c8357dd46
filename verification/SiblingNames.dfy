// hydrate_nodes: renaming siblings that a merge gave the same name, so that node paths stay
// distinct. Nodes are handled in whatever order the hash map yields them.

module SiblingNames {
  import opened Text
  import opened SceneModel
  import opened SceneTree

  const U64_MAX := 0xffff_ffff_ffff_ffff

  // ---------- numbered names ----------

  // A name without its trailing digits.
  function Head(name: string): (h: string)
    ensures |h| <= |name| && name[..|h|] == h
    ensures h != "" ==> !IsDigit(h[|h| - 1])
    ensures AllDigits(name[|h|..])
  {
    if name != "" && IsDigit(name[|name| - 1]) then
      var h := Head(name[..|name| - 1]);
      assert name[|h|..] == name[..|name| - 1][|h|..] + [name[|name| - 1]];
      h
    else name
  }

  function Tail(name: string): (t: string)
    ensures AllDigits(t)
  {
    name[|Head(name)|..]
  }

  // The pattern's dot does not match a line break, so only what follows the last one is kept.
  function AfterNewline(s: string): string
  {
    if s == "" || s[|s| - 1] == '\n' then "" else AfterNewline(s[..|s| - 1]) + [s[|s| - 1]]
  }

  function Stem(name: string): string { AfterNewline(Head(name)) }

  function Number(name: string): nat { Value(Tail(name)) }

  // None: the number does not fit 64 bits, and the source panics.
  function NextName(name: string): Option<string>
  {
    if Tail(name) == "" then Some(name + "1")
    else if Number(name) + 1 > U64_MAX then None
    else Some(Stem(name) + Digits(Number(name) + 1))
  }

  lemma {:induction false} HeadAppend(s: string, digits: string)
    requires AllDigits(digits)
    ensures Head(s + digits) == Head(s)
  {
    if digits == "" {
      assert s + digits == s;
    } else {
      HeadAppend(s, digits[..|digits| - 1]);
      assert (s + digits)[..|s + digits| - 1] == s + digits[..|digits| - 1];
    }
  }

  lemma {:induction false} AfterNewlineTwice(s: string)
    ensures AfterNewline(AfterNewline(s)) == AfterNewline(s)
    ensures AfterNewline(s) != "" ==> s != "" && AfterNewline(s)[|AfterNewline(s)| - 1] == s[|s| - 1]
  {
    if s != "" && s[|s| - 1] != '\n' {
      AfterNewlineTwice(s[..|s| - 1]);
      var r := AfterNewline(s);
      assert r[..|r| - 1] == AfterNewline(s[..|s| - 1]);
    }
  }

  // The next name has the same stem and the following number.
  lemma NextNumber(name: string)
    ensures match NextName(name)
            case None => U64_MAX < Number(name) + 1
            case Some(n) => Stem(n) == Stem(name) && Number(n) == Number(name) + 1
  {
    if Tail(name) == "" {
      assert Head(name) == name;
      HeadAppend(name, "1");
      assert Tail(name + "1") == "1";
      assert Value("1") == 1 by { assert "1"[..0] == ""; }
    } else if Number(name) + 1 <= U64_MAX {
      var stem, digits := Stem(name), Digits(Number(name) + 1);
      DigitsValue(Number(name) + 1);
      AfterNewlineTwice(Head(name));
      HeadAppend(stem, digits);
      assert Head(stem) == stem;
      assert Tail(stem + digits) == digits;
    }
  }

  // ---------- finding a free name ----------

  // The taken names the search may still run into.
  function Ahead(name: string, taken: set<string>): set<string>
  {
    set x | x in taken && Stem(x) == Stem(name) && Number(name) <= Number(x)
  }

  lemma AheadShrinks(name: string, next: string, taken: set<string>)
    requires name in taken && NextName(name) == Some(next)
    ensures Ahead(next, taken) < Ahead(name, taken)
  {
    NextNumber(name);
    assert name in Ahead(name, taken) && name !in Ahead(next, taken);
  }

  function Settle(name: string, taken: set<string>): Option<string>
    decreases Ahead(name, taken)
  {
    if name !in taken then Some(name)
    else
      match NextName(name)
      case None => None
      case Some(next) => AheadShrinks(name, next, taken); Settle(next, taken)
  }

  // The name settled on is free, keeps its stem, and only skips names that are taken.
  lemma {:induction false} SettleFinds(name: string, taken: set<string>)
    ensures var r := Settle(name, taken);
      && (r.Some? ==> r.value !in taken && Stem(r.value) == Stem(name) && Number(name) <= Number(r.value))
      && (r.Some? && r.value != name ==> name in taken && exists x :: x in taken && Number(r.value) == Number(x) + 1)
      && (r.None? ==> exists x :: x in taken && Number(x) >= U64_MAX)
    decreases Ahead(name, taken)
  {
    if name in taken && NextName(name).Some? {
      NextNumber(name);
      var next := NextName(name).value;
      AheadShrinks(name, next, taken);
      SettleFinds(next, taken);
    } else {
      NextNumber(name);
    }
  }

  // The sequence of names the search goes through: the name, then its stem with the following
  // numbers, written without leading zeros. A name without a number gets 1 behind it as it is.
  function Numbered(name: string, i: nat): string
  {
    if i == 0 then name else if i == 1 && Tail(name) == "" then name + "1" else Stem(name) + Digits(Number(name) + i)
  }

  lemma NumberedIs(name: string, i: nat)
    ensures Number(Numbered(name, i)) == Number(name) + i && Stem(Numbered(name, i)) == Stem(name)
    ensures i > 0 ==> Tail(Numbered(name, i)) != ""
  {
    if i == 1 && Tail(name) == "" {
      NextNumber(name);
      NameTail(name + "1", "1", name);
    } else if i > 0 {
      NumberedTail(name, Number(name) + i);
    }
  }

  lemma NameTail(whole: string, digits: string, front: string)
    requires whole == front + digits && AllDigits(digits) && Tail(front) == ""
    ensures Tail(whole) == digits
  {
    assert Head(front) == front;
    HeadAppend(front, digits);
  }

  lemma NumberedTail(name: string, n: nat)
    ensures var r := Stem(name) + Digits(n); Tail(r) == Digits(n) && Number(r) == n && Stem(r) == Stem(name) && Digits(n) != ""
  {
    DigitsValue(n);
    AfterNewlineTwice(Head(name));
    HeadAppend(Stem(name), Digits(n));
    assert Head(Stem(name)) == Stem(name);
  }

  lemma NumberedNext(name: string, i: nat)
    ensures NextName(Numbered(name, i)) == if Number(name) + i + 1 > U64_MAX then None else Some(Numbered(name, i + 1))
  {
    NumberedIs(name, i);
    if i == 0 && Tail(name) == "" { assert Number(name) == 0; }
  }

  // The `n`-th name is the first free one from the `i`-th on.
  predicate FirstFree(names: nat -> string, taken: set<string>, i: nat, n: nat)
  {
    i <= n && names(n) !in taken && forall j: nat :: i <= j < n ==> names(j) in taken
  }

  // All names from the `i`-th to the `last` are taken.
  predicate AllTaken(names: nat -> string, taken: set<string>, i: nat, last: nat)
  {
    forall j: nat :: i <= j <= last ==> names(j) in taken
  }

  // `names` are what the search goes through, and the `last` has none after it.
  ghost predicate Leads(names: nat -> string, last: nat)
  {
    forall j: nat :: j <= last ==> LeadsOn(names, last, j)
  }

  predicate LeadsOn(names: nat -> string, last: nat, j: nat)
  {
    NextName(names(j)) == if j < last then Some(names(j + 1)) else None
  }

  lemma {:induction false} SettlesAlong(names: nat -> string, last: nat, taken: set<string>, i: nat) returns (n: nat)
    requires Leads(names, last) && i <= last
    ensures match Settle(names(i), taken)
            case Some(r) => FirstFree(names, taken, i, n) && r == names(n) && n <= last
            case None => AllTaken(names, taken, i, last)
    decreases last - i
  {
    n := i;
    assert LeadsOn(names, last, i);
    if names(i) in taken && NextName(names(i)).Some? { n := SettlesAlong(names, last, taken, i + 1); }
  }

  function Last(name: string): nat { if Number(name) < U64_MAX then U64_MAX - Number(name) else 0 }

  function Names(name: string): nat -> string { (i: nat) => Numbered(name, i) }

  lemma NamesLead(name: string)
    ensures Leads(Names(name), Last(name))
  {
    forall j: nat | j <= Last(name) ensures LeadsOn(Names(name), Last(name), j) { NumberedNext(name, j); }
  }

  // What the search comes to, along the names it goes through.
  ghost predicate FirstOf(names: nat -> string, last: nat, taken: set<string>, r: Option<string>)
  {
    match r
    case Some(name) => exists n: nat :: n <= last && FirstFree(names, taken, 0, n) && name == names(n)
    case None => AllTaken(names, taken, 0, last)
  }

  lemma SettlesOn(names: nat -> string, last: nat, taken: set<string>)
    requires Leads(names, last)
    ensures FirstOf(names, last, taken, Settle(names(0), taken))
  {
    var n := SettlesAlong(names, last, taken, 0);
  }

  // The search ends at the first name of the sequence that is free, unless all of them up to the
  // largest number are taken.
  lemma SettlesFirst(name: string, taken: set<string>)
    ensures FirstOf(Names(name), Last(name), taken, Settle(name, taken))
  {
    NamesLead(name);
    SettlesOn(Names(name), Last(name), taken);
  }

  // ---------- one node, and all of them ----------

  type Nodes = map<NodeId, Node>

  predicate Rivals(a: Node, b: Node) { a.fallback == b.fallback }

  // The names of the other listed children that share the fallback of `id`.
  function Taken(nodes: Nodes, kids: seq<NodeId>, id: NodeId): set<string>
    requires id in nodes
  {
    set c | c in kids && c != id && c in nodes && Rivals(nodes[c], nodes[id]) :: nodes[c].name
  }

  function Rename(nodes: Nodes, id: NodeId, name: string): Nodes
    requires id in nodes
  {
    nodes[id := nodes[id].(name := name)]
  }

  // The child list a node is compared against; none when its parent is unknown.
  function Kids(nodes: Nodes, id: NodeId): seq<NodeId>
    requires id in nodes
  {
    match nodes[id].parent
    case None => []
    case Some(p) => if p in nodes then nodes[p].children else []
  }

  function RenameOne(nodes: Nodes, id: NodeId): Option<Nodes>
    requires id in nodes
  {
    match Settle(nodes[id].name, Taken(nodes, Kids(nodes, id), id))
    case None => None
    case Some(name) => Some(Rename(nodes, id, name))
  }

  // The same nodes up to their names.
  ghost predicate SameButNames(a: Nodes, b: Nodes)
  {
    a.Keys == b.Keys && forall k :: k in a ==> b[k] == a[k].(name := b[k].name)
  }

  // None: some number overflowed.
  function RenameAll(nodes: Nodes, order: seq<NodeId>): (r: Option<Nodes>)
    requires forall k :: k in order ==> k in nodes
    ensures r.Some? ==> SameButNames(nodes, r.value)
  {
    if order == [] then Some(nodes)
    else
      match RenameAll(nodes, order[..|order| - 1])
      case None => None
      case Some(done) => RenameOne(done, order[|order| - 1])
  }

  lemma {:induction false} RenameAllFails(nodes: Nodes, order: seq<NodeId>, n: nat)
    requires forall k :: k in order ==> k in nodes
    requires n <= |order| && RenameAll(nodes, order[..n]).None?
    ensures RenameAll(nodes, order).None?
    decreases |order|
  {
    if n < |order| {
      assert order[..|order| - 1][..n] == order[..n];
      RenameAllFails(nodes, order[..|order| - 1], n);
    } else {
      assert order[..n] == order;
    }
  }

  // ---------- the program ----------

  method FindClash(nodes: Nodes, kids: seq<NodeId>, id: NodeId) returns (found: bool)
    requires id in nodes
    ensures found <==> nodes[id].name in Taken(nodes, kids, id)
  {
    for i := 0 to |kids|
      invariant forall j :: 0 <= j < i && kids[j] != id && kids[j] in nodes && Rivals(nodes[kids[j]], nodes[id]) ==>
        nodes[kids[j]].name != nodes[id].name
    {
      var child := kids[i];
      if child == id || child !in nodes { continue; }
      if nodes[child].name != nodes[id].name { continue; }
      if nodes[child].fallback != nodes[id].fallback { continue; }
      assert nodes[child].name in Taken(nodes, kids, id);
      return true;
    }
    return false;
  }

  method SettleName(before: Nodes, kids: seq<NodeId>, id: NodeId) returns (r: Option<Nodes>)
    requires id in before
    ensures var name := Settle(before[id].name, Taken(before, kids, id));
      r == if name.None? then None else Some(Rename(before, id, name.value))
  {
    var nodes := before;
    ghost var taken := Taken(before, kids, id);
    var found := true;
    while found
      invariant id in nodes && nodes == Rename(before, id, nodes[id].name)
      invariant Settle(nodes[id].name, taken) == Settle(before[id].name, taken)
      invariant !found ==> nodes[id].name !in taken
      decreases Ahead(nodes[id].name, taken), found
    {
      TakenIgnoresOwn(before, kids, id, nodes[id].name);
      found := FindClash(nodes, kids, id);
      if found {
        var next := NextName(nodes[id].name);
        if next.None? { return None; }
        AheadShrinks(nodes[id].name, next.value, taken);
        nodes := Rename(nodes, id, next.value);
      }
    }
    r := Some(nodes);
  }

  lemma TakenIgnoresOwn(nodes: Nodes, kids: seq<NodeId>, id: NodeId, name: string)
    requires id in nodes
    ensures Taken(Rename(nodes, id, name), kids, id) == Taken(nodes, kids, id)
  {
  }

  method HydrateNode(nodes: Nodes, id: NodeId) returns (r: Option<Nodes>)
    requires id in nodes
    ensures r == RenameOne(nodes, id)
  {
    var parent := nodes[id].parent;
    if parent.None? || parent.value !in nodes {
      NoRivals(nodes, id);
      return Some(nodes);
    }
    r := SettleName(nodes, nodes[parent.value].children, id);
  }

  // `order` lists the keys handled so far, `rest` the others.
  ghost predicate Handled(start: Nodes, order: seq<NodeId>, rest: set<NodeId>)
  {
    && rest <= start.Keys && (forall k :: k in order <==> k in start.Keys - rest)
    && |order| + |rest| == |start|
    && (forall i, j :: 0 <= i < j < |order| ==> order[i] != order[j])
  }

  lemma HandledNext(start: Nodes, order: seq<NodeId>, rest: set<NodeId>, id: NodeId)
    requires Handled(start, order, rest) && id in rest
    ensures Handled(start, order + [id], rest - {id})
    ensures (order + [id])[..|order|] == order
  {
    forall k ensures k in order + [id] <==> k in start.Keys - (rest - {id}) {
      assert k in order + [id] <==> k in order || k == id;
    }
    forall i | 0 <= i < |order| ensures order[i] != id { assert order[i] in order; }
  }

  // What some order of visiting the nodes leads to.
  ghost predicate Outcome(start: Nodes, order: seq<NodeId>, r: Option<Nodes>)
  {
    Handled(start, order, {}) && r == RenameAll(start, order)
  }

  // The pass over all nodes. When no number overflows, siblings end up with distinct names and
  // nothing but names has changed.
  method HydrateNodes(start: Nodes) returns (r: Option<Nodes>)
    ensures exists order :: Outcome(start, order, r)
    ensures r.Some? ==> NamesDistinct(r.value) && SameButNames(start, r.value)
  {
    var nodes, rest := start, start.Keys;
    ghost var order: seq<NodeId> := [];
    while rest != {}
      invariant Handled(start, order, rest)
      invariant RenameAll(start, order) == Some(nodes)
      decreases rest
    {
      var id :| id in rest;
      HandledNext(start, order, rest, id);
      rest := rest - {id};
      order := order + [id];
      var settled := HydrateNode(nodes, id);
      if settled.None? {
        order := FailsWhole(start, order, rest);
        assert Outcome(start, order, None);
        return None;
      }
      nodes := settled.value;
    }
    PassSeparates(start, order);
    assert Outcome(start, order, Some(nodes));
    r := Some(nodes);
  }

  lemma NoRivals(nodes: Nodes, id: NodeId)
    requires id in nodes && Kids(nodes, id) == []
    ensures RenameOne(nodes, id) == Some(nodes)
  {
    var taken := Taken(nodes, Kids(nodes, id), id);
    assert taken == {};
    assert Settle(nodes[id].name, taken) == Some(nodes[id].name);
    assert Rename(nodes, id, nodes[id].name) == nodes;
  }

  lemma {:induction false} ListRest(start: Nodes, order: seq<NodeId>, rest: set<NodeId>) returns (all: seq<NodeId>)
    requires Handled(start, order, rest)
    ensures Handled(start, all, {}) && order <= all
    decreases rest
  {
    if rest == {} {
      all := order;
    } else {
      var k :| k in rest;
      HandledNext(start, order, rest, k);
      all := ListRest(start, order + [k], rest - {k});
      assert all[..|order|] == (order + [k])[..|order|];
    }
  }

  lemma FailsWhole(start: Nodes, order: seq<NodeId>, rest: set<NodeId>) returns (all: seq<NodeId>)
    requires Handled(start, order, rest) && RenameAll(start, order).None?
    ensures Handled(start, all, {}) && RenameAll(start, all).None?
  {
    all := ListRest(start, order, rest);
    assert all[..|order|] == order;
    RenameAllFails(start, all, |order|);
  }

  // ---------- what the pass achieves ----------

  // Listed children of the same parent that share their fallback.
  predicate Siblings(nodes: Nodes, a: NodeId, b: NodeId)
  {
    && a in nodes && b in nodes && a != b
    && a in Kids(nodes, a) && b in Kids(nodes, a)
    && nodes[a].parent == nodes[b].parent
    && nodes[a].fallback == nodes[b].fallback
  }

  ghost predicate NamesDistinct(nodes: Nodes)
  {
    forall a, b :: Siblings(nodes, a, b) ==> nodes[a].name != nodes[b].name
  }

  lemma SiblingsStay(start: Nodes, nodes: Nodes, a: NodeId, b: NodeId)
    requires SameButNames(start, nodes) && Siblings(start, a, b)
    ensures Siblings(nodes, a, b)
  {
  }

  // The node handled last gets a name no sibling has; the other names stay.
  lemma SettledApart(nodes: Nodes, id: NodeId, other: NodeId)
    requires Siblings(nodes, id, other) && RenameOne(nodes, id).Some?
    ensures var r := RenameOne(nodes, id).value; id in r && other in r && r[id].name != r[other].name
  {
    SettleFinds(nodes[id].name, Taken(nodes, Kids(nodes, id), id));
    assert nodes[other].name in Taken(nodes, Kids(nodes, id), id);
  }

  lemma OthersStay(nodes: Nodes, id: NodeId, k: NodeId)
    requires id in nodes && k in nodes && k != id && RenameOne(nodes, id).Some?
    ensures var r := RenameOne(nodes, id).value; k in r && r[k].name == nodes[k].name
  {
  }

  lemma LastApart(start: Nodes, done: Nodes, id: NodeId, a: NodeId, b: NodeId)
    requires SameButNames(start, done) && Siblings(start, a, b) && id in done && RenameOne(done, id).Some?
    requires id != a && id != b ==> done[a].name != done[b].name
    ensures var r := RenameOne(done, id).value; a in r && b in r && r[a].name != r[b].name
  {
    SiblingsStay(start, done, a, b);
    if id == a {
      SettledApart(done, a, b);
    } else if id == b {
      SettledApart(done, b, a);
    } else {
      OthersStay(done, id, a);
      OthersStay(done, id, b);
    }
  }

  lemma InFront(order: seq<NodeId>, k: NodeId)
    requires k in order && k != order[|order| - 1]
    ensures k in order[..|order| - 1]
  {
    var i :| 0 <= i < |order| && order[i] == k;
    assert order[..|order| - 1][i] == k;
  }

  lemma {:induction false} DistinctAmong(start: Nodes, order: seq<NodeId>, a: NodeId, b: NodeId)
    requires forall k :: k in order ==> k in start
    requires Siblings(start, a, b) && a in order && b in order && RenameAll(start, order).Some?
    ensures RenameAll(start, order).value[a].name != RenameAll(start, order).value[b].name
  {
    var front, id := order[..|order| - 1], order[|order| - 1];
    if id != a && id != b {
      InFront(order, a);
      InFront(order, b);
      DistinctAmong(start, front, a, b);
    }
    LastApart(start, RenameAll(start, front).value, id, a, b);
  }

  // In whatever order the nodes are handled, afterwards no two children of a parent share
  // both name and fallback; nothing but names has changed.
  lemma PassSeparates(start: Nodes, order: seq<NodeId>)
    requires Handled(start, order, {}) && RenameAll(start, order).Some?
    ensures NamesDistinct(RenameAll(start, order).value)
    ensures SameButNames(start, RenameAll(start, order).value)
  {
    var r := RenameAll(start, order).value;
    forall a, b | Siblings(r, a, b) ensures r[a].name != r[b].name {
      assert Siblings(start, a, b);
      DistinctAmong(start, order, a, b);
    }
  }

  // Child lists and parent links agree.
  ghost predicate Consistent(nodes: Nodes)
  {
    forall p, c :: p in nodes && c in nodes ==> (c in nodes[p].children <==> nodes[c].parent == Some(p))
  }

  lemma {:induction false} DistinctUntouched(nodes: Nodes, order: seq<NodeId>)
    requires Consistent(nodes) && NamesDistinct(nodes) && forall k :: k in order ==> k in nodes
    ensures RenameAll(nodes, order) == Some(nodes)
  {
    if order != [] {
      DistinctUntouched(nodes, order[..|order| - 1]);
      UntouchedOne(nodes, order[|order| - 1]);
    }
  }

  lemma UntouchedOne(nodes: Nodes, id: NodeId)
    requires Consistent(nodes) && NamesDistinct(nodes) && id in nodes
    ensures RenameOne(nodes, id) == Some(nodes)
  {
    var taken := Taken(nodes, Kids(nodes, id), id);
    if nodes[id].name in taken {
      var c :| c in Kids(nodes, id) && c != id && c in nodes && Rivals(nodes[c], nodes[id]) && nodes[c].name == nodes[id].name;
      assert Siblings(nodes, id, c);
    }
    assert Settle(nodes[id].name, taken) == Some(nodes[id].name);
    assert Rename(nodes, id, nodes[id].name) == nodes;
  }

  // A second pass, in any other order, changes nothing.
  lemma SecondPassIdentity(start: Nodes, order: seq<NodeId>, again: seq<NodeId>)
    requires Consistent(start) && Handled(start, order, {}) && Handled(start, again, {})
    requires RenameAll(start, order).Some?
    ensures RenameAll(RenameAll(start, order).value, again) == RenameAll(start, order)
  {
    PassSeparates(start, order);
    DistinctUntouched(RenameAll(start, order).value, again);
  }

  // Numbers stay below a bound that grows by one for each node handled.
  lemma {:induction false} NumbersBounded(start: Nodes, order: seq<NodeId>, bound: nat)
    requires forall k :: k in order ==> k in start
    requires forall k :: k in start ==> Number(start[k].name) <= bound
    requires bound + |order| <= U64_MAX
    ensures var r := RenameAll(start, order);
      r.Some? && forall k :: k in start ==> Number(r.value[k].name) <= bound + |order|
  {
    if order != [] {
      var front, id := order[..|order| - 1], order[|order| - 1];
      NumbersBounded(start, front, bound);
      var done := RenameAll(start, front).value;
      var taken := Taken(done, Kids(done, id), id);
      forall x | x in taken ensures Number(x) <= bound + |front| { }
      SettleFinds(done[id].name, taken);
    }
  }

  // The pass only overflows when some name already ends in an astronomic number.
  lemma NoOverflow(start: Nodes, order: seq<NodeId>)
    requires Handled(start, order, {})
    requires forall k :: k in start ==> Number(start[k].name) <= U64_MAX - |start|
    requires |start| <= U64_MAX
    ensures RenameAll(start, order).Some?
  {
    NumbersBounded(start, order, U64_MAX - |start|);
  }

  // ---------- and what it does not ----------

  // Under the root a typed node (no fallback) and an edited node (fallback ".") are printed
  // under the same path, but the pass does not compare them.
  ghost predicate MixedClash(t: Tree)
    requires Linked(t)
  {
    exists a, b :: RootTwins(t, a, b)
  }

  ghost predicate RootTwins(t: Tree, a: NodeId, b: NodeId)
    requires Linked(t)
  {
    && a in t.nodes && b in t.nodes && a != t.root && b != t.root && a != b
    && Parent(t, a) == t.root == Parent(t, b)
    && t.nodes[a].name == t.nodes[b].name && t.nodes[a].fallback != t.nodes[b].fallback
  }

  // After the pass siblings are printed under distinct paths exactly when no such pair is left.
  lemma PathsSeparated(t: Tree)
    requires Linked(t) && NamesDistinct(t.nodes)
    requires forall k :: k in t.nodes && k != t.root ==> PlacedOk(t, k)
    ensures SiblingsOk(t) <==> !MixedClash(t)
  {
    forall a, b | a in t.nodes && b in t.nodes && a != t.root && b != t.root && a != b
      && Parent(t, a) == Parent(t, b) && ParentName(t, a) == ParentName(t, b) && t.nodes[a].name == t.nodes[b].name
      ensures RootTwins(t, a, b)
    {
      assert PlacedOk(t, a) && PlacedOk(t, b);
      RecordedPath(t, Parent(t, a));
      assert t.nodes[a].parent == Some(Parent(t, a)) && t.nodes[b].parent == Some(Parent(t, b));
      assert t.nodes[a].fallback == t.nodes[b].fallback ==> Siblings(t.nodes, a, b);
    }
    forall a, b | RootTwins(t, a, b) ensures !SiblingsOk(t) {
      assert ParentName(t, a) == "." == ParentName(t, b);
    }
  }
}
