// Round trips of the leaf encodings: node identifiers, integer arrays and properties.

module SceneCodec {
  import opened Text
  import opened SceneModel

  // ---------- sorted listings ----------

  lemma {:induction false} SubsetSize<T>(a: set<T>, b: set<T>)
    requires a <= b
    ensures |a| <= |b|
    ensures |a| == |b| ==> a == b
  {
    if a != {} {
      var x :| x in a;
      SubsetSize(a - {x}, b - {x});
    }
  }

  lemma {:induction false} ListedSize<T>(ks: seq<T>)
    requires forall i, j :: 0 <= i < j < |ks| ==> ks[i] != ks[j]
    ensures |set k | k in ks| == |ks|
  {
    if ks == [] {
      assert (set k | k in ks) == {};
    } else {
      var n := |ks| - 1;
      ListedSize(ks[..n]);
      assert (set k | k in ks) == (set k | k in ks[..n]) + {ks[n]};
    }
  }

  lemma ListsAll<K, V>(ks: seq<K>, m: map<K, V>, k: K)
    requires Lists(ks, m)
    ensures k in m <==> k in ks
  {
    ListedSize(ks);
    SubsetSize((set x | x in ks), m.Keys);
  }

  // A weakly sorted listing of distinct numbers below its length is the identity.
  lemma {:induction false} SortedDense(ranks: seq<int>, i: nat)
    requires i < |ranks|
    requires forall j :: 0 <= j < |ranks| ==> 0 <= ranks[j] < |ranks|
    requires forall j, k :: 0 <= j < k < |ranks| ==> ranks[j] < ranks[k]
    ensures ranks[i] == i
  {
    LowerBound(ranks, i);
    UpperBound(ranks, i);
  }

  lemma {:induction false} LowerBound(ranks: seq<int>, i: nat)
    requires i < |ranks|
    requires forall j :: 0 <= j < |ranks| ==> 0 <= ranks[j]
    requires forall j, k :: 0 <= j < k < |ranks| ==> ranks[j] < ranks[k]
    ensures i <= ranks[i]
  {
    if i > 0 { LowerBound(ranks, i - 1); }
  }

  lemma {:induction false} UpperBound(ranks: seq<int>, i: nat)
    requires i < |ranks|
    requires forall j :: 0 <= j < |ranks| ==> ranks[j] < |ranks|
    requires forall j, k :: 0 <= j < k < |ranks| ==> ranks[j] < ranks[k]
    ensures ranks[i] <= i
    decreases |ranks| - i
  {
    if i + 1 < |ranks| { UpperBound(ranks, i + 1); }
  }

  // ---------- properties ----------

  // Printing the properties in their order and reading them back renumbers them the same way.
  lemma ReadPrintedProperties(m: Properties, pairs: seq<(string, string)>)
    requires DenseOrders(m) && PrintsProperties(m, pairs)
    ensures ReadProperties(pairs) == m
  {
    PrintedOrders(m, pairs);
    ReadPrefix(m, pairs, |pairs|);
    assert pairs[..|pairs|] == pairs;
    forall k | k in m ensures k in ReadProperties(pairs) { PrintedKey(m, pairs, k); }
  }

  lemma PrintedOrders(m: Properties, pairs: seq<(string, string)>)
    requires DenseOrders(m) && PrintsProperties(m, pairs)
    ensures forall i :: 0 <= i < |pairs| ==> m[pairs[i].0] == Property(pairs[i].1, i)
  {
    var ranks := seq(|pairs|, i requires 0 <= i < |pairs| => m[pairs[i].0].order);
    forall i | 0 <= i < |pairs| ensures m[pairs[i].0].order == i {
      assert ranks[i] == m[pairs[i].0].order;
      SortedDense(ranks, i);
    }
  }

  lemma PrintedKey(m: Properties, pairs: seq<(string, string)>, k: string)
    requires PrintsProperties(m, pairs) && k in m
    ensures exists i :: 0 <= i < |pairs| && pairs[i].0 == k
  {
    var ks := seq(|pairs|, i requires 0 <= i < |pairs| => pairs[i].0);
    assert Lists(ks, m);
    ListsAll(ks, m, k);
    var i :| 0 <= i < |ks| && ks[i] == k;
    assert pairs[i].0 == k;
  }

  lemma {:induction false} ReadPrefix(m: Properties, pairs: seq<(string, string)>, n: nat)
    requires n <= |pairs|
    requires forall i, j :: 0 <= i < j < |pairs| ==> pairs[i].0 != pairs[j].0
    requires forall i :: 0 <= i < |pairs| ==> pairs[i].0 in m && m[pairs[i].0] == Property(pairs[i].1, i)
    ensures forall k :: k in ReadProperties(pairs[..n]) <==> exists i :: 0 <= i < n && pairs[i].0 == k
    ensures forall k :: k in ReadProperties(pairs[..n]) ==> k in m && ReadProperties(pairs[..n])[k] == m[k]
  {
    if n > 0 {
      ReadPrefix(m, pairs, n - 1);
      assert pairs[..n][..n - 1] == pairs[..n - 1];
    }
  }

  // ---------- integer arrays ----------

  predicate AllI32(ids: seq<int>) { forall i :: 0 <= i < |ids| ==> IsI32(ids[i]) }

  predicate NoSpaceEnds(s: string) { s != [] && !IsSpace(s[0]) && !IsSpace(s[|s| - 1]) }

  lemma TrimNothing(s: string)
    requires NoSpaceEnds(s)
    ensures Trim(s) == s && Trim(" " + s) == s
  {
  }

  lemma ReadPrintedElement(n: int)
    requires IsI32(n)
    ensures ReadElement(PrintInt(n)) == n && ReadElement(" " + PrintInt(n)) == n
  {
    PrintReadInt(n);
    PrintedChars(n);
    var s := PrintInt(n);
    assert s[0] == s[0] && s[|s| - 1] == s[|s| - 1];
    TrimNothing(s);
  }

  lemma ReadSplitFirst(first: string, n: int, rest: string)
    requires Lacks(first, ',') && ReadElement(first) == n
    ensures ReadElements(Split(first + [','] + rest, ',')) == [n] + ReadElements(Split(rest, ','))
  {
    SplitFirst(first, ',', rest);
  }

  // The text of one element, as it stands after the opening parenthesis or after a comma.
  predicate ElementText(text: string, n: int)
  {
    && Lacks(text, ',') && Lacks(" " + text, ',')
    && ReadElement(text) == n && ReadElement(" " + text) == n
  }

  lemma JoinFirst(first: string, parts: seq<string>)
    requires |parts| > 1 && parts[0] == first
    ensures Join(parts, ", ") == first + [','] + (" " + Join(parts[1..], ", "))
    ensures " " + Join(parts, ", ") == (" " + first) + [','] + (" " + Join(parts[1..], ", "))
  {
    assert ", " == [','] + " ";
    assert Join(parts, ", ") == first + [','] + (" " + Join(parts[1..], ", "));
  }

  lemma {:induction false} SplitElements(parts: seq<string>, ids: seq<int>)
    requires parts != [] && |parts| == |ids|
    requires forall i :: 0 <= i < |parts| ==> ElementText(parts[i], ids[i])
    ensures ReadElements(Split(Join(parts, ", "), ',')) == ids
    ensures ReadElements(Split(" " + Join(parts, ", "), ',')) == ids
  {
    var first := parts[0];
    assert ElementText(first, ids[0]);
    if |parts| == 1 {
      SplitWhole(first, ',');
      SplitWhole(" " + first, ',');
    } else {
      var rest := " " + Join(parts[1..], ", ");
      SplitElements(parts[1..], ids[1..]);
      JoinFirst(first, parts);
      ReadSplitFirst(first, ids[0], rest);
      ReadSplitFirst(" " + first, ids[0], rest);
      assert [ids[0]] + ids[1..] == ids;
    }
  }

  lemma PrintedElement(n: int)
    requires IsI32(n)
    ensures ElementText(PrintInt(n), n)
  {
    ReadPrintedElement(n);
    PrintedChars(n);
  }

  lemma {:induction false} JoinedEnds(ids: seq<int>)
    requires ids != []
    ensures NoSpaceEnds(Join(PrintNumbers(ids), ", "))
  {
    PrintedChars(ids[0]);
    var first := PrintInt(ids[0]);
    assert !IsSpace(first[0]) && !IsSpace(first[|first| - 1]);
    if |ids| > 1 {
      assert PrintNumbers(ids)[1..] == PrintNumbers(ids[1..]);
      JoinedEnds(ids[1..]);
    }
  }

  lemma ReadArrayText(body: string)
    ensures ReadArray(ARRAY_PREFIX + body + ")") == Some(ReadElements(Split(Trim(body), ',')))
  {
  }

  // An array of 32-bit integers survives printing and parsing exactly when it is not empty:
  // the empty array comes back as the one-element array [0].
  lemma ArrayRoundTrip(ids: seq<int>)
    requires AllI32(ids)
    ensures ReadArray(PrintArray(ids)) == Some(ids) <==> ids != []
    ensures ReadArray(PrintArray([])) == Some([0])
  {
    assert PrintNumbers([]) == [];
    assert PrintArray([]) == ARRAY_PREFIX + "" + ")";
    ReadArrayText("");
    assert ReadElements([""]) == [0];
    if ids != [] {
      var parts := PrintNumbers(ids);
      forall i | 0 <= i < |ids| ensures ElementText(parts[i], ids[i]) { PrintedElement(ids[i]); }
      SplitElements(parts, ids);
      JoinedEnds(ids);
      var body := Join(parts, ", ");
      TrimNothing(body);
      ReadArrayText(body);
    }
  }

  // ---------- node identifiers ----------

  lemma {:induction false} ReadPrintedNumbers(ns: seq<int>)
    requires AllI32(ns)
    ensures ReadNumbers(PrintNumbers(ns)) == Some(ns)
  {
    if ns == [] {
      assert PrintNumbers(ns) == [];
    } else {
      PrintReadInt(ns[0]);
      assert PrintNumbers(ns)[1..] == PrintNumbers(ns[1..]);
      ReadPrintedNumbers(ns[1..]);
      assert [ns[0]] + ns[1..] == ns;
    }
  }

  predicate NonNegative(ns: seq<int>) { forall i :: 0 <= i < |ns| ==> 0 <= ns[i] }

  lemma ReadPrintedId(n: NodeId)
    requires AllI32(IdNumbers(n)) && NonNegative(IdNumbers(n))
    ensures ReadNumbers(Split(PrintNodeId(n), '-')) == Some(IdNumbers(n))
  {
    var ns := IdNumbers(n);
    forall i | 0 <= i < |ns| ensures Lacks(PrintNumbers(ns)[i], '-') { PrintedChars(ns[i]); }
    SplitJoin(PrintNumbers(ns), '-');
    ReadPrintedNumbers(ns);
  }

  // An empty part makes the whole identifier unreadable.
  lemma {:induction false} EmptyPart(parts: seq<string>, i: nat)
    requires i < |parts| && parts[i] == ""
    ensures ReadNumbers(parts) == None
  {
    if i > 0 { EmptyPart(parts[1..], i - 1); }
  }

  // A negative number puts two separators side by side, so splitting yields an empty part.
  lemma {:induction false} NegativeSplits(ns: seq<int>, i: nat)
    requires i < |ns| && ns[i] < 0
    ensures exists j :: 0 <= j < |Split(Join(PrintNumbers(ns), "-"), '-')| && Split(Join(PrintNumbers(ns), "-"), '-')[j] == ""
  {
    var text := Join(PrintNumbers(ns), "-");
    var first := PrintInt(ns[0]);
    assert PrintNumbers(ns)[1..] == PrintNumbers(ns[1..]);
    if ns[0] < 0 {
      assert first[0] == '-';
      assert text[0] == '-';
      assert Split(text, '-')[0] == "";
    } else {
      PrintedChars(ns[0]);
      var rest := Join(PrintNumbers(ns[1..]), "-");
      assert text == first + ['-'] + rest;
      SplitFirst(first, '-', rest);
      NegativeSplits(ns[1..], i - 1);
      var j :| 0 <= j < |Split(rest, '-')| && Split(rest, '-')[j] == "";
      assert Split(text, '-')[j + 1] == "";
    }
  }

  // The map key of a node can be read back exactly when no number in it is negative and the
  // instance path, if there is one, is not empty.
  lemma NodeIdRoundTrip(n: NodeId)
    requires AllI32(IdNumbers(n))
    ensures ReadNodeId(PrintNodeId(n)) == Some(n) <==> NonNegative(IdNumbers(n)) && n.rootInstance != Some([])
  {
    var ns := IdNumbers(n);
    if NonNegative(ns) {
      ReadPrintedId(n);
      if n.rootInstance.Some? {
        assert ns[1..] == n.rootInstance.value;
      }
    } else {
      var i :| 0 <= i < |ns| && ns[i] < 0;
      NegativeSplits(ns, i);
      var parts := Split(PrintNodeId(n), '-');
      var j :| 0 <= j < |parts| && parts[j] == "";
      EmptyPart(parts, j);
    }
  }
}
