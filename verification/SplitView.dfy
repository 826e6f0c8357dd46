// The split view of a text diff: pairing deleted with added lines, row by row.

module SplitView {
  import opened Text

  // A line of the unified diff; a missing line number is -1.
  datatype Line = Line(oldNo: int, newNo: int, content: string, status: string)

  datatype Row = Row(oldNo: int, newNo: int, oldText: string, newText: string, status: string)

  predicate Equal(l: Line) { l.oldNo >= 0 && l.newNo >= 0 }

  predicate Deleted(l: Line) { l.oldNo >= 0 && l.newNo == -1 }

  predicate AddedLine(l: Line) { l.oldNo == -1 && l.newNo >= 0 }

  // A line of a diff is equal, deleted or added.
  predicate DiffLine(l: Line) { Equal(l) || Deleted(l) || AddedLine(l) }

  // ---------- specification ----------

  // The number of rows before the trailing ones that still lack a new line.
  function Settled(rows: seq<Row>): (n: nat)
    ensures n <= |rows|
    ensures n > 0 ==> rows[n - 1].newNo != -1
    ensures forall i :: n <= i < |rows| ==> rows[i].newNo == -1
  {
    if rows == [] || rows[|rows| - 1].newNo != -1 then |rows| else Settled(rows[..|rows| - 1])
  }

  function AddLine(rows: seq<Row>, l: Line): seq<Row>
  {
    var text := TrimEnd(l.content);
    if l.newNo >= 0 && l.oldNo >= 0 then rows + [Row(l.oldNo, l.newNo, text, text, l.status)]
    else if l.newNo == -1 then rows + [Row(l.oldNo, -1, text, "", l.status)]
    else if l.oldNo == -1 then
      var n := Settled(rows);
      if n == |rows| then rows + [Row(-1, l.newNo, "", text, l.status)]
      else rows[n := rows[n].(newText := text, newNo := l.newNo)]
    else rows
  }

  function Rows(lines: seq<Line>): seq<Row>
  {
    if lines == [] then [] else AddLine(Rows(lines[..|lines| - 1]), lines[|lines| - 1])
  }

  // ---------- the program ----------

  // Scans back over the rows that still lack a new line.
  method LastPaired(rows: seq<Row>) returns (j: int)
    ensures j + 1 == Settled(rows)
  {
    j := |rows| - 1;
    assert rows[..|rows|] == rows;
    while j >= 0 && rows[j].newNo == -1
      invariant -1 <= j < |rows|
      invariant Settled(rows) == Settled(rows[..j + 1])
    {
      assert rows[..j + 1][..j] == rows[..j];
      j := j - 1;
    }
  }

  method SplitRows(lines: seq<Line>) returns (rows: seq<Row>)
    ensures rows == Rows(lines)
  {
    rows := [];
    for i := 0 to |lines|
      invariant rows == Rows(lines[..i])
    {
      assert lines[..i + 1][..i] == lines[..i];
      var l := lines[i];
      var text := TrimEnd(l.content);
      if l.newNo >= 0 && l.oldNo >= 0 {
        rows := rows + [Row(l.oldNo, l.newNo, text, text, l.status)];
      } else if l.newNo == -1 {
        rows := rows + [Row(l.oldNo, -1, text, "", l.status)];
      } else if l.oldNo == -1 {
        var j := LastPaired(rows);
        if j == |rows| - 1 {
          rows := rows + [Row(-1, l.newNo, "", text, l.status)];
        } else {
          rows := rows[j + 1 := rows[j + 1].(newText := text, newNo := l.newNo)];
        }
      }
    }
    assert lines[..|lines|] == lines;
  }

  // ---------- nothing is lost ----------

  function OldColumn(rows: seq<Row>): seq<(int, string)>
  {
    if rows == [] then []
    else
      var last := rows[|rows| - 1];
      OldColumn(rows[..|rows| - 1]) + if last.oldNo == -1 then [] else [(last.oldNo, last.oldText)]
  }

  function NewColumn(rows: seq<Row>): seq<(int, string)>
  {
    if rows == [] then []
    else
      var last := rows[|rows| - 1];
      NewColumn(rows[..|rows| - 1]) + if last.newNo == -1 then [] else [(last.newNo, last.newText)]
  }

  function OldLines(lines: seq<Line>): seq<(int, string)>
  {
    if lines == [] then []
    else
      var last := lines[|lines| - 1];
      OldLines(lines[..|lines| - 1]) + if last.oldNo == -1 then [] else [(last.oldNo, TrimEnd(last.content))]
  }

  function NewLines(lines: seq<Line>): seq<(int, string)>
  {
    if lines == [] then []
    else
      var last := lines[|lines| - 1];
      NewLines(lines[..|lines| - 1]) + if last.newNo == -1 then [] else [(last.newNo, TrimEnd(last.content))]
  }

  // Filling in the first row of the trailing deleted ones appends to the new column only.
  lemma {:induction false} FilledColumns(rows: seq<Row>, n: nat, no: int, text: string)
    requires n < |rows| && no != -1 && forall i :: n <= i < |rows| ==> rows[i].newNo == -1
    ensures var filled := rows[n := rows[n].(newText := text, newNo := no)];
      OldColumn(filled) == OldColumn(rows) && NewColumn(filled) == NewColumn(rows) + [(no, text)]
  {
    var filled := rows[n := rows[n].(newText := text, newNo := no)];
    var front := rows[..|rows| - 1];
    if n == |rows| - 1 {
      assert filled[..|rows| - 1] == front;
    } else {
      FilledColumns(front, n, no, text);
      assert filled[..|rows| - 1] == front[n := front[n].(newText := text, newNo := no)];
    }
  }

  lemma {:induction false} AddLineColumns(rows: seq<Row>, l: Line)
    requires DiffLine(l)
    ensures OldColumn(AddLine(rows, l)) == OldColumn(rows) + if l.oldNo == -1 then [] else [(l.oldNo, TrimEnd(l.content))]
    ensures NewColumn(AddLine(rows, l)) == NewColumn(rows) + if l.newNo == -1 then [] else [(l.newNo, TrimEnd(l.content))]
  {
    var after, n := AddLine(rows, l), Settled(rows);
    if AddedLine(l) && n < |rows| {
      FilledColumns(rows, n, l.newNo, TrimEnd(l.content));
    } else {
      assert after[..|after| - 1] == rows;
    }
  }

  // The old column of the rows is the old text of the diff, the new column its new text, line
  // by line and in order.
  lemma {:induction false} NothingLost(lines: seq<Line>)
    requires forall i :: 0 <= i < |lines| ==> DiffLine(lines[i])
    ensures OldColumn(Rows(lines)) == OldLines(lines) && NewColumn(Rows(lines)) == NewLines(lines)
  {
    if lines != [] {
      NothingLost(lines[..|lines| - 1]);
      AddLineColumns(Rows(lines[..|lines| - 1]), lines[|lines| - 1]);
    }
  }

  // ---------- pairing ----------

  predicate DeletedOnly(r: Row) { r.newNo == -1 }

  predicate AddedOnly(r: Row) { r.oldNo == -1 }

  predicate WellPaired(rows: seq<Row>)
  {
    && (forall i :: 0 <= i < |rows| - 1 ==> !(DeletedOnly(rows[i]) && AddedOnly(rows[i + 1])))
    && (forall i :: 0 <= i < |rows| ==> !(DeletedOnly(rows[i]) && AddedOnly(rows[i])))
  }

  // An added line never gets a row of its own below a deleted one.
  lemma {:induction false} NoSplitPair(lines: seq<Line>)
    requires forall i :: 0 <= i < |lines| ==> DiffLine(lines[i])
    ensures WellPaired(Rows(lines))
  {
    if lines != [] {
      NoSplitPair(lines[..|lines| - 1]);
      var rows, l := Rows(lines[..|lines| - 1]), lines[|lines| - 1];
      assert DiffLine(l);
    }
  }

  function PairedRow(dels: seq<Line>, adds: seq<Line>, i: nat): Row
    requires i < |dels| || i < |adds|
  {
    if i >= |dels| then Row(-1, adds[i].newNo, "", TrimEnd(adds[i].content), adds[i].status)
    else if i >= |adds| then Row(dels[i].oldNo, -1, TrimEnd(dels[i].content), "", dels[i].status)
    else Row(dels[i].oldNo, adds[i].newNo, TrimEnd(dels[i].content), TrimEnd(adds[i].content), dels[i].status)
  }

  function BlockSize(dels: seq<Line>, adds: seq<Line>): nat
  {
    if |dels| > |adds| then |dels| else |adds|
  }

  // `all` continues `rows` with a block that pairs the i-th deletion with the i-th addition.
  ghost predicate PairedBlock(rows: seq<Row>, all: seq<Row>, dels: seq<Line>, adds: seq<Line>)
  {
    && |all| == |rows| + BlockSize(dels, adds)
    && (forall k :: 0 <= k < |rows| ==> all[k] == rows[k])
    && (forall i :: 0 <= i < BlockSize(dels, adds) ==> all[|rows| + i] == PairedRow(dels, adds, i))
  }

  lemma SettledAt(rows: seq<Row>, n: nat)
    requires n <= |rows| && (n > 0 ==> rows[n - 1].newNo != -1) && forall i :: n <= i < |rows| ==> rows[i].newNo == -1
    ensures Settled(rows) == n
  {
  }

  lemma GrowAt(dels: seq<Line>, adds: seq<Line>, l: Line, more: seq<Line>, i: nat)
    requires more == adds + [l] && i < BlockSize(dels, more)
    ensures i != |adds| ==> i < BlockSize(dels, adds) && PairedRow(dels, more, i) == PairedRow(dels, adds, i)
    ensures i == |adds| && i < |dels| ==>
      PairedRow(dels, more, i) == PairedRow(dels, adds, i).(newText := TrimEnd(l.content), newNo := l.newNo)
    ensures i == |adds| && i >= |dels| ==> PairedRow(dels, more, i) == Row(-1, l.newNo, "", TrimEnd(l.content), l.status)
  {
  }

  lemma {:induction false} BlockSettled(rows: seq<Row>, done: seq<Row>, dels: seq<Line>, adds: seq<Line>)
    requires Settled(rows) == |rows| && PairedBlock(rows, done, dels, adds)
    requires (forall i :: 0 <= i < |dels| ==> Deleted(dels[i])) && (forall i :: 0 <= i < |adds| ==> AddedLine(adds[i]))
    ensures Settled(done) == |rows| + |adds|
  {
    var n := |rows| + |adds|;
    if |adds| > 0 {
      var i := |adds| - 1;
      assert done[|rows| + i] == PairedRow(dels, adds, i);
    }
    forall k | n <= k < |done| ensures done[k].newNo == -1 {
      var i := k - |rows|;
      assert done[|rows| + i] == PairedRow(dels, adds, i);
    }
    SettledAt(done, n);
  }

  lemma {:induction false} AddToBlock(rows: seq<Row>, done: seq<Row>, dels: seq<Line>, adds: seq<Line>, l: Line, after: seq<Row>, more: seq<Line>)
    requires Settled(done) == |rows| + |adds| && AddedLine(l) && PairedBlock(rows, done, dels, adds)
    requires after == AddLine(done, l) && more == adds + [l]
    ensures PairedBlock(rows, after, dels, more)
  {
    forall i | 0 <= i < BlockSize(dels, more) ensures after[|rows| + i] == PairedRow(dels, more, i) {
      GrowAt(dels, adds, l, more, i);
      if i < BlockSize(dels, adds) { assert done[|rows| + i] == PairedRow(dels, adds, i); }
    }
  }

  lemma {:induction false} DeleteToBlock(rows: seq<Row>, done: seq<Row>, dels: seq<Line>, l: Line, after: seq<Row>, more: seq<Line>)
    requires Deleted(l) && PairedBlock(rows, done, dels, [])
    requires after == AddLine(done, l) && more == dels + [l]
    ensures PairedBlock(rows, after, more, [])
  {
    forall i | 0 <= i < BlockSize(more, []) ensures after[|rows| + i] == PairedRow(more, [], i) {
      if i < |dels| { assert done[|rows| + i] == PairedRow(dels, [], i); }
    }
  }

  lemma RestOfAdded(before: seq<Line>, dels: seq<Line>, adds: seq<Line>, all: seq<Line>)
    requires all == before + dels + adds && adds != []
    ensures all[..|all| - 1] == before + dels + adds[..|adds| - 1] && all[|all| - 1] == adds[|adds| - 1]
  {
  }

  lemma {:induction false} RestOfDeleted(before: seq<Line>, dels: seq<Line>, all: seq<Line>)
    requires all == before + dels + [] && dels != []
    ensures all[..|all| - 1] == before + dels[..|dels| - 1] + [] && all[|all| - 1] == dels[|dels| - 1]
  {
  }

  lemma RowsLast(lines: seq<Line>)
    requires lines != []
    ensures Rows(lines) == AddLine(Rows(lines[..|lines| - 1]), lines[|lines| - 1])
  {
  }

  // A block of deletions and additions below a settled row becomes rows that pair the i-th
  // deletion with the i-th addition.
  lemma {:induction false} BlockPaired(before: seq<Line>, dels: seq<Line>, adds: seq<Line>, all: seq<Line>)
    requires Settled(Rows(before)) == |Rows(before)| && all == before + dels + adds
    requires (forall i :: 0 <= i < |dels| ==> Deleted(dels[i])) && (forall i :: 0 <= i < |adds| ==> AddedLine(adds[i]))
    ensures PairedBlock(Rows(before), Rows(all), dels, adds)
    decreases |dels| + |adds|
  {
    if adds != [] {
      var front, rest := adds[..|adds| - 1], all[..|all| - 1];
      RestOfAdded(before, dels, adds, all);
      BlockPaired(before, dels, front, rest);
      RowsLast(all);
      AddedStep(Rows(before), Rows(rest), dels, adds, Rows(all));
    } else if dels != [] {
      var front, rest := dels[..|dels| - 1], all[..|all| - 1];
      RestOfDeleted(before, dels, all);
      BlockPaired(before, front, [], rest);
      RowsLast(all);
      DeleteToBlock(Rows(before), Rows(rest), front, dels[|dels| - 1], Rows(all), dels);
    } else {
      assert all == before;
    }
  }

  // Without the attribute Dafny adds an induction hypothesis that contradicts the requires.
  lemma {:induction false} AddedStep(rows: seq<Row>, done: seq<Row>, dels: seq<Line>, adds: seq<Line>, after: seq<Row>)
    requires Settled(rows) == |rows| && adds != [] && PairedBlock(rows, done, dels, adds[..|adds| - 1])
    requires (forall i :: 0 <= i < |dels| ==> Deleted(dels[i])) && (forall i :: 0 <= i < |adds| ==> AddedLine(adds[i]))
    requires after == AddLine(done, adds[|adds| - 1])
    ensures PairedBlock(rows, after, dels, adds)
  {
    var front := adds[..|adds| - 1];
    BlockSettled(rows, done, dels, front);
    AddToBlock(rows, done, dels, front, adds[|adds| - 1], after, adds);
  }

  // Between blocks: an unchanged line has a row of its own, with both numbers and its status.
  lemma UnchangedRow(before: seq<Line>, l: Line)
    requires Equal(l)
    ensures Rows(before + [l]) == Rows(before) + [Row(l.oldNo, l.newNo, TrimEnd(l.content), TrimEnd(l.content), l.status)]
    ensures Settled(Rows(before + [l])) == |Rows(before + [l])|
  {
    var lines := before + [l];
    assert lines[..|lines| - 1] == before && lines[|lines| - 1] == l;
    RowsLast(lines);
  }
}
