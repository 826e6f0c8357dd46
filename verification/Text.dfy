// Strings as the scene format and the history URLs use them: decimal numbers,
// separated lists and slash paths.

module Text {
  datatype Option<+T> = None | Some(value: T)

  const I32_MIN := -0x8000_0000
  const I32_MAX := 0x7fff_ffff
  const I64_MIN := -0x8000_0000_0000_0000
  const I64_MAX := 0x7fff_ffff_ffff_ffff

  predicate IsI32(n: int) { I32_MIN <= n <= I32_MAX }

  predicate IsI64(n: int) { I64_MIN <= n <= I64_MAX }

  // ---------- decimal numbers ----------

  predicate IsDigit(c: char) { '0' <= c <= '9' }

  predicate AllDigits(s: string) { forall i :: 0 <= i < |s| ==> IsDigit(s[i]) }

  function Digits(n: nat): string
  {
    if n < 10 then ['0' + n as char] else Digits(n / 10) + ['0' + (n % 10) as char]
  }

  // The number a run of digits denotes; leading zeros are allowed.
  function Value(s: string): nat
    requires AllDigits(s)
  {
    if s == [] then 0 else 10 * Value(s[..|s| - 1]) + (s[|s| - 1] - '0') as nat
  }

  function PrintInt(n: int): string
  {
    if n < 0 then "-" + Digits(-n) else Digits(n)
  }

  // Rust's signed integer parsing before the range check: an optional sign and at least one digit.
  function ReadInt(s: string): Option<int>
  {
    if s != [] && s[0] == '-' then
      if |s| > 1 && AllDigits(s[1..]) then Some(-(Value(s[1..]) as int)) else None
    else if s != [] && s[0] == '+' then
      if |s| > 1 && AllDigits(s[1..]) then Some(Value(s[1..])) else None
    else
      if s != [] && AllDigits(s) then Some(Value(s)) else None
  }

  function ParseI32(s: string): Option<int>
  {
    var r := ReadInt(s);
    if r.Some? && IsI32(r.value) then r else None
  }

  function ParseI64(s: string): Option<int>
  {
    var r := ReadInt(s);
    if r.Some? && IsI64(r.value) then r else None
  }

  lemma {:induction false} DigitsValue(n: nat)
    ensures Digits(n) != [] && AllDigits(Digits(n)) && Value(Digits(n)) == n
  {
    if n >= 10 {
      DigitsValue(n / 10);
      var s := Digits(n);
      assert s[..|s| - 1] == Digits(n / 10);
    } else {
      var s := Digits(n);
      assert s[..|s| - 1] == [];
    }
  }

  // Printing a number and parsing it back gives the number.
  lemma PrintReadInt(n: int)
    ensures ReadInt(PrintInt(n)) == Some(n)
  {
    if n < 0 {
      var digits := Digits(-n);
      DigitsValue(-n);
      assert ("-" + digits)[1..] == digits;
      ReadSigned(digits);
    } else {
      DigitsValue(n);
      ReadUnsigned(Digits(n));
    }
  }

  lemma ReadSigned(digits: string)
    requires digits != [] && AllDigits(digits)
    ensures ReadInt("-" + digits) == Some(-(Value(digits) as int))
  {
  }

  lemma ReadUnsigned(digits: string)
    requires digits != [] && AllDigits(digits)
    ensures ReadInt(digits) == Some(Value(digits))
  {
  }

  lemma PrintedChars(n: int)
    ensures PrintInt(n) != []
    ensures forall i :: 0 <= i < |PrintInt(n)| ==> IsDigit(PrintInt(n)[i]) || PrintInt(n)[i] == '-'
    ensures n >= 0 ==> AllDigits(PrintInt(n))
  {
    if n < 0 { DigitsValue(-n); } else { DigitsValue(n); }
  }

  // ---------- separated lists ----------

  predicate Lacks(s: string, c: char) { forall i :: 0 <= i < |s| ==> s[i] != c }

  function Join(parts: seq<string>, separator: string): string
  {
    if parts == [] then "" else if |parts| == 1 then parts[0] else parts[0] + separator + Join(parts[1..], separator)
  }

  // Rust's str::split on one character: always at least one part.
  function Split(s: string, c: char): (parts: seq<string>)
    ensures parts != []
  {
    if s == [] then [""]
    else if s[0] == c then [""] + Split(s[1..], c)
    else
      var rest := Split(s[1..], c);
      [[s[0]] + rest[0]] + rest[1..]
  }

  lemma {:induction false} SplitWhole(s: string, c: char)
    requires Lacks(s, c)
    ensures Split(s, c) == [s]
  {
    if s != [] {
      SplitWhole(s[1..], c);
      assert [s[0]] + s[1..] == s;
    }
  }

  lemma {:induction false} SplitFirst(a: string, c: char, b: string)
    requires Lacks(a, c)
    ensures Split(a + [c] + b, c) == [a] + Split(b, c)
  {
    var s := a + [c] + b;
    if a == [] {
      assert s[1..] == b;
    } else {
      SplitFirst(a[1..], c, b);
      assert s[1..] == a[1..] + [c] + b;
      assert [a[0]] + a[1..] == a;
    }
  }

  lemma {:induction false} SplitJoin(parts: seq<string>, c: char)
    requires parts != []
    requires forall i :: 0 <= i < |parts| ==> Lacks(parts[i], c)
    ensures Split(Join(parts, [c]), c) == parts
  {
    if |parts| == 1 {
      SplitWhole(parts[0], c);
    } else {
      SplitJoin(parts[1..], c);
      SplitFirst(parts[0], c, Join(parts[1..], [c]));
      assert parts == [parts[0]] + parts[1..];
    }
  }

  // ---------- trimming ----------

  // The Unicode property White_Space.
  predicate IsSpace(c: char)
  {
    var n := c as int;
    || 0x9 <= n <= 0xd || n == 0x20 || n == 0x85 || n == 0xa0 || n == 0x1680
    || 0x2000 <= n <= 0x200a || n == 0x2028 || n == 0x2029 || n == 0x202f || n == 0x205f || n == 0x3000
  }

  function TrimStart(s: string): string
  {
    if s != [] && IsSpace(s[0]) then TrimStart(s[1..]) else s
  }

  function TrimEnd(s: string): string
  {
    if s != [] && IsSpace(s[|s| - 1]) then TrimEnd(s[..|s| - 1]) else s
  }

  function Trim(s: string): string { TrimEnd(TrimStart(s)) }

  // ---------- quotes ----------

  function Quote(s: string): string { "\"" + s + "\"" }

  predicate IsQuoted(s: string) { |s| >= 2 && s[0] == '"' && s[|s| - 1] == '"' }

  // A lone quote makes the source slice 1..0 and panic; the grammar never captures one.
  function Unquote(s: string): string
    requires s != "\""
  {
    if s != [] && s[0] == '"' && s[|s| - 1] == '"' then s[1..|s| - 1] else s
  }

  lemma UnquoteQuote(s: string)
    ensures Quote(s) != "\"" && Unquote(Quote(s)) == s
  {
  }

  // ---------- slash paths ----------

  // Drops the last path element: the part before the last slash, or nothing when there is none.
  function Pop(path: string): (parent: string)
    ensures path != [] ==> |parent| < |path|
  {
    if path == [] then []
    else if path[|path| - 1] == '/' then path[..|path| - 1]
    else
      var rest := Pop(path[..|path| - 1]);
      rest
  }

  lemma {:induction false} PopName(name: string)
    requires Lacks(name, '/')
    ensures Pop(name) == ""
  {
    if name != [] { PopName(name[..|name| - 1]); }
  }

  lemma {:induction false} PopChild(parent: string, name: string)
    requires Lacks(name, '/')
    ensures Pop(parent + "/" + name) == parent
  {
    var path := parent + "/" + name;
    if name == [] {
      assert path[..|path| - 1] == parent;
    } else {
      PopChild(parent, name[..|name| - 1]);
      assert path[..|path| - 1] == parent + "/" + name[..|name| - 1];
    }
  }
}
