// URLs that name a file at a point in history: printing and parsing of refs and ref paths.

module HistoryUrl {
  import opened Text

  // Branch ids and change hashes are printed and read by the document library (base58 and
  // hexadecimal); what is used of that is stated in CodecOk.
  datatype Codec = Codec(showBranch: nat -> string, readBranch: string -> Option<nat>, showHash: nat -> string, readHash: string -> Option<nat>)

  ghost predicate CodecOk(c: Codec)
  {
    && (forall b: nat :: c.readBranch(c.showBranch(b)) == Some(b) && Lacks(c.showBranch(b), '+') && Lacks(c.showBranch(b), '-'))
    && (forall h: nat :: c.readHash(c.showHash(h)) == Some(h) && c.showHash(h) != "" && Lacks(c.showHash(h), '.') && Lacks(c.showHash(h), '-'))
  }

  datatype HistoryRef = HistoryRef(branch: nat, heads: seq<nat>)

  predicate SortedHeads(heads: seq<nat>) { forall i, j :: 0 <= i < j < |heads| ==> heads[i] <= heads[j] }

  lemma InsertHead(heads: seq<nat>, n: nat, h: nat)
    requires SortedHeads(heads) && n <= |heads| && (n > 0 ==> heads[n - 1] <= h) && forall k :: n <= k < |heads| ==> heads[k] > h
    ensures SortedHeads(heads[..n] + [h] + heads[n..])
    ensures multiset(heads[..n] + [h] + heads[n..]) == multiset(heads) + multiset{h}
  {
    SameMembers(heads, n, h);
    var longer := heads[..n] + [h] + heads[n..];
    forall i, j | 0 <= i < j < |longer| ensures longer[i] <= longer[j] {
      var a, b := if i < n then i else i - 1, if j < n then j else j - 1;
      assert i != n ==> longer[i] == heads[a];
      assert j != n ==> longer[j] == heads[b];
      assert i < n ==> heads[a] <= heads[n - 1];
    }
  }

  lemma SameMembers(heads: seq<nat>, n: nat, h: nat)
    requires n <= |heads|
    ensures multiset(heads[..n] + [h] + heads[n..]) == multiset(heads) + multiset{h}
  {
    assert heads == heads[..n] + heads[n..];
  }

  // A ref made by `new` is sorted and has the heads it was given.
  method NewRef(branch: nat, given: seq<nat>) returns (r: HistoryRef)
    ensures r.branch == branch && SortedHeads(r.heads) && multiset(r.heads) == multiset(given)
  {
    var heads: seq<nat> := [];
    for i := 0 to |given|
      invariant SortedHeads(heads) && multiset(heads) == multiset(given[..i])
    {
      var n := |heads|;
      while n > 0 && heads[n - 1] > given[i]
        invariant 0 <= n <= |heads| && forall k :: n <= k < |heads| ==> heads[k] > given[i]
      {
        n := n - 1;
      }
      InsertHead(heads, n, given[i]);
      assert given[..i + 1] == given[..i] + [given[i]];
      heads := heads[..n] + [given[i]] + heads[n..];
    }
    assert given[..|given|] == given;
    r := HistoryRef(branch, heads);
  }

  // ---------- refs ----------

  function ShowHeads(c: Codec, heads: seq<nat>): (texts: seq<string>)
    ensures |texts| == |heads| && forall i :: 0 <= i < |heads| ==> texts[i] == c.showHash(heads[i])
  {
    seq(|heads|, i requires 0 <= i < |heads| => c.showHash(heads[i]))
  }

  // None: a ref without heads cannot be printed.
  function PrintRef(c: Codec, r: HistoryRef): Option<string>
  {
    if r.heads == [] then None else Some(c.showBranch(r.branch) + ['+'] + Join(ShowHeads(c, r.heads), "."))
  }

  function SplitOnce(s: string, c: char): Option<(string, string)>
  {
    if s == "" then None
    else if s[0] == c then Some(("", s[1..]))
    else
      match SplitOnce(s[1..], c)
      case None => None
      case Some(parts) => Some(([s[0]] + parts.0, parts.1))
  }

  lemma {:induction false} SplitOnceAt(a: string, c: char, b: string)
    requires Lacks(a, c)
    ensures SplitOnce(a + [c] + b, c) == Some((a, b))
  {
    var s := a + [c] + b;
    if a == [] {
      assert s[1..] == b;
    } else {
      SplitOnceAt(a[1..], c, b);
      assert s[1..] == a[1..] + [c] + b;
      assert [a[0]] + a[1..] == a;
    }
  }

  lemma {:induction false} SplitOnceParts(s: string, c: char)
    ensures match SplitOnce(s, c) case None => Lacks(s, c) case Some(parts) => Lacks(parts.0, c) && s == parts.0 + [c] + parts.1
  {
    if s != "" && s[0] != c { SplitOnceParts(s[1..], c); }
  }

  function ReadHeads(c: Codec, texts: seq<string>): Option<seq<nat>>
  {
    if texts == [] then Some([])
    else
      match (c.readHash(texts[0]), ReadHeads(c, texts[1..]))
      case (Some(h), Some(rest)) => Some([h] + rest)
      case _ => None
  }

  // None: not a ref.
  function ParseRef(c: Codec, s: string): Option<HistoryRef>
  {
    match SplitOnce(s, '+')
    case None => None
    case Some((branch, heads)) =>
      match c.readBranch(branch)
      case None => None
      case Some(b) =>
        if heads == "" then None
        else match ReadHeads(c, Split(heads, '.')) case None => None case Some(hs) => Some(HistoryRef(b, hs))
  }

  lemma {:induction false} ReadShown(c: Codec, heads: seq<nat>)
    requires CodecOk(c)
    ensures ReadHeads(c, ShowHeads(c, heads)) == Some(heads)
  {
    if heads != [] {
      assert ShowHeads(c, heads)[1..] == ShowHeads(c, heads[1..]);
      ReadShown(c, heads[1..]);
      assert [heads[0]] + heads[1..] == heads;
    }
  }

  lemma HeadsText(c: Codec, heads: seq<nat>)
    requires CodecOk(c) && heads != []
    ensures Join(ShowHeads(c, heads), ".") != "" && Lacks(Join(ShowHeads(c, heads), "."), '-')
    ensures Split(Join(ShowHeads(c, heads), "."), '.') == ShowHeads(c, heads)
  {
    var texts := ShowHeads(c, heads);
    JoinLacks(texts, ".", '-');
    SplitJoin(texts, '.');
    assert texts[0] != "";
  }

  lemma {:induction false} JoinLacks(parts: seq<string>, separator: string, c: char)
    requires Lacks(separator, c) && forall i :: 0 <= i < |parts| ==> Lacks(parts[i], c)
    ensures Lacks(Join(parts, separator), c)
  {
    if |parts| > 1 { JoinLacks(parts[1..], separator, c); }
  }

  // Every printable ref is read back, in the order its heads are in.
  lemma RefRoundTrip(c: Codec, r: HistoryRef)
    requires CodecOk(c) && r.heads != []
    ensures PrintRef(c, r).Some? && ParseRef(c, PrintRef(c, r).value) == Some(r) && Lacks(PrintRef(c, r).value, '-')
  {
    var heads := Join(ShowHeads(c, r.heads), ".");
    HeadsText(c, r.heads);
    SplitOnceAt(c.showBranch(r.branch), '+', heads);
    ReadShown(c, r.heads);
  }

  // Parsing does not sort: a text with its heads out of order gives a ref that breaks the
  // invariant of `new`, and only such a text does.
  lemma ParsedSorted(c: Codec, branch: nat, heads: seq<nat>)
    requires CodecOk(c) && heads != []
    ensures var r := ParseRef(c, PrintRef(c, HistoryRef(branch, heads)).value);
      r.Some? && (SortedHeads(r.value.heads) <==> SortedHeads(heads))
  {
    RefRoundTrip(c, HistoryRef(branch, heads));
  }

  // ---------- schemes ----------

  predicate IsAlpha(c: char) { 'a' <= c <= 'z' || 'A' <= c <= 'Z' }

  predicate IsSchemeChar(c: char) { IsAlpha(c) || IsDigit(c) || c == '-' || c == '.' || c == '+' }

  predicate IsValidScheme(s: string)
  {
    s != "" && IsAlpha(s[0]) && forall i :: 1 <= i < |s| ==> IsSchemeChar(s[i])
  }

  // The grammar of section 3.1 of RFC 3986, rule by rule.
  datatype SchemeRule = Alpha(c: char) | More(front: SchemeRule, c: char)

  function Derived(r: SchemeRule): string
  {
    match r case Alpha(c) => [c] case More(front, c) => Derived(front) + [c]
  }

  predicate Derives(r: SchemeRule)
  {
    match r
    case Alpha(c) => IsAlpha(c)
    case More(front, c) => Derives(front) && (IsAlpha(c) || IsDigit(c) || c in "+-.")
  }

  lemma {:induction false} DerivedValid(r: SchemeRule)
    requires Derives(r)
    ensures IsValidScheme(Derived(r))
  {
    if r.More? { DerivedValid(r.front); }
  }

  lemma {:induction false} ValidDerived(s: string) returns (r: SchemeRule)
    requires IsValidScheme(s)
    ensures Derives(r) && Derived(r) == s
  {
    if |s| == 1 {
      r := Alpha(s[0]);
    } else {
      var front := ValidDerived(s[..|s| - 1]);
      r := More(front, s[|s| - 1]);
    }
  }

  // A scheme is accepted exactly when the grammar derives it.
  lemma SchemeGrammar(s: string)
    ensures IsValidScheme(s) <==> exists r :: Derives(r) && Derived(r) == s
  {
    if IsValidScheme(s) { var r := ValidDerived(s); }
    forall r | Derives(r) && Derived(r) == s ensures IsValidScheme(s) { DerivedValid(r); }
  }

  // ---------- ref paths ----------

  const PREFIX := "backstitch-"

  function PrintPath(c: Codec, r: HistoryRef, path: string): Option<string>
  {
    match PrintRef(c, r) case None => None case Some(text) => Some(PREFIX + text + ['-'] + path)
  }

  // Position of the first colon that is followed by a slash.
  function FindMark(path: string): (r: Option<nat>)
    ensures r.Some? ==> r.value + 1 < |path| && path[r.value] == ':' && path[r.value + 1] == '/'
    ensures forall i :: 0 <= i < (if r.Some? then r.value else |path| - 1) ==> !(path[i] == ':' && path[i + 1] == '/')
  {
    if |path| < 2 then None
    else if path[0] == ':' && path[1] == '/' then Some(0)
    else match FindMark(path[1..]) case None => None case Some(n) => Some(n + 1)
  }

  // Path simplification leaves one slash after the scheme; parsing puts the second one back.
  // None: the text ends there, or goes on with a character of more than one byte, and the
  // source's slice panics.
  function FixPath(path: string): Option<string>
  {
    match FindMark(path)
    case None => Some(path)
    case Some(n) =>
      if !IsValidScheme(path[..n]) then Some(path)
      else if n + 2 == |path| || path[n + 2] as int >= 0x80 then None
      else if path[n + 2] != '/' then Some(path[..n] + "://" + path[n + 2..])
      else Some(path)
  }

  datatype Outcome = Parsed(ref: HistoryRef, path: string) | Invalid | Panics

  function ParsePath(c: Codec, s: string): Outcome
  {
    if !(PREFIX <= s) then Invalid
    else
      match SplitOnce(s[|PREFIX|..], '-')
      case None => Invalid
      case Some((ref, path)) =>
        match FixPath(path)
        case None => Panics
        case Some(fixed) => match ParseRef(c, ref) case None => Invalid case Some(r) => Parsed(r, fixed)
  }

  // The scheme of a path, if it has one, is still followed by two slashes.
  predicate Intact(path: string)
  {
    var mark := FindMark(path);
    mark.Some? && IsValidScheme(path[..mark.value]) ==> mark.value + 2 < |path| && path[mark.value + 2] == '/'
  }

  lemma ParsePrinted(c: Codec, r: HistoryRef, path: string)
    requires CodecOk(c) && r.heads != []
    ensures PrintPath(c, r, path).Some?
    ensures ParsePath(c, PrintPath(c, r, path).value) == match FixPath(path) case None => Panics case Some(p) => Parsed(r, p)
  {
    RefRoundTrip(c, r);
    var text := PrintRef(c, r).value;
    var s := PrintPath(c, r, path).value;
    assert s[|PREFIX|..] == text + ['-'] + path;
    SplitOnceAt(text, '-', path);
  }

  // Ref and path come back unchanged exactly when the scheme of the path is intact.
  lemma PathRoundTrip(c: Codec, r: HistoryRef, path: string)
    requires CodecOk(c) && r.heads != []
    ensures PrintPath(c, r, path).Some?
    ensures ParsePath(c, PrintPath(c, r, path).value) == Parsed(r, path) <==> Intact(path)
  {
    ParsePrinted(c, r, path);
    FixIntact(path);
  }

  lemma FixIntact(path: string)
    ensures FixPath(path) == Some(path) <==> Intact(path)
  {
  }

  lemma {:induction false} MarkAt(scheme: string, rest: string)
    requires Lacks(scheme, ':')
    ensures FindMark(scheme + ":/" + rest) == Some(|scheme|)
  {
    var path := scheme + ":/" + rest;
    if scheme != "" {
      MarkAt(scheme[1..], rest);
      assert path[1..] == scheme[1..] + ":/" + rest;
    }
  }

  // The repair behind a valid scheme.
  lemma FixAt(scheme: string, rest: string)
    requires IsValidScheme(scheme)
    ensures FixPath(scheme + ":/" + rest) ==
      if rest == "" || rest[0] as int >= 0x80 then None else Some(scheme + (if rest[0] == '/' then ":/" else "://") + rest)
    ensures Intact(scheme + ":/" + rest) <==> rest != "" && rest[0] == '/'
  {
    assert Lacks(scheme, ':');
    MarkAt(scheme, rest);
    var path := scheme + ":/" + rest;
    assert path[..|scheme|] == scheme && path[|scheme| + 2..] == rest;
    assert rest != "" ==> path[|scheme| + 2] == rest[0];
  }

  // A path whose second slash was simplified away is repaired; a repaired path is intact.
  lemma SimplifiedRepaired(scheme: string, rest: string)
    requires IsValidScheme(scheme) && rest != "" && rest[0] as int < 0x80 && rest[0] != '/'
    ensures FixPath(scheme + ":/" + rest) == Some(scheme + "://" + rest)
    ensures Intact(scheme + "://" + rest)
  {
    FixAt(scheme, rest);
    FixAt(scheme, "/" + rest);
    assert scheme + "://" + rest == scheme + ":/" + ("/" + rest);
  }

  predicate PanicText(path: string, scheme: string, rest: string)
  {
    IsValidScheme(scheme) && (rest == "" || rest[0] as int >= 0x80) && path == scheme + ":/" + rest
  }

  lemma PanicTextFails(path: string, scheme: string, rest: string)
    requires PanicText(path, scheme, rest)
    ensures FixPath(path).None?
  {
    FixAt(scheme, rest);
  }

  lemma PanicMark(path: string) returns (scheme: string, rest: string)
    requires FixPath(path).None?
    ensures PanicText(path, scheme, rest)
  {
    var n := FindMark(path).value;
    scheme, rest := path[..n], path[n + 2..];
    assert path == scheme + ":/" + rest;
  }

  lemma FixPanics(path: string)
    ensures FixPath(path).None? <==> exists scheme, rest :: PanicText(path, scheme, rest)
  {
    if FixPath(path).None? { var scheme, rest := PanicMark(path); }
    forall scheme, rest | PanicText(path, scheme, rest) ensures FixPath(path).None? { PanicTextFails(path, scheme, rest); }
  }

  // Prefix, anything up to the divider, and a path on which the repair panics.
  predicate PanicInput(s: string, ref: string, scheme: string, rest: string)
  {
    Lacks(ref, '-') && PanicText(scheme + ":/" + rest, scheme, rest) && s == PREFIX + ref + ['-'] + (scheme + ":/" + rest)
  }

  lemma PanicParts(c: Codec, s: string) returns (ref: string, scheme: string, rest: string)
    requires ParsePath(c, s).Panics?
    ensures PanicInput(s, ref, scheme, rest)
  {
    SplitOnceParts(s[|PREFIX|..], '-');
    var parts := SplitOnce(s[|PREFIX|..], '-').value;
    scheme, rest := PanicMark(parts.1);
    ref := parts.0;
    assert s == PREFIX + s[|PREFIX|..];
  }

  lemma PanicInputPanics(c: Codec, s: string, ref: string, scheme: string, rest: string)
    requires PanicInput(s, ref, scheme, rest)
    ensures ParsePath(c, s).Panics?
  {
    var path := scheme + ":/" + rest;
    assert s[|PREFIX|..] == ref + ['-'] + path;
    SplitOnceAt(ref, '-', path);
    PanicTextFails(path, scheme, rest);
  }

  // Parsing panics exactly on texts with the prefix and a divider that is followed by a valid
  // scheme whose single slash is followed by nothing or by a character outside ASCII; what
  // stands for the ref does not matter.
  lemma PanicsExactly(c: Codec, s: string)
    ensures ParsePath(c, s).Panics? <==> exists ref, scheme, rest :: PanicInput(s, ref, scheme, rest)
  {
    if ParsePath(c, s).Panics? { var ref, scheme, rest := PanicParts(c, s); }
    forall ref, scheme, rest | PanicInput(s, ref, scheme, rest) ensures ParsePath(c, s).Panics? {
      PanicInputPanics(c, s, ref, scheme, rest);
    }
  }

  // So a printed ref path panics exactly when its path is such a one.
  lemma PrintedPanics(c: Codec, r: HistoryRef, path: string)
    requires CodecOk(c) && r.heads != []
    ensures PrintPath(c, r, path).Some?
    ensures ParsePath(c, PrintPath(c, r, path).value).Panics? <==> exists scheme, rest :: PanicText(path, scheme, rest)
  {
    ParsePrinted(c, r, path);
    FixPanics(path);
  }

  // What parsing returns is a fixed point: printing and parsing it again gives the same.
  lemma ParsedStable(c: Codec, s: string)
    requires CodecOk(c) && ParsePath(c, s).Parsed?
    ensures var p := ParsePath(c, s);
      p.ref.heads != [] && PrintPath(c, p.ref, p.path).Some? && ParsePath(c, PrintPath(c, p.ref, p.path).value) == p
  {
    var p := ParsePath(c, s);
    var parts := SplitOnce(s[|PREFIX|..], '-').value;
    ParsedHeads(c, parts.0);
    FixedIntact(parts.1);
    PathRoundTrip(c, p.ref, p.path);
  }

  lemma ParsedHeads(c: Codec, text: string)
    ensures ParseRef(c, text).Some? ==> ParseRef(c, text).value.heads != []
  {
  }

  lemma FixedIntact(path: string)
    ensures FixPath(path).Some? ==> Intact(FixPath(path).value)
  {
    var mark := FindMark(path);
    FixIntact(path);
    if mark.Some? && FixPath(path).Some? && FixPath(path) != Some(path) {
      var n := mark.value;
      assert path == path[..n] + ":/" + path[n + 2..];
      SimplifiedRepaired(path[..n], path[n + 2..]);
    }
  }

  // ---------- exactly which texts are refs and ref paths ----------

  // A branch, a plus sign, and the texts of the heads with dots between them.
  ghost predicate RefText(c: Codec, s: string, r: HistoryRef, branch: string, texts: seq<string>)
  {
    && Lacks(branch, '+') && s == branch + ['+'] + Join(texts, ".") && c.readBranch(branch) == Some(r.branch)
    && |texts| == |r.heads| > 0 && Join(texts, ".") != ""
    && forall i :: 0 <= i < |texts| ==> Lacks(texts[i], '.') && c.readHash(texts[i]) == Some(r.heads[i])
  }

  lemma {:induction false} HeadsRead(c: Codec, texts: seq<string>, heads: seq<nat>)
    ensures ReadHeads(c, texts) == Some(heads)
      <==> |texts| == |heads| && forall i :: 0 <= i < |texts| ==> c.readHash(texts[i]) == Some(heads[i])
  {
    if texts != [] && heads != [] {
      HeadsRead(c, texts[1..], heads[1..]);
      assert heads == [heads[0]] + heads[1..];
      assert forall i :: 0 < i < |texts| ==> texts[i] == texts[1..][i - 1];
      assert forall i :: 0 < i < |heads| ==> heads[i] == heads[1..][i - 1];
    }
  }

  lemma {:induction false} JoinSplit(s: string, c: char)
    ensures Join(Split(s, c), [c]) == s && forall i :: 0 <= i < |Split(s, c)| ==> Lacks(Split(s, c)[i], c)
  {
    if s != "" {
      JoinSplit(s[1..], c);
      var rest := Split(s[1..], c);
      if s[0] == c {
        assert ([""] + rest)[1..] == rest;
        assert s == [c] + s[1..];
      } else {
        var parts := [[s[0]] + rest[0]] + rest[1..];
        assert parts[1..] == rest[1..];
        assert s == [s[0]] + s[1..];
      }
    }
  }

  lemma RefsExactly(c: Codec, s: string, r: HistoryRef)
    ensures ParseRef(c, s) == Some(r) <==> exists branch, texts :: RefText(c, s, r, branch, texts)
  {
    if ParseRef(c, s) == Some(r) {
      SplitOnceParts(s, '+');
      var parts := SplitOnce(s, '+').value;
      var texts := Split(parts.1, '.');
      JoinSplit(parts.1, '.');
      HeadsRead(c, texts, r.heads);
      assert RefText(c, s, r, parts.0, texts);
    }
    forall branch, texts | RefText(c, s, r, branch, texts) ensures ParseRef(c, s) == Some(r) {
      SplitOnceAt(branch, '+', Join(texts, "."));
      SplitJoin(texts, '.');
      HeadsRead(c, texts, r.heads);
    }
  }

  // The prefix, a ref, a divider, and a path.
  ghost predicate PathText(c: Codec, s: string, r: HistoryRef, ref: string, path: string)
  {
    Lacks(ref, '-') && s == PREFIX + ref + ['-'] + path && ParseRef(c, ref) == Some(r)
  }

  lemma PathsExactly(c: Codec, s: string, r: HistoryRef, fixed: string)
    ensures ParsePath(c, s) == Parsed(r, fixed) <==> exists ref, path :: PathText(c, s, r, ref, path) && FixPath(path) == Some(fixed)
  {
    if ParsePath(c, s) == Parsed(r, fixed) {
      var rest := s[|PREFIX|..];
      SplitOnceParts(rest, '-');
      var parts := SplitOnce(rest, '-').value;
      assert s == PREFIX + rest;
      assert PathText(c, s, r, parts.0, parts.1);
    }
    forall ref, path | PathText(c, s, r, ref, path) && FixPath(path) == Some(fixed) ensures ParsePath(c, s) == Parsed(r, fixed) {
      assert s[|PREFIX|..] == ref + ['-'] + path;
      SplitOnceAt(ref, '-', path);
    }
  }
}
