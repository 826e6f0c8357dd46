// The hash index of a document: stored hashes where a single one is visible, computed hashes
// otherwise; and why a single stored hash can be trusted.

module HashIndex {
  import opened Text
  import opened Changes
  import opened Files
  import opened Sets

  // ---------- the index ----------

  // What a reader sees of an entry: every visible stored hash (None: not a hash), and its content.
  datatype View = View(hashes: seq<Option<Hash>>, read: Read)

  datatype PendingHash = Ready(hash: Hash) | Linked(id: DocId)

  function ReadHash(printer: Printer, read: Read, docs: map<DocId, Bytes>): Option<Hash>
  {
    match read
    case Inline(c) => Some(ToHash(printer, c))
    case Link(id) => if id in docs then Some(HashOf(docs[id])) else None
    case Unreadable => None
    case Panics => None
  }

  predicate Fast(v: View) { |v.hashes| == 1 && v.hashes[0].Some? }

  // Reading the content panics, and the content is needed.
  predicate Crashes(v: View) { !Fast(v) && v.read.Panics? }

  function FileHash(printer: Printer, v: View, docs: map<DocId, Bytes>): Option<Hash>
  {
    if Fast(v) then v.hashes[0] else ReadHash(printer, v.read, docs)
  }

  function IndexOf(printer: Printer, views: map<string, View>, docs: map<DocId, Bytes>, ignored: set<string>): Index
  {
    map path | path in views && path !in ignored && FileHash(printer, views[path], docs).Some? :: FileHash(printer, views[path], docs).value
  }

  function Pend(printer: Printer, v: View): Option<PendingHash>
  {
    if Fast(v) then Some(Ready(v.hashes[0].value))
    else
      match v.read
      case Inline(c) => Some(Ready(ToHash(printer, c)))
      case Link(id) => Some(Linked(id))
      case Unreadable => None
      case Panics => None
  }

  // None: reading some content panics.
  method CollectHashes(printer: Printer, views: map<string, View>) returns (pending: Option<map<string, PendingHash>>)
    ensures pending.None? <==> exists path :: path in views && Crashes(views[path])
    ensures pending.Some? ==>
      pending.value == map path | path in views && Pend(printer, views[path]).Some? :: Pend(printer, views[path]).value
  {
    var done: map<string, PendingHash> := map[];
    var rest := views.Keys;
    while rest != {}
      invariant rest <= views.Keys
      invariant forall path :: path in views && path !in rest ==> !Crashes(views[path])
      invariant done == map path | path in views && path !in rest && Pend(printer, views[path]).Some? :: Pend(printer, views[path]).value
      decreases rest
    {
      var path := Any(rest);
      rest := rest - {path};
      var v := views[path];
      if |v.hashes| == 1 && v.hashes[0].Some? {
        done := done[path := Ready(v.hashes[0].value)];
      } else {
        match v.read {
          case Inline(c) => done := done[path := Ready(ToHash(printer, c))];
          case Link(id) => done := done[path := Linked(id)];
          case Unreadable =>
          case Panics => return None;
        }
      }
    }
    return Some(done);
  }

  method GetHashIndex(printer: Printer, views: map<string, View>, docs: map<DocId, Bytes>, ignored: set<string>) returns (r: Option<Index>)
    ensures r.None? <==> exists path :: path in views && Crashes(views[path])
    ensures r.Some? ==> r.value == IndexOf(printer, views, docs, ignored)
  {
    var collected := CollectHashes(printer, views);
    if collected.None? { return None; }
    var pending := collected.value;
    var index: Index := map[];
    var rest := pending.Keys;
    while rest != {}
      invariant rest <= pending.Keys
      invariant index == map path | path in views && path !in ignored && path !in rest && FileHash(printer, views[path], docs).Some? ::
        FileHash(printer, views[path], docs).value
      decreases rest
    {
      var path := Any(rest);
      rest := rest - {path};
      if path in ignored { continue; }
      match pending[path] {
        case Ready(hash) => index := index[path := hash];
        case Linked(id) =>
          if id in docs { index := index[path := HashOf(docs[id])]; }
      }
    }
    r := Some(index);
  }

  // ---------- histories ----------

  // Everything a change was built on.
  ghost function Past(c: Change): set<Change>
  {
    c.deps + (set d, x | d in c.deps && x in Past(d) :: x)
  }

  lemma {:induction false} PastBelow(c: Change, x: Change)
    requires x in Past(c)
    ensures x < c && Past(x) <= Past(c)
  {
    if x in c.deps {
      assert x < c;
    } else {
      var d :| d in c.deps && x in Past(d);
      assert d < c;
      PastBelow(d, x);
      PastOfDep(c, d);
    }
  }

  lemma PastOfDep(c: Change, d: Change)
    requires d in c.deps
    ensures Past(d) <= Past(c)
  {
  }

  // The members of a set that no other member builds on: what a register shows.
  ghost function Maximal(s: set<Change>): set<Change>
  {
    set c | c in s && forall d :: d in s ==> c !in Past(d)
  }

  ghost predicate Dominates(w: Change, s: set<Change>)
  {
    w in s && forall c :: c in s ==> c == w || c in Past(w)
  }

  lemma {:induction false} MaximalAbove(s: set<Change>, c: Change) returns (m: Change)
    requires c in s
    ensures m in Maximal(s) && (m == c || c in Past(m))
    decreases Higher(s, c)
  {
    if c in Maximal(s) {
      m := c;
    } else {
      var d :| d in s && c in Past(d);
      PastBelow(d, c);
      assert d in Higher(s, c) && d !in Higher(s, d);
      m := MaximalAbove(s, d);
      if m != d { PastBelow(m, d); }
    }
  }

  // Exactly one value is visible if and only if one write was made with all others in its past.
  lemma OneVisible(s: set<Change>, w: Change)
    ensures Maximal(s) == {w} <==> Dominates(w, s)
  {
    if Maximal(s) == {w} {
      assert w in Maximal(s);
      forall c | c in s ensures c == w || c in Past(w) {
        var m := MaximalAbove(s, c);
      }
    }
    if Dominates(w, s) {
      forall d | d in s ensures w !in Past(d) {
        if w in Past(d) {
          PastBelow(d, w);
          if d != w { PastBelow(w, d); }
        }
      }
      forall c | c in Maximal(s) ensures c == w { }
      assert w in Maximal(s);
    }
  }

  // ---------- the writes to one path ----------

  // A change may create a new entry under the path, write to an existing one, or remove it.
  datatype Op = Create | Edit(entry: Change) | Remove

  type Ops = map<Change, Op>

  function EntryOf(c: Change, op: Op): Option<Change>
  {
    match op
    case Create => Some(c)
    case Edit(e) => Some(e)
    case Remove => None
  }

  // The changes of `doc` that wrote content and hash into entry `e`.
  function Writers(ops: Ops, doc: Doc, e: Change): set<Change>
  {
    set c | c in doc && c in ops && EntryOf(c, ops[c]) == Some(e)
  }

  // All changes that wrote content for the path, into whatever entry.
  function FileWriters(ops: Ops, doc: Doc): set<Change>
  {
    set c | c in doc && c in ops && !ops[c].Remove?
  }

  // A register under a path shows the entries whose creation no later creation or removal has seen.
  ghost predicate Shown(ops: Ops, doc: Doc, e: Change)
  {
    && e in doc && e in ops && ops[e].Create?
    && forall d :: d in doc && d in ops && !ops[d].Edit? ==> e !in Past(d)
  }

  // Entries are edited only by changes that could see them.
  ghost predicate EditsSeen(ops: Ops, doc: Doc)
  {
    forall c :: c in doc && c in ops && ops[c].Edit? ==> ops[c].entry in Past(c) && Shown(ops, Past(c), ops[c].entry)
  }

  // What the changes of an entry amount to (a function of the set of its writers), and what
  // each writer committed: a commit brings the entry to its own content and stores its hash.
  ghost predicate WritesContent(ops: Ops, doc: Doc, e: Change, state: set<Change> -> Read, written: map<Change, Read>)
  {
    forall w :: w in Writers(ops, doc, e) ==>
      w in written && state(Writers(ops, Past(w) + {w}, e)) == written[w]
  }

  // What `w` left reads with the hash that was stored with it, or what was stored is not a hash.
  ghost predicate HashFits(printer: Printer, docs: map<DocId, Bytes>, written: map<Change, Read>, stored: map<Change, Option<Hash>>, w: Change)
  {
    w in written && w in stored && (stored[w] == None || ReadHash(printer, written[w], docs) == stored[w])
  }

  // The view of entry `e` at the heads of `doc`.
  ghost predicate Sees(ops: Ops, doc: Doc, e: Change, state: set<Change> -> Read, stored: map<Change, Option<Hash>>, v: View)
  {
    && v.read == state(Writers(ops, doc, e))
    && |v.hashes| == |Maximal(Writers(ops, doc, e))|
    && forall w :: w in Maximal(Writers(ops, doc, e)) ==> w in stored && stored[w] in v.hashes
  }

  lemma {:induction false} PastInside(doc: Doc, w: Change)
    requires Closed(doc) && w in doc
    ensures Past(w) <= doc
    decreases w
  {
    forall x | x in Past(w) ensures x in doc {
      if x !in w.deps {
        var d :| d in w.deps && x in Past(d);
        assert d < w;
        PastInside(doc, d);
      }
    }
  }

  lemma DominatedWriters(ops: Ops, doc: Doc, e: Change, w: Change)
    requires Closed(doc) && Dominates(w, Writers(ops, doc, e))
    ensures Writers(ops, Past(w) + {w}, e) == Writers(ops, doc, e)
  {
    PastInside(doc, w);
  }

  // A single stored hash was stored by a writer that had every other writer of the entry in its
  // past, so it is the hash of the content a reader gets exactly when that commit stored the
  // hash of what it left, or no hash. Without a single one the content itself is hashed.
  lemma HashTrusted(printer: Printer, ops: Ops, doc: Doc, e: Change, state: set<Change> -> Read, written: map<Change, Read>,
                    stored: map<Change, Option<Hash>>, docs: map<DocId, Bytes>, v: View)
    requires Closed(doc) && WritesContent(ops, doc, e, state, written) && Sees(ops, doc, e, state, stored, v)
    ensures FileHash(printer, v, docs) == ReadHash(printer, v.read, docs)
      <==> |v.hashes| == 1 ==> forall w :: Dominates(w, Writers(ops, doc, e)) ==> HashFits(printer, docs, written, stored, w)
  {
    if |v.hashes| == 1 {
      var w := SingletonMember(Maximal(Writers(ops, doc, e)));
      OneVisible(Writers(ops, doc, e), w);
      TopOnly(Writers(ops, doc, e), w);
      TopContent(ops, doc, e, state, written, w);
      TopHash(ops, doc, e, state, stored, v, w);
    }
  }

  lemma TopOnly(s: set<Change>, w: Change)
    requires Maximal(s) == {w}
    ensures forall x :: Dominates(x, s) <==> x == w
  {
    forall x ensures Dominates(x, s) <==> x == w { OneVisible(s, x); }
  }

  lemma TopHash(ops: Ops, doc: Doc, e: Change, state: set<Change> -> Read, stored: map<Change, Option<Hash>>, v: View, w: Change)
    requires Sees(ops, doc, e, state, stored, v) && Maximal(Writers(ops, doc, e)) == {w}
    ensures w in stored && v.hashes == [stored[w]]
  {
    assert w in Maximal(Writers(ops, doc, e));
  }

  // The content of an entry is what its dominating writer committed.
  lemma TopContent(ops: Ops, doc: Doc, e: Change, state: set<Change> -> Read, written: map<Change, Read>, w: Change)
    requires Closed(doc) && WritesContent(ops, doc, e, state, written) && Dominates(w, Writers(ops, doc, e))
    ensures w in written && state(Writers(ops, doc, e)) == written[w]
  {
    DominatedWriters(ops, doc, e, w);
  }

  // The fast way is open for an entry exactly when some writer of it has all others in its past;
  // concurrent last writers of the entry always force the slow way.
  lemma FastExactly(ops: Ops, doc: Doc, e: Change, state: set<Change> -> Read, stored: map<Change, Option<Hash>>, v: View)
    requires Sees(ops, doc, e, state, stored, v)
    ensures |v.hashes| == 1 <==> exists w :: Dominates(w, Writers(ops, doc, e))
  {
    var s := Writers(ops, doc, e);
    if |v.hashes| == 1 {
      var w := SingletonMember(Maximal(s));
      OneVisible(s, w);
    }
    if w :| Dominates(w, s) { OneVisible(s, w); }
  }

  // ---------- entries, not files ----------

  // The single visible hash need not dominate the writers of other entries of the same path:
  // a binary commit replaces the entry while a concurrent commit still edits the old one.
  lemma ReplacedEntryHidesEdit()
    ensures exists ops: Ops, doc: Doc, e: Change, c: Change ::
      && Closed(doc) && EditsSeen(ops, doc) && Shown(ops, doc, e) && Maximal(Writers(ops, doc, e)) == {e}
      && c in FileWriters(ops, doc) && c != e && c !in Past(e)
  {
    var first := Change(0, {});
    var replaced := Change(1, {first});
    var edited := Change(2, {first});
    var doc: Doc := {first, replaced, edited};
    var ops: Ops := map[first := Create, replaced := Create, edited := Edit(first)];
    PastOfRoot(first);
    PastOfSecond(first, replaced);
    PastOfSecond(first, edited);
    assert Writers(ops, doc, replaced) == {replaced};
    OneVisible({replaced}, replaced);
    assert EditsSeen(ops, doc);
    assert Shown(ops, doc, replaced);
    assert edited in FileWriters(ops, doc) && edited !in Past(replaced);
  }

  lemma PastOfRoot(c: Change)
    requires c.deps == {}
    ensures Past(c) == {}
  {
  }

  lemma PastOfSecond(root: Change, c: Change)
    requires root.deps == {} && c.deps == {root}
    ensures Past(c) == {root}
  {
  }

  // With one entry in the history, dominating the entry is dominating the file.
  lemma OneEntryDominates(ops: Ops, doc: Doc, e: Change, w: Change)
    requires forall c :: c in doc && c in ops && ops[c].Create? ==> c == e
    requires forall c :: c in doc && c in ops && ops[c].Edit? ==> ops[c].entry in doc && ops[c].entry in ops && ops[ops[c].entry].Create?
    ensures Dominates(w, FileWriters(ops, doc)) <==> Maximal(Writers(ops, doc, e)) == {w}
  {
    OneVisible(Writers(ops, doc, e), w);
    assert FileWriters(ops, doc) == Writers(ops, doc, e);
  }

  // Two clients that create the path at the same time: both entries are shown, each with a
  // single hash, and neither writer has seen the other.
  lemma CreatedTwice()
    ensures exists ops: Ops, doc: Doc, a: Change, b: Change ::
      && Closed(doc) && EditsSeen(ops, doc) && a != b && Shown(ops, doc, a) && Shown(ops, doc, b)
      && Maximal(Writers(ops, doc, a)) == {a} && Maximal(Writers(ops, doc, b)) == {b}
      && b in FileWriters(ops, doc) && b !in Past(a) && a !in Past(b)
  {
    var a, b := Change(0, {}), Change(1, {});
    var doc: Doc := {a, b};
    var ops: Ops := map[a := Create, b := Create];
    PastOfRoot(a);
    PastOfRoot(b);
    assert Writers(ops, doc, a) == {a} && Writers(ops, doc, b) == {b};
    OneVisible({a}, a);
    OneVisible({b}, b);
    assert Shown(ops, doc, a) && Shown(ops, doc, b);
    assert b in FileWriters(ops, doc);
  }

  // The writer of the single hash dominates the whole file if and only if it has every writer
  // of another entry in its past.
  lemma FileDominated(ops: Ops, doc: Doc, e: Change, w: Change)
    requires Maximal(Writers(ops, doc, e)) == {w}
    ensures Dominates(w, FileWriters(ops, doc))
      <==> forall c :: c in FileWriters(ops, doc) && EntryOf(c, ops[c]) != Some(e) ==> c in Past(w)
  {
    OneVisible(Writers(ops, doc, e), w);
    assert w in FileWriters(ops, doc);
    forall c | c in FileWriters(ops, doc) && EntryOf(c, ops[c]) == Some(e) ensures c in Writers(ops, doc, e) { }
  }

  // Which is so when whoever created the entry had seen them all.
  lemma SeenAtCreation(ops: Ops, doc: Doc, e: Change, w: Change)
    requires EditsSeen(ops, doc) && Maximal(Writers(ops, doc, e)) == {w}
    requires forall c :: c in FileWriters(ops, doc) && EntryOf(c, ops[c]) != Some(e) ==> c in Past(e)
    ensures Dominates(w, FileWriters(ops, doc))
  {
    assert w in Maximal(Writers(ops, doc, e));
    if w != e {
      assert ops[w].Edit? && ops[w].entry == e;
      PastBelow(w, e);
    }
    FileDominated(ops, doc, e, w);
  }
}
