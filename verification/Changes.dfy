// A document as a finite set of changes that contains every dependency of its members.
// Merging is union; the heads are the changes nothing else depends on.

module Changes {
  // A change is built from the changes it depends on, so dependencies cannot form a cycle.
  datatype Change = Change(id: int, deps: set<Change>)

  type Doc = set<Change>

  predicate Closed(doc: Doc)
  {
    forall c, d :: c in doc && d in c.deps ==> d in doc
  }

  predicate IsHead(doc: Doc, c: Change)
  {
    c in doc && forall d :: d in doc ==> c !in d.deps
  }

  function Heads(doc: Doc): set<Change>
  {
    set c | c in doc && IsHead(doc, c)
  }

  // The members of a document above `c` in the order of construction.
  ghost function Higher(doc: Doc, c: Change): set<Change>
  {
    set x | x in doc && c < x
  }

  lemma HigherShrinks(doc: Doc, d: Change, c: Change)
    requires d in doc && c in d.deps
    ensures Higher(doc, d) < Higher(doc, c)
  {
    assert c < d;
    assert d in Higher(doc, c) && d !in Higher(doc, d);
  }

  // Above every member of a document there is a head: climbing from `c` cannot go on forever.
  lemma {:induction false} HeadAbove(doc: Doc, c: Change) returns (h: Change)
    requires c in doc
    ensures h in Heads(doc)
    ensures forall other: Doc :: Closed(other) && h in other ==> c in other
    decreases Higher(doc, c)
  {
    if IsHead(doc, c) {
      h := c;
    } else {
      var d :| d in doc && c in d.deps;
      HigherShrinks(doc, d, c);
      h := HeadAbove(doc, d);
    }
  }

  // A document that contains the heads of another contains all of it.
  lemma HeadsContain(a: Doc, b: Doc)
    requires Closed(b) && Heads(a) <= b
    ensures a <= b
  {
    forall c | c in a ensures c in b {
      var h := HeadAbove(a, c);
    }
  }

  // Two documents have the same heads exactly when they are the same.
  lemma HeadsDetermine(a: Doc, b: Doc)
    requires Closed(a) && Closed(b)
    ensures Heads(a) == Heads(b) <==> a == b
  {
    if Heads(a) == Heads(b) {
      HeadsContain(a, b);
      HeadsContain(b, a);
    }
  }

  // A commit depends on the heads, and becomes the only head.
  lemma CommitHeads(doc: Doc, c: Change)
    requires Closed(doc) && c !in doc && c.deps == Heads(doc)
    ensures Closed(doc + {c}) && Heads(doc + {c}) == {c}
  {
    forall x | x in doc ensures x !in Heads(doc + {c}) {
      if IsHead(doc, x) {
        assert x in c.deps && c in doc + {c};
      } else {
        var d :| d in doc && x in d.deps;
        assert d in doc + {c};
      }
    }
    forall d | d in doc + {c} ensures c !in d.deps {
      if d in doc { assert c !in d.deps; } else { assert c !in Heads(doc); }
    }
    assert IsHead(doc + {c}, c);
  }
}
