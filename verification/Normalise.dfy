// What committing does to a file on the disk: scenes are parsed, kept in the document, read back
// and printed. Where nothing is lost on that way, the driver's normal form is a fixed point.

module Normalise {
  import opened Text
  import opened SceneModel
  import opened SceneTree
  import opened SceneLinks
  import opened SceneText
  import opened SceneRoundTrip
  import opened SceneStability
  import opened SceneStore
  import opened Files
  import CommitEntries
  import Driver
  import DriverProof

  const BINARY_PROBE := 8000

  predicate IsBinary(text: string)
  {
    exists i :: 0 <= i < |text| && i < BINARY_PROBE && text[i] == '\0'
  }

  // The model says what parsing such a file gives: the parser ends and draws no random identifier.
  predicate Determined(b: Bytes)
  {
    b.SceneBytes? ==>
      match Parse(b.sections)
      case Ok(_) => true
      case Err(e) => !e.NeverEnds? && !e.RandomIdNeeded? && !e.MalformedArray? && !e.LoneQuote?
  }

  // from_buf: what a file on the disk is committed as. A scene that cannot be parsed stays text.
  function FromBytes(b: Bytes): FileContent
    requires Determined(b)
  {
    match b
    case Data(text) => if IsBinary(text) then Binary(b) else TextFile(b)
    case SceneBytes(sections, _) => match Parse(sections) case Err(_) => TextFile(b) case Ok(s) => SceneFile(s)
  }

  // Printing and parsing gives the scene back, its text does not depend on map order, and
  // neither its keys nor its names change in the document.
  ghost predicate SettledScene(s: Scene, t: Tree)
  {
    SceneOk(s, t) && DistinctRanks(s, t) && Survives(s)
  }

  ghost predicate Settled(b: Bytes)
  {
    Determined(b) && (FromBytes(b).SceneFile? ==> exists t :: SettledScene(FromBytes(b).scene, t))
  }

  // The normal form of what survives is what its content is printed as.
  ghost predicate Normalises(env: Driver.Env, printer: Printer)
  {
    PrinterOk(printer) && forall b :: Settled(b) ==> env.norm(b) == ToBytes(printer, FromBytes(b))
  }

  lemma PrintedAgain(printer: Printer, s: Scene, t: Tree)
    requires PrinterOk(printer) && SceneOk(s, t)
    ensures Parse(printer(s)) == Ok(s)
  {
    OkPrintable(s, t);
    var layout, p := PrintsOf(printer, s, t);
    ParsePrinted(s, t, layout, p);
  }

  // A settled content is steady: one hash, and every read gives it back.
  lemma SettledSteady(b: Bytes)
    requires Settled(b)
    ensures Steady(FromBytes(b))
  {
    if FromBytes(b).SceneFile? {
      var s := FromBytes(b).scene;
      var t :| SettledScene(s, t);
      OkPrintable(s, t);
      OneTextDistinct(s, t);
      assert StableScene(s);
    }
  }

  lemma ReadAsScene(sections: seq<Section>, s: Scene)
    requires Parse(sections) == Ok(s)
    ensures Determined(SceneBytes(sections, "")) && FromBytes(SceneBytes(sections, "")) == SceneFile(s)
  {
  }

  // The printed form of a settled content is read as the same content.
  lemma SettledPrinted(printer: Printer, b: Bytes)
    requires PrinterOk(printer) && Settled(b)
    ensures Determined(ToBytes(printer, FromBytes(b))) && FromBytes(ToBytes(printer, FromBytes(b))) == FromBytes(b)
  {
    var c := FromBytes(b);
    if c.SceneFile? {
      var t :| SettledScene(c.scene, t);
      PrintedAgain(printer, c.scene, t);
      ReadAsScene(printer(c.scene), c.scene);
    } else {
      assert ToBytes(printer, c) == b;
    }
  }

  // The driver's premise: for settled contents the normal form is a fixed point, settled itself,
  // and the same for every printer.
  lemma SettledStable(env: Driver.Env, printer: Printer, other: Printer, b: Bytes)
    requires Normalises(env, printer) && PrinterOk(other) && Settled(b)
    ensures DriverProof.Stable(env, b)
    ensures Settled(env.norm(b)) && FromBytes(env.norm(b)) == FromBytes(b)
    ensures env.norm(b) == ToBytes(other, FromBytes(b))
  {
    SettledPrinted(printer, b);
    SettledSteady(b);
    SteadyHash(printer, other, FromBytes(b));
  }

  // And it is what the document holds: after a commit of the file every read gives its content,
  // the stored hash is that of the normal form, and so are the bytes written at a checkout.
  lemma SettledCommit(env: Driver.Env, a: Printer, c: Printer, order: Order, e: Entry, docs: map<DocId, Bytes>, b: Bytes)
    requires Normalises(env, a) && PrinterOk(c) && OrderOk(order) && Settled(b)
    requires CommitEntries.EntryHolds(e, docs, FromBytes(b)) && e.hash == Some(ToHash(c, FromBytes(b)))
    ensures ReadContent(order, e, docs) == Some(FromBytes(b))
    ensures e.hash == Some(HashOf(env.norm(b))) && ToBytes(c, FromBytes(b)) == env.norm(b)
  {
    SettledStable(env, a, c, b);
    CommitEntries.CommittedReadBack(order, e, docs, FromBytes(b));
    SettledSteady(b);
  }

  // So in every run in which users write settled files, all stored contents are normal forms and
  // every pending file has its normal form in the history.
  lemma SettledRunKeeps(env: Driver.Env, printer: Printer, s: Driver.State, events: seq<DriverProof.Event>)
    requires Normalises(env, printer) && DriverProof.Inv(env, s)
    requires forall i :: 0 <= i < |events| && events[i].Move? ==> DriverProof.Normal(env, events[i].files)
    requires forall i :: 0 <= i < |events| && events[i].UserWrite? && events[i].content.Some? ==> Settled(events[i].content.value)
    ensures DriverProof.Inv(env, DriverProof.Run(env, s, events))
  {
    forall i | 0 <= i < |events| ensures DriverProof.Enabled(env, events[i]) {
      if events[i].UserWrite? && events[i].content.Some? { SettledStable(env, printer, printer, events[i].content.value); }
    }
    DriverProof.RunKeeps(env, s, events);
  }
}
