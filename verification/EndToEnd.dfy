/** From the bytes a child writes to what its clients see. */
module EndToEnd {
  // The reader, the session and its connections put together: how the bytes were read and gathered leaves no
  // trace.

  import opened Options
  import opened Scanner
  import opened Utf8
  import opened Windows
  import opened Bounds
  import opened ListSnapshot
  import opened Terminal
  import opened Marker
  import opened Session
  import opened SnapshotCache
  import Resume

  // ---- The state machine of the connections has the session's journal ------------------------------------

  /** What `attach` reads, and the events, in terms of the texts appended. */
  lemma StateMeaning<S>(vt: Vt<S>, cols: nat, rows: nat, marking: Option<Marking>, fails: bool, inputs: seq<Input<S>>,
      after: nat)
    requires MarkingOk(marking)
    ensures var start := Start(vt, cols, rows, marking, fails); var texts := TextsOf(inputs);
            var r := StateOf(AfterAll(vt, start, inputs), after);
            && r.number == |texts| && r.chunks == Newer(Resume.WindowOf(texts), after)
            && r.output == Tail(VisibleAll(marking, texts), PTY_OUTPUT_MAX_CHARS)
            && Published(vt, start, inputs) == Numbered(0, texts)
  {
    JournalDependsOnTexts(vt, Start(vt, cols, rows, marking, fails), inputs);
    JournalMeaning(marking, TextsOf(inputs));
  }

  /** An attach of the state machine reads the state of the session whose texts its journal has. */
  lemma AttachReadsTheSession<S>(vt: Vt<S>, cols: nat, rows: nat, marking: Option<Marking>, fails: bool,
      inputs: seq<Input<S>>, s: Resume.State, c: Resume.Id, after: nat)
    requires MarkingOk(marking) && s.journal == TextsOf(inputs) && Resume.Enabled(s, Resume.AttachRead(c, after))
    ensures var t := Resume.Next(s, Resume.AttachRead(c, after));
            var r := StateOf(AfterAll(vt, Start(vt, cols, rows, marking, fails), inputs), after);
            t.conns[c].answer == Some(Resume.ReplyFrame(after, r.number, r.chunks))
  {
    StateMeaning(vt, cols, rows, marking, fails, inputs, after);
  }

  lemma SliceIsPart(journal: seq<Text>, a: nat, b: nat)
    requires a <= b <= |journal|
    ensures Resume.Slice(journal, a, b) == Numbered(0, journal)[a..b]
  {
    Resume.SliceLength(journal, a, b);
    forall i: nat | i < b - a ensures Resume.Slice(journal, a, b)[i] == Numbered(0, journal)[a..b][i] {
      Resume.SliceAt(journal, a, b, i);
      NumberedAt(0, journal, a + i);
    }
  }

  /** A client holds a stretch of the events the session has published, without a gap. */
  lemma ClientHoldsEvents<S>(vt: Vt<S>, cols: nat, rows: nat, marking: Option<Marking>, fails: bool,
      inputs: seq<Input<S>>, actions: seq<Resume.Action>, c: Resume.Id, f: Resume.Frame, t: nat)
    requires MarkingOk(marking) && Resume.Run(Resume.START, actions).journal == TextsOf(inputs)
    requires var s := Resume.Run(Resume.START, actions);
             Resume.Answered(s, c, f) && t <= |s.conns[c].sent| && f.after <= f.upTo
    ensures var s := Resume.Run(Resume.START, actions);
            var events := Published(vt, Start(vt, cols, rows, marking, fails), inputs);
            && f.upTo <= |s.journal|
            && Resume.StartOf(s.journal, f) <= Resume.GotUpTo(s, c, f, t) <= |events|
            && Resume.Got(s, c, f, t) == events[Resume.StartOf(s.journal, f)..Resume.GotUpTo(s, c, f, t)]
  {
    var s := Resume.Run(Resume.START, actions);
    StateMeaning(vt, cols, rows, marking, fails, inputs, 0);
    Resume.NoGapAfterAttach(actions, c, f, t);
    SliceIsPart(s.journal, Resume.StartOf(s.journal, f), Resume.GotUpTo(s, c, f, t));
  }

  // ---- Nothing of the batches is left ----------------------------------------------------------------------

  lemma {:induction false} DatasOfPart(journal: seq<Text>, a: nat, b: nat)
    requires a <= b <= |journal|
    ensures Datas(Numbered(0, journal)[a..b]) == journal[a..b]
    decreases b - a
  {
    if a < b {
      var part := Numbered(0, journal)[a..b];
      NumberedAt(0, journal, a);
      FirstOfPart(Numbered(0, journal), a, b);
      DatasOfPart(journal, a + 1, b);
      FirstOfPart(journal, a, b);
    }
  }

  lemma FirstOfPart<T>(s: seq<T>, a: nat, b: nat)
    requires a < b <= |s|
    ensures s[a..b] == [s[a]] + s[a + 1..b] && s[a..b][1..] == s[a + 1..b]
  {
    assert s[a..b][0] == s[a];
  }

  lemma {:induction false} ConcatJoins(a: seq<Text>, b: seq<Text>)
    ensures Concat(a + b) == Concat(a) + Concat(b)
  {
    if a == [] {
      assert a + b == b;
    } else {
      assert (a + b)[1..] == a[1..] + b;
      ConcatJoins(a[1..], b);
      Associates(a[0], Concat(a[1..]), Concat(b));
    }
  }

  lemma ConcatInThree(texts: seq<Text>, a: nat, b: nat)
    requires a <= b <= |texts|
    ensures Concat(texts) == Concat(texts[..a]) + Concat(texts[a..b]) + Concat(texts[b..])
  {
    ConcatInTwo(texts, b);
    ConcatInTwo(texts[..b], a);
    assert texts[..b][..a] == texts[..a] && texts[..b][a..] == texts[a..b];
  }

  lemma ConcatInTwo(texts: seq<Text>, n: nat)
    requires n <= |texts|
    ensures Concat(texts) == Concat(texts[..n]) + Concat(texts[n..])
  {
    assert texts == texts[..n] + texts[n..];
    ConcatJoins(texts[..n], texts[n..]);
  }

  /** The texts are the decoding of the bytes read, cut somehow: this is what the reader appends. */
  ghost predicate TextsFrom(read: seq<byte>, texts: seq<Text>) {
    Concat(texts) == Decode(read).out
  }

  /** A client holds the text of entries a + 1 to b. */
  ghost predicate HoldsPart(read: seq<byte>, journal: seq<Text>, a: nat, b: nat, held: Text) {
    && a <= b <= |journal|
    && Decode(read).out == Concat(journal[..a]) + held + Concat(journal[b..])
    && (a == 0 && b == |journal| ==> held == Decode(read).out)
  }

  /** What a client holds is a stretch of the decoding of the bytes read.  It starts at the beginning if
      nothing had been left behind, and it is complete once the client has got to the end. */
  lemma ClientHoldsDecoding(read: seq<byte>, actions: seq<Resume.Action>, c: Resume.Id, f: Resume.Frame, t: nat)
    requires var s := Resume.Run(Resume.START, actions);
             && TextsFrom(read, s.journal)
             && Resume.Answered(s, c, f) && t <= |s.conns[c].sent| && f.after <= f.upTo
    ensures var s := Resume.Run(Resume.START, actions);
            && f.upTo <= |s.journal|
            && HoldsPart(read, s.journal, Resume.StartOf(s.journal, f), Resume.GotUpTo(s, c, f, t),
                         Concat(Datas(Resume.Got(s, c, f, t))))
  {
    var s := Resume.Run(Resume.START, actions);
    Resume.NoGapAfterAttach(actions, c, f, t);
    var a, b := Resume.StartOf(s.journal, f), Resume.GotUpTo(s, c, f, t);
    SliceIsPart(s.journal, a, b);
    DatasOfPart(s.journal, a, b);
    ConcatInThree(s.journal, a, b);
    WholeIsOne(s.journal, a, b);
  }

  lemma WholeIsOne(journal: seq<Text>, a: nat, b: nat)
    requires a <= b <= |journal|
    ensures a == 0 && b == |journal| ==> journal[a..b] == journal
  {
  }

  /** What of a whole text is to be seen. */
  ghost function Shown(marking: Option<Marking>, text: Text): Text
    requires MarkingOk(marking)
  {
    if marking.None? then text else Strip(text, marking.value.prefix).visible
  }

  /** No launch marker is looked for, or none that cutting could hide. */
  ghost predicate Harmless(marking: Option<Marking>, text: Text) {
    marking.Some? ==>
      marking.value == Marking(marking.value.prefix, [], false) && |marking.value.prefix| > 0
      && !CutsMatter(text, marking.value.prefix)
  }

  lemma VisibleOfWhole(marking: Option<Marking>, texts: seq<Text>)
    requires MarkingOk(marking) && Harmless(marking, Concat(texts))
    ensures VisibleAll(marking, texts) == Shown(marking, Concat(texts))
  {
    if marking.Some? {
      HarmlessCuts(marking.value.prefix, texts);
    }
  }

  // ---- The screen -------------------------------------------------------------------------------------------

  lemma BytesOfOne(op: PendingOp)
    ensures BytesOf([op]) == if op.Data? then Encode(op.data) else []
  {
    var none: seq<PendingOp> := [];
    assert none + [op] == [op];
    BytesSnoc(none, op);
    assert op.Data? ==> [] + Encode(op.data) == Encode(op.data);
  }

  lemma AskedOfBytes<S>(m: Option<Marking>, status: Status, input: Input<S>)
    requires MarkingOk(m)
    ensures BytesOf(AskedOf(m, status, input)) == if input.Append? then Encode(VisibleOf(m, input.data)) else []
  {
    if input.Append? && VisibleOf(m, input.data) != [] {
      BytesOfOne(Data(VisibleOf(m, input.data)));
    } else if input.AskResize? {
      BytesOfOne(Resize(input.newCols, input.newRows));
    }
  }

  lemma VisibleBytesStep(m: Option<Marking>, texts: seq<Text>)
    requires MarkingOk(m) && texts != []
    ensures Encode(VisibleAll(m, texts)) ==
            Encode(VisibleOf(m, texts[0])) + Encode(VisibleAll(MarkedAfter(m, texts[0]), texts[1..]))
  {
    VisibleAllStep(m, texts);
    EncodeConcat(VisibleOf(m, texts[0]), VisibleAll(MarkedAfter(m, texts[0]), texts[1..]));
  }

  /** All bytes shown are those of the visible text, sizes or not. */
  lemma {:induction false} AskedBytes<S>(m: Option<Marking>, status: Status, inputs: seq<Input<S>>)
    requires MarkingOk(m)
    ensures BytesOf(AskedBy(m, status, inputs)) == Encode(VisibleAll(m, TextsOf(inputs)))
    decreases |inputs|
  {
    if inputs == [] {
      assert VisibleAll(m, []) == [];
    } else {
      var input := inputs[0];
      var next := if input.Append? then MarkedAfter(m, input.data) else m;
      var later := if input.ChildExit? then Exited else status;
      AskedBytes(next, later, inputs[1..]);
      BytesJoin(AskedOf(m, status, input), AskedBy(next, later, inputs[1..]));
      AskedOfBytes(m, status, input);
      TextsOfParts(inputs);
      if input.Append? {
        VisibleBytesStep(m, TextsOf(inputs));
      }
    }
  }

  predicate OnlyText(ops: seq<PendingOp>) {
    forall i | 0 <= i < |ops| :: ops[i].Data?
  }

  /** Text alone is processed as one piece. */
  lemma {:induction false} ReplayText<S(!new)>(vt: Vt<S>, s: S, ops: seq<PendingOp>)
    requires Streams(vt) && OnlyText(ops)
    ensures Replay(vt, s, ops) == if ops == [] then s else vt.process(s, BytesOf(ops))
  {
    if ops != [] {
      var front, last := ops[..|ops| - 1], ops[|ops| - 1];
      ReplayText(vt, s, front);
      if front == [] {
        assert BytesOf(front) + Encode(last.data) == Encode(last.data);
      }
    }
  }

  lemma OnlyTextJoins(a: seq<PendingOp>, b: seq<PendingOp>)
    requires OnlyText(a) && OnlyText(b)
    ensures OnlyText(a + b)
  {
  }

  lemma {:induction false} AskedIsText<S>(m: Option<Marking>, status: Status, inputs: seq<Input<S>>)
    requires MarkingOk(m) && forall i | 0 <= i < |inputs| :: !inputs[i].AskResize?
    ensures OnlyText(AskedBy(m, status, inputs))
    decreases |inputs|
  {
    if inputs != [] {
      var input := inputs[0];
      var next := if input.Append? then MarkedAfter(m, input.data) else m;
      var later := if input.ChildExit? then Exited else status;
      AskedIsText(next, later, inputs[1..]);
      OnlyTextJoins(AskedOf(m, status, input), AskedBy(next, later, inputs[1..]));
    }
  }

  /** Text that is recorded is not empty. */
  predicate Shows(op: PendingOp) {
    op.Data? ==> op.data != []
  }

  lemma {:induction false} AskedIsShown<S>(m: Option<Marking>, status: Status, inputs: seq<Input<S>>)
    requires MarkingOk(m)
    ensures forall op | op in AskedBy(m, status, inputs) :: Shows(op)
    decreases |inputs|
  {
    if inputs != [] {
      var input := inputs[0];
      var next := if input.Append? then MarkedAfter(m, input.data) else m;
      var later := if input.ChildExit? then Exited else status;
      AskedIsShown(next, later, inputs[1..]);
    }
  }

  /** No text is asked for exactly when none is visible. */
  lemma NothingAsked(ops: seq<PendingOp>, text: Text)
    requires OnlyText(ops) && BytesOf(ops) == Encode(text) && forall op | op in ops :: Shows(op)
    ensures ops == [] <==> text == []
  {
    EncodeLength(text);
    if ops != [] {
      assert Shows(ops[|ops| - 1]);
      EncodeLength(ops[|ops| - 1].data);
    }
  }

  /** From bytes to a session: for all ways to read, gather and append the same bytes, the output window is
      the end of what their decoding shows, and the screen, while it is valid and has not been resized, is
      that of a terminal which has been given it all at once. */
  lemma BytesDecide<S(!new)>(vt: Vt<S>, cols: nat, rows: nat, marking: Option<Marking>, fails: bool,
      inputs: seq<Input<S>>, read: seq<byte>)
    requires Streams(vt) && MarkingOk(marking)
    requires TextsFrom(read, TextsOf(inputs)) && Harmless(marking, Decode(read).out)
    ensures var c := AfterAll(vt, Start(vt, cols, rows, marking, fails), inputs);
            var shown := Shown(marking, Decode(read).out);
            && c.journal.output == Tail(shown, PTY_OUTPUT_MAX_CHARS)
            && (c.cache.valid && (forall i | 0 <= i < |inputs| :: !inputs[i].AskResize?) ==>
                  c.cache.screen == if shown == [] then vt.blank(cols, rows)
                                    else vt.process(vt.blank(cols, rows), Encode(shown)))
  {
    var start := Start(vt, cols, rows, marking, fails);
    JournalDependsOnTexts(vt, start, inputs);
    JournalMeaning(marking, TextsOf(inputs));
    VisibleOfWhole(marking, TextsOf(inputs));
    if AfterAll(vt, start, inputs).cache.valid && forall i | 0 <= i < |inputs| :: !inputs[i].AskResize? {
      SessionFollows(vt, cols, rows, marking, fails, inputs);
      AskedIsText(marking, Running, inputs);
      AskedBytes(marking, Running, inputs);
      AskedIsShown(marking, Running, inputs);
      NothingAsked(AskedBy(marking, Running, inputs), Shown(marking, Decode(read).out));
      ReplayText(vt, vt.blank(cols, rows), AskedBy(marking, Running, inputs));
    }
  }

  // ---- Snapshot and events -------------------------------------------------------------------------------------

  function AsOps(texts: seq<Text>): seq<PendingOp> {
    if texts == [] then [] else [Data(texts[0])] + AsOps(texts[1..])
  }

  /** Without a launch marker and without resizes, a session is asked to show its texts, one by one. */
  lemma {:induction false} AskedIsTexts<S>(status: Status, inputs: seq<Input<S>>)
    requires forall i | 0 <= i < |inputs| :: !inputs[i].AskResize? && (inputs[i].Append? ==> inputs[i].data != [])
    ensures AskedBy(None, status, inputs) == AsOps(TextsOf(inputs))
    decreases |inputs|
  {
    if inputs != [] {
      AskedIsTexts(if inputs[0].ChildExit? then Exited else status, inputs[1..]);
      TextsOfParts(inputs);
    }
  }

  lemma TextsOfHead<S>(inputs: seq<Input<S>>)
    requires inputs != []
    ensures TextsOf(inputs) == (if inputs[0].Append? then [inputs[0].data] else []) + TextsOf(inputs[1..])
  {
  }

  lemma {:induction false} TextsOfConcat<S>(a: seq<Input<S>>, b: seq<Input<S>>)
    ensures TextsOf(a + b) == TextsOf(a) + TextsOf(b)
    decreases |a|
  {
    if a == [] {
      assert a + b == b;
    } else {
      var head: seq<Text> := if a[0].Append? then [a[0].data] else [];
      TextsOfHead(a);
      TextsOfHead(a + b);
      assert (a + b)[1..] == a[1..] + b && (a + b)[0] == a[0];
      TextsOfConcat(a[1..], b);
      Associates(head, TextsOf(a[1..]), TextsOf(b));
    }
  }

  lemma {:induction false} MarkingStays<S>(vt: Vt<S>, c: Core<S>, inputs: seq<Input<S>>)
    requires c.journal.marking.None?
    ensures AfterAll(vt, c, inputs).journal.marking.None?
    decreases |inputs|
  {
    if inputs != [] {
      MarkingStays(vt, Transition(vt, c, inputs[0]), inputs[1..]);
    }
  }

  /** What a client does with the Data events beyond its answer: it writes their data, one by one. */
  function EventOps(s: Resume.State, c: Resume.Id, f: Resume.Frame, t: nat): seq<PendingOp>
    requires Resume.Answered(s, c, f) && t <= |s.conns[c].sent|
  {
    AsOps(Datas(Resume.DataAfter(s.conns[c].sent[..t], f.upTo)))
  }

  lemma RunIsRest(journal: seq<Text>, upTo: nat, events: seq<Chunk>)
    requires Resume.IsRun(journal, upTo, events) && upTo + |events| == |journal|
    ensures Datas(events) == journal[upTo..]
  {
    SliceIsPart(journal, upTo, |journal|);
    DatasOfPart(journal, upTo, |journal|);
    assert journal[upTo..|journal|] == journal[upTo..];
  }

  /** Once a client has got them all, the events beyond an answer are the rest of the journal. */
  lemma EventsAreRest(s: Resume.State, c: Resume.Id, f: Resume.Frame, t: nat)
    requires Resume.Inv(s) && Resume.Answered(s, c, f) && t <= |s.conns[c].sent|
    requires f.upTo <= |s.journal| && Resume.GotUpTo(s, c, f, t) == |s.journal|
    ensures EventOps(s, c, f, t) == AsOps(s.journal[f.upTo..])
  {
    Resume.AnswerAndEvents(s, c, f, t);
    RunIsRest(s.journal, f.upTo, Resume.DataAfter(s.conns[c].sent[..t], f.upTo));
  }

  lemma RestIsLater<S>(before: seq<Input<S>>, later: seq<Input<S>>)
    ensures |TextsOf(before)| <= |TextsOf(before + later)|
    ensures TextsOf(before + later)[|TextsOf(before)|..] == TextsOf(later)
  {
    TextsOfConcat(before, later);
  }

  /** Attach is enough: a client applies the snapshot that was read with the answer, writes the data of every
      event beyond it, and sees the live screen.  (Without a launch marker and without resizes, which the
      client makes itself.) */
  lemma AttachIsEnough<S(!new)>(vt: Vt<S>, same: (S, S) -> bool, cols: nat, rows: nat,
      before: seq<Input<S>>, later: seq<Input<S>>, actions: seq<Resume.Action>, c: Resume.Id, f: Resume.Frame, t: nat)
    requires Streams(vt) && KeepsSize(vt) && Respected(vt, same)
    requires RestoresBase(vt, same, AfterAll(vt, Start(vt, cols, rows, None, false), before).cache)
    requires forall i | 0 <= i < |later| :: !later[i].AskResize? && (later[i].Append? ==> later[i].data != [])
    requires var s := Resume.Run(Resume.START, actions);
             && s.journal == TextsOf(before + later) && Resume.Answered(s, c, f) && t <= |s.conns[c].sent|
             && f.after <= f.upTo == |TextsOf(before)| && Resume.GotUpTo(s, c, f, t) == |s.journal|
    ensures var start := Start(vt, cols, rows, None, false);
            var d := AfterAll(vt, start, before); var k := AfterAll(vt, start, before + later).cache;
            var s := StateOf(d, f.after).terminalSnapshot;
            k.valid ==>
              && s.Some?
              && same(Replay(vt, ClientScreen(vt, s.value),
                             EventOps(Resume.Run(Resume.START, actions), c, f, t)), k.screen)
  {
    var d := AfterAll(vt, Start(vt, cols, rows, None, false), before);
    ClientGoesOn(vt, same, cols, rows, None, false, before, later, f.after);
    MarkingStays(vt, Start(vt, cols, rows, None, false), before);
    AskedIsTexts(d.status, later);
    Resume.RunKeepsInv(Resume.START, actions);
    RestIsLater(before, later);
    EventsAreRest(Resume.Run(Resume.START, actions), c, f, t);
  }
}
