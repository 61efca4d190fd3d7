/** What the answer to an attach tells about a session, in terms of its inputs. */
module AttachAnswer {
  import opened Options
  import opened Scanner
  import opened Utf8
  import opened Windows
  import opened Bounds
  import opened ListSnapshot
  import opened Terminal
  import opened Session
  import opened SnapshotCache
  import DecMode

  // ---- Status and size ------------------------------------------------------------------------------------

  predicate ExitAt<S>(inputs: seq<Input<S>>, i: nat) {
    i < |inputs| && inputs[i].ChildExit?
  }

  /** A request for a good size, while the child runs. */
  predicate ResizeAt<S>(inputs: seq<Input<S>>, i: nat) {
    && i < |inputs| && inputs[i].AskResize?
    && 1 <= inputs[i].newCols <= 1024 && 1 <= inputs[i].newRows <= 512
    && inputs[i].newCols * inputs[i].newRows <= 500_000
    && forall j: nat | j < i :: !ExitAt(inputs, j)
  }

  /** Exited after the first exit of the child, with the code of the last. */
  ghost predicate ExitTold<S>(inputs: seq<Input<S>>, status: Status, code: Option<int>) {
    && (status == Exited <==> exists i: nat :: ExitAt(inputs, i))
    && (status == Running ==> code == None)
    && forall i: nat | ExitAt(inputs, i) && (forall j: nat | j > i :: !ExitAt(inputs, j)) :: code == inputs[i].code
  }

  /** The last good size asked for while the child ran, or else the size at the start. */
  ghost predicate SizeTold<S>(inputs: seq<Input<S>>, cols: nat, rows: nat, nowCols: nat, nowRows: nat) {
    && ((forall i: nat :: !ResizeAt(inputs, i)) ==> (nowCols, nowRows) == (cols, rows))
    && forall i: nat | ResizeAt(inputs, i) && (forall j: nat | j > i :: !ResizeAt(inputs, j)) ::
         (nowCols, nowRows) == (inputs[i].newCols, inputs[i].newRows)
  }

  lemma AfterSnoc<S>(vt: Vt<S>, c: Core<S>, front: seq<Input<S>>, last: Input<S>)
    requires MarkingOk(c.journal.marking)
    ensures AfterAll(vt, c, front + [last]) == Transition(vt, AfterAll(vt, c, front), last)
  {
    AfterAllSplit(vt, c, front, [last]);
    assert [last][1..] == [];
  }

  lemma ExitSnoc<S>(front: seq<Input<S>>, last: Input<S>, status: Status, code: Option<int>)
    requires ExitTold(front, status, code)
    ensures ExitTold(front + [last], if last.ChildExit? then Exited else status,
                     if last.ChildExit? then last.code else code)
  {
    var all := front + [last];
    forall i: nat ensures ExitAt(all, i) <==> ExitAt(front, i) || (i == |front| && last.ChildExit?) {
    }
    if last.ChildExit? {
      assert ExitAt(all, |front|);
    }
  }

  predicate AcceptedLast<S>(last: Input<S>, status: Status) {
    last.AskResize? && SizeOk(last.newCols, last.newRows) && status == Running
  }

  lemma ResizeSnoc<S>(front: seq<Input<S>>, last: Input<S>, status: Status, code: Option<int>, i: nat)
    requires ExitTold(front, status, code)
    ensures ResizeAt(front + [last], i) <==> ResizeAt(front, i) || (i == |front| && AcceptedLast(last, status))
  {
    var all := front + [last];
    assert forall j: nat | j < |front| :: ExitAt(all, j) <==> ExitAt(front, j);
    if i == |front| && status == Running {
      assert forall j: nat :: !ExitAt(front, j);
    } else if i == |front| {
      var j: nat :| ExitAt(front, j);
      assert ExitAt(all, j);
    }
  }

  lemma SizeSnoc<S>(front: seq<Input<S>>, last: Input<S>, status: Status, code: Option<int>,
      cols: nat, rows: nat, nowCols: nat, nowRows: nat)
    requires ExitTold(front, status, code) && SizeTold(front, cols, rows, nowCols, nowRows)
    ensures var accepted := AcceptedLast(last, status);
            SizeTold(front + [last], cols, rows, if accepted then last.newCols else nowCols,
                     if accepted then last.newRows else nowRows)
  {
    var all := front + [last];
    forall i: nat ensures ResizeAt(all, i) <==> ResizeAt(front, i) || (i == |front| && AcceptedLast(last, status)) {
      ResizeSnoc(front, last, status, code, i);
    }
    if AcceptedLast(last, status) {
      assert ResizeAt(all, |front|);
    }
  }

  lemma ToldByLast<S>(vt: Vt<S>, c: Core<S>, front: seq<Input<S>>, last: Input<S>, cols: nat, rows: nat)
    requires MarkingOk(c.journal.marking)
    requires ExitTold(front, c.status, c.exitCode) && SizeTold(front, cols, rows, c.cols, c.rows)
    ensures var d := Transition(vt, c, last);
            ExitTold(front + [last], d.status, d.exitCode) && SizeTold(front + [last], cols, rows, d.cols, d.rows)
  {
    ExitSnoc(front, last, c.status, c.exitCode);
    SizeSnoc(front, last, c.status, c.exitCode, cols, rows, c.cols, c.rows);
  }

  lemma {:induction false} ToldByInputs<S>(
      vt: Vt<S>, cols: nat, rows: nat, marking: Option<Marking>, fails: bool, inputs: seq<Input<S>>)
    requires MarkingOk(marking)
    ensures var c := AfterAll(vt, Start(vt, cols, rows, marking, fails), inputs);
            ExitTold(inputs, c.status, c.exitCode) && SizeTold(inputs, cols, rows, c.cols, c.rows)
  {
    var start := Start(vt, cols, rows, marking, fails);
    if inputs != [] {
      var front, last := inputs[..|inputs| - 1], inputs[|inputs| - 1];
      assert inputs == front + [last];
      ToldByInputs(vt, cols, rows, marking, fails, front);
      AfterSnoc(vt, start, front, last);
      ToldByLast(vt, AfterAll(vt, start, front), front, last, cols, rows);
    }
  }

  // ---- The whole answer -------------------------------------------------------------------------------------

  /** Number, output and chunks are those of the texts; status, code and size those of the inputs. */
  ghost predicate JournalTold(marking: Option<Marking>, texts: seq<Text>, after: nat, r: SessionState)
    requires MarkingOk(marking)
  {
    && r.number == |texts|
    && r.output == Tail(VisibleAll(marking, texts), 200_000)
    && r.chunks == Newer(Fit(StoredAll(Numbered(0, texts), 200_000), Chars, 200_000), after)
  }

  /** The snapshot renders the screen after the first n operations, and the rest is pending. */
  ghost predicate SnapshotSplits<S>(vt: Vt<S>, blank: S, all: seq<PendingOp>, s: Snapshot, n: nat) {
    && n <= |all|
    && s.(pending := []) == Baseline(vt, Replay(vt, blank, all[..n]), AutowrapAfter(all[..n]))
    && Units(s.pending) == Units(all[n..]) && Joined(s.pending)
  }

  ghost predicate Splits<S>(vt: Vt<S>, blank: S, all: seq<PendingOp>, s: Snapshot) {
    exists n: nat :: SnapshotSplits(vt, blank, all, s, n)
  }

  lemma AnswerSplits<S>(vt: Vt<S>, blank: S, all: seq<PendingOp>, c: Core<S>, after: nat)
    requires Good(vt, c.cache) && Follows(vt, blank, all, c.cache) && c.cache.valid
    ensures StateOf(c, after).terminalSnapshot.Some?
    ensures Splits(vt, blank, all, StateOf(c, after).terminalSnapshot.value)
  {
    FollowsSplits(vt, blank, all, c.cache);
    var s := StateOf(c, after).terminalSnapshot.value;
    assert s.(pending := []) == c.cache.baseline;
    assert SnapshotSplits(vt, blank, all, s, |all| - |c.cache.history.ops|);
  }

  /** Whatever has happened to a session: every field of the answer to an attach, from its inputs. */
  lemma AttachTells<S>(vt: Vt<S>, cols: nat, rows: nat, marking: Option<Marking>, fails: bool,
      inputs: seq<Input<S>>, after: nat)
    requires MarkingOk(marking)
    ensures var c := AfterAll(vt, Start(vt, cols, rows, marking, fails), inputs); var r := StateOf(c, after);
            && JournalTold(marking, TextsOf(inputs), after, r)
            && ExitTold(inputs, r.status, r.exitCode) && SizeTold(inputs, cols, rows, r.cols, r.rows)
            && (r.terminalSnapshot.Some? <==> c.cache.valid)
            && (r.terminalSnapshot.Some? ==>
                  Splits(vt, vt.blank(cols, rows), AskedBy(marking, Running, inputs), r.terminalSnapshot.value))
  {
    var start := Start(vt, cols, rows, marking, fails);
    var c := AfterAll(vt, start, inputs);
    JournalDependsOnTexts(vt, start, inputs);
    JournalMeaning(marking, TextsOf(inputs));
    ToldByInputs(vt, cols, rows, marking, fails, inputs);
    EveryStateIsGood(vt, cols, rows, marking, fails, inputs);
    SessionFollows(vt, cols, rows, marking, fails, inputs);
    if c.cache.valid {
      AnswerSplits(vt, vt.blank(cols, rows), AskedBy(marking, Running, inputs), c, after);
    }
  }

  // ---- Autowrap ----------------------------------------------------------------------------------------------

  /** How a terminal that starts with autowrap on is set after these bytes. */
  function AutowrapOf(bytes: seq<byte>): bool {
    DecMode.Latest(DecMode.ScanBytes(bytes).out, true)
  }

  /** What is rendered sets autowrap as asked, and ends outside of any mode sequence. */
  ghost predicate RendersAutowrap<S(!new)>(vt: Vt<S>) {
    forall s: S, autowrap: bool ::
      && AutowrapOf(Encode(vt.render(s, autowrap))) == autowrap
      && DecMode.ScanBytes(Encode(vt.render(s, autowrap))).tail == []
  }

  function UnitBytes(us: seq<Unit>): seq<byte> {
    if us == [] then []
    else UnitBytes(us[..|us| - 1]) + (if us[|us| - 1].CharUnit? then EncodeScalar(us[|us| - 1].c) else [])
  }

  lemma {:induction false} UnitBytesJoin(a: seq<Unit>, b: seq<Unit>)
    ensures UnitBytes(a + b) == UnitBytes(a) + UnitBytes(b)
    decreases |b|
  {
    if b == [] {
      assert a + b == a && UnitBytes(a) + [] == UnitBytes(a);
    } else {
      var front := b[..|b| - 1];
      assert (a + b)[..|a + b| - 1] == a + front;
      UnitBytesJoin(a, front);
    }
  }

  lemma {:induction false} UnitBytesOfText(t: Text)
    ensures UnitBytes(TextUnits(t)) == Encode(t)
    decreases |t|
  {
    if t != [] {
      var front, last := t[..|t| - 1], t[|t| - 1];
      assert TextUnits(t)[..|t| - 1] == TextUnits(front);
      UnitBytesOfText(front);
      assert t == front + [last];
      EncodeConcat(front, [last]);
      assert [last][1..] == [] && Encode([last]) == EncodeScalar(last) + [];
    }
  }

  lemma {:induction false} BytesAreUnits(ops: seq<PendingOp>)
    ensures BytesOf(ops) == UnitBytes(Units(ops))
  {
    if ops != [] {
      var front, last := ops[..|ops| - 1], ops[|ops| - 1];
      BytesAreUnits(front);
      UnitBytesJoin(Units(front), OpUnits(last));
      if last.Data? {
        UnitBytesOfText(last.data);
      } else {
        assert UnitBytes([SizeUnit(last.cols, last.rows)]) == [] by {
          assert [SizeUnit(last.cols, last.rows)][..0] == [];
        }
      }
    }
  }

  lemma AutowrapAfterMore(a: seq<byte>, b: seq<byte>)
    requires DecMode.ScanBytes(a).tail == []
    ensures AutowrapOf(a + b) == DecMode.Latest(DecMode.ScanBytes(b).out, AutowrapOf(a))
  {
    DecMode.NextAdvances();
    DecMode.NextIsStable();
    ScanSplit(DecMode.Next, a, b);
    assert [] + b == b;
    DecMode.LatestAppend(DecMode.ScanBytes(a).out, DecMode.ScanBytes(b).out, true);
  }

  lemma AutowrapGoesOn(first: seq<byte>, data: seq<byte>, rest: seq<byte>)
    requires DecMode.ScanBytes(first).tail == [] && DecMode.ScanBytes(data).tail == []
    requires AutowrapOf(data) == AutowrapOf(first)
    ensures AutowrapOf(data + rest) == AutowrapOf(first + rest)
  {
    AutowrapAfterMore(first, rest);
    AutowrapAfterMore(data, rest);
  }

  lemma SameUnitsSameBytes(a: seq<PendingOp>, b: seq<PendingOp>)
    requires Units(a) == Units(b)
    ensures BytesOf(a) == BytesOf(b)
  {
    BytesAreUnits(a);
    BytesAreUnits(b);
  }

  lemma BytesInTwo(all: seq<PendingOp>, n: nat)
    requires n <= |all|
    ensures BytesOf(all) == BytesOf(all[..n]) + BytesOf(all[n..])
  {
    assert all == all[..n] + all[n..];
    BytesJoin(all[..n], all[n..]);
  }

  /** A client's terminal, which reads the data of a snapshot and then what is pending, is set as that of the
      session, unless a mode sequence had been read halfway when the baseline was taken. */
  lemma SnapshotAutowrap<S(!new)>(vt: Vt<S>, blank: S, all: seq<PendingOp>, s: Snapshot, n: nat)
    requires RendersAutowrap(vt) && SnapshotSplits(vt, blank, all, s, n)
    requires DecMode.ScanBytes(BytesOf(all[..n])).tail == []
    ensures AutowrapOf(Encode(s.data) + BytesOf(s.pending)) == AutowrapAfter(all)
  {
    var screen, on := Replay(vt, blank, all[..n]), AutowrapAfter(all[..n]);
    assert s.data == vt.render(screen, on);
    SameUnitsSameBytes(s.pending, all[n..]);
    BytesInTwo(all, n);
    AutowrapGoesOn(BytesOf(all[..n]), Encode(vt.render(screen, on)), BytesOf(all[n..]));
  }

  ghost predicate SetAsSession<S>(vt: Vt<S>, blank: S, all: seq<PendingOp>, s: Snapshot, n: nat) {
    && SnapshotSplits(vt, blank, all, s, n)
    && (DecMode.ScanBytes(BytesOf(all[..n])).tail == [] ==>
          AutowrapOf(Encode(s.data) + BytesOf(s.pending)) == AutowrapAfter(all))
  }

  /** So it is in every state of every session. */
  lemma ClientHasAutowrap<S(!new)>(vt: Vt<S>, cols: nat, rows: nat, marking: Option<Marking>, fails: bool,
      inputs: seq<Input<S>>, after: nat)
    requires MarkingOk(marking) && RendersAutowrap(vt)
    ensures var c := AfterAll(vt, Start(vt, cols, rows, marking, fails), inputs);
            var s, all := StateOf(c, after).terminalSnapshot, AskedBy(marking, Running, inputs);
            s.Some? ==>
              && c.cache.autowrap == AutowrapAfter(all)
              && exists n: nat :: SetAsSession(vt, vt.blank(cols, rows), all, s.value, n)
  {
    var c := AfterAll(vt, Start(vt, cols, rows, marking, fails), inputs);
    var s, all := StateOf(c, after).terminalSnapshot, AskedBy(marking, Running, inputs);
    AttachTells(vt, cols, rows, marking, fails, inputs, after);
    SessionFollows(vt, cols, rows, marking, fails, inputs);
    if s.Some? {
      var n: nat :| SnapshotSplits(vt, vt.blank(cols, rows), all, s.value, n);
      if DecMode.ScanBytes(BytesOf(all[..n])).tail == [] {
        SnapshotAutowrap(vt, vt.blank(cols, rows), all, s.value, n);
      }
      assert SetAsSession(vt, vt.blank(cols, rows), all, s.value, n);
    }
  }

  /** `ESC [ ? 7 h` or `ESC [ ? 7 l`, with which a rendering ends. */
  function AutowrapSequence(on: bool): seq<byte> {
    [0x1B, 0x5B, 0x3F, 0x37, if on then 0x68 else 0x6C]
  }

  lemma SequenceSets(on: bool, before: bool)
    ensures var m := AutowrapSequence(on); DecMode.Parse(m).Mode? && DecMode.LastSet(m, before) == on
  {
    var m := AutowrapSequence(on);
    assert DecMode.ParseFrom(m, 3, 0, false, false) == DecMode.ParseFrom(m, 4, 7, true, false);
    assert DecMode.ParseFrom(m, 4, 7, true, false) == DecMode.Mode(true, m[4], 5);
    DecMode.ModeSetsOnce(m, before);
    assert m[5..] == [];
  }

  lemma {:induction false} LastSetAtEnd(a: seq<byte>, on: bool, before: bool)
    ensures DecMode.LastSet(a + AutowrapSequence(on), before) == on
    decreases |a|
  {
    var m := AutowrapSequence(on);
    if a == [] {
      assert a + m == m;
      SequenceSets(on, before);
    } else {
      assert (a + m)[1..] == a[1..] + m;
      LastSetAtEnd(a[1..], on, DecMode.SetHere(a + m, before));
    }
  }

  lemma {:induction false} TailIsEnd(s: seq<byte>)
    ensures var t := DecMode.ScanBytes(s).tail; s[|s| - |t|..] == t && DecMode.Next(t).Wait?
    decreases |s|
  {
    DecMode.NextAdvances();
    match DecMode.Next(s)
    case Wait =>
      assert s[0..] == s;
    case Take(n, out) =>
      TailIsEnd(s[n..]);
      DropDrop(s, n, |s| - n - |DecMode.ScanBytes(s[n..]).tail|);
  }

  /** Whatever comes in front, a rendering that ends so sets autowrap and leaves nothing half-read. */
  lemma SequenceDecides(a: seq<byte>, on: bool)
    ensures AutowrapOf(a + AutowrapSequence(on)) == on
    ensures DecMode.ScanBytes(a + AutowrapSequence(on)).tail == []
  {
    var s, m := a + AutowrapSequence(on), AutowrapSequence(on);
    DecMode.ScanFindsLastSet(s, true);
    LastSetAtEnd(a, on, true);
    TailIsEnd(s);
    var t := DecMode.ScanBytes(s).tail;
    if t != [] {
      DecMode.IncompleteIsShort(t);
      TailAtSequence(a, on, t);
      SequenceSets(on, true);
    }
  }

  /** A waiting tail starts at an ESC and has no other, so it could only start at the last. */
  lemma TailAtSequence(a: seq<byte>, on: bool, t: seq<byte>)
    requires t != [] && t[0] == 0x1B && forall k | 1 <= k < |t| :: t[k] != 0x1B
    requires var s := a + AutowrapSequence(on); |t| <= |s| && s[|s| - |t|..] == t
    ensures t == AutowrapSequence(on)
  {
    var s := a + AutowrapSequence(on);
    assert forall k | 0 <= k < |t| :: t[k] == s[|s| - |t| + k];
    assert s[|a|] == 0x1B && forall k | |a| < k < |s| :: s[k] != 0x1B;
    if |t| != 5 {
      assert false;
    }
  }

  lemma PlainKeepsAutowrap(rest: seq<byte>)
    requires forall k | 0 <= k < |rest| :: rest[k] != 0x1B
    ensures AutowrapOf(AutowrapSequence(true) + rest)
  {
    SequenceDecides([], true);
    assert [] + AutowrapSequence(true) == AutowrapSequence(true);
    AutowrapAfterMore(AutowrapSequence(true), rest);
    DecMode.ScanFindsLastSet(rest, true);
    DecMode.PlainBytesSetNothing(rest, |rest|, true);
    assert rest[|rest|..] == [];
  }

  lemma HalfIsWaitedFor()
    ensures DecMode.ScanBytes([0x1B, 0x5B, 0x3F]) == Scanned([], [0x1B, 0x5B, 0x3F])
  {
    DecMode.NextAdvances();
    assert DecMode.Next([0x1B, 0x5B, 0x3F]).Wait?;
  }

  /** Otherwise it need not be: `ESC [ ?` before the baseline and `7 l` after it turn autowrap off for the session,
      and leave it on for the client, who has the sequence of the rendering in between. */
  lemma HalfReadModeIsLost()
    ensures var first, rest := [0x1B, 0x5B, 0x3F], [0x37, 0x6C];
            && AutowrapOf(first) && DecMode.ScanBytes(first).tail == first
            && !AutowrapOf(first + rest) && AutowrapOf(AutowrapSequence(true) + rest)
  {
    HalfIsWaitedFor();
    SequenceDecides([], false);
    assert [] + AutowrapSequence(false) == [0x1B, 0x5B, 0x3F] + [0x37, 0x6C];
    PlainKeepsAutowrap([0x37, 0x6C]);
  }
}
