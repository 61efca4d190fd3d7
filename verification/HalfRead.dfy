/** What a checkpoint can lose: an escape sequence that has been read halfway. */
module HalfRead {
  import opened Options
  import opened Scanner
  import opened Utf8
  import opened TerminalParser
  import opened ListSnapshot
  import opened Terminal
  import opened Session
  import opened SnapshotCache

  // ---- Terminals that restore whatever they have read completely -----------------------------------------

  /** The rendering restores the screen unless the terminal is in the middle of a sequence. */
  ghost predicate RestoresAfter<S>(vt: Vt<S>, same: (S, S) -> bool, cols: nat, rows: nat, ops: seq<PendingOp>) {
    Finished(BytesOf(ops)) ==> Restored(vt, same, Replay(vt, vt.blank(cols, rows), ops), AutowrapAfter(ops))
  }

  /** However it has got there.  (The terminal library has one exception more, the normal screen behind the
      alternate one.) */
  ghost predicate RestoresFinished<S(!new)>(vt: Vt<S>, same: (S, S) -> bool) {
    forall cols: nat, rows: nat, ops: seq<PendingOp> :: RestoresAfter(vt, same, cols, rows, ops)
  }

  /** With the first n operations in the baseline, a client sees the screen unless they end inside a sequence. */
  ghost predicate SeenIfFinished<S>(vt: Vt<S>, same: (S, S) -> bool, blank: S, all: seq<PendingOp>,
      k: Cache<S>, answer: Option<Snapshot>, n: nat)
  {
    && answer.Some? && SplitAt(vt, blank, all, k, n)
    && (Finished(BytesOf(all[..n])) ==> same(ClientScreen(vt, answer.value), k.screen))
  }

  ghost predicate IsSeenIfFinished<S>(vt: Vt<S>, same: (S, S) -> bool, blank: S, all: seq<PendingOp>,
      k: Cache<S>, answer: Option<Snapshot>)
  {
    exists n: nat :: SeenIfFinished(vt, same, blank, all, k, answer, n)
  }

  lemma BaseIsRestored<S(!new)>(vt: Vt<S>, same: (S, S) -> bool, cols: nat, rows: nat, all: seq<PendingOp>, k: Cache<S>)
    requires RestoresFinished(vt, same) && k.valid && Follows(vt, vt.blank(cols, rows), all, k)
    ensures var n := |all| - |k.history.ops|; n >= 0 && (Finished(BytesOf(all[..n])) ==> RestoresBase(vt, same, k))
  {
    var first := all[..|all| - |k.history.ops|];
    assert RestoresAfter(vt, same, cols, rows, first);
  }

  lemma FinishedBaseIsSeen<S(!new)>(vt: Vt<S>, same: (S, S) -> bool, cols: nat, rows: nat, all: seq<PendingOp>,
      c: Core<S>, s: Snapshot)
    requires Respected(vt, same) && RestoresFinished(vt, same) && s == c.cache.baseline.(pending := c.cache.pending)
    requires c.cache.valid && Good(vt, c.cache) && Agrees(vt, c) && Follows(vt, vt.blank(cols, rows), all, c.cache)
    ensures |c.cache.history.ops| <= |all|
    ensures Finished(BytesOf(all[..|all| - |c.cache.history.ops|])) ==> same(ClientScreen(vt, s), c.cache.screen)
  {
    BaseIsRestored(vt, same, cols, rows, all, c.cache);
    if RestoresBase(vt, same, c.cache) {
      ReplayedIsScreen(vt, same, c, s);
    }
  }

  lemma AnswerIsSeen<S(!new)>(vt: Vt<S>, same: (S, S) -> bool, cols: nat, rows: nat, all: seq<PendingOp>, c: Core<S>,
      after: nat)
    requires Respected(vt, same) && RestoresFinished(vt, same)
    requires c.cache.valid && Good(vt, c.cache) && Agrees(vt, c) && Follows(vt, vt.blank(cols, rows), all, c.cache)
    ensures IsSeenIfFinished(vt, same, vt.blank(cols, rows), all, c.cache, StateOf(c, after).terminalSnapshot)
  {
    var answer := StateOf(c, after).terminalSnapshot;
    FollowsSplits(vt, vt.blank(cols, rows), all, c.cache);
    FinishedBaseIsSeen(vt, same, cols, rows, all, c, answer.value);
    assert SeenIfFinished(vt, same, vt.blank(cols, rows), all, c.cache, answer, |all| - |c.cache.history.ops|);
  }

  /** In every state of every session with a valid cache, a client sees the screen if what had been shown by the
      last checkpoint does not end in the middle of a sequence. */
  lemma FinishedIsSeen<S(!new)>(vt: Vt<S>, same: (S, S) -> bool,
      cols: nat, rows: nat, marking: Option<Marking>, fails: bool, inputs: seq<Input<S>>, after: nat)
    requires Streams(vt) && KeepsSize(vt) && Respected(vt, same) && RestoresFinished(vt, same) && MarkingOk(marking)
    ensures var c := AfterAll(vt, Start(vt, cols, rows, marking, fails), inputs);
            c.cache.valid ==>
              IsSeenIfFinished(vt, same, vt.blank(cols, rows), AskedBy(marking, Running, inputs), c.cache,
                               StateOf(c, after).terminalSnapshot)
  {
    var c := AfterAll(vt, Start(vt, cols, rows, marking, fails), inputs);
    EveryStateIsGood(vt, cols, rows, marking, fails, inputs);
    SnapshotAgreesWithScreen(vt, cols, rows, marking, fails, inputs);
    SessionFollows(vt, cols, rows, marking, fails, inputs);
    if c.cache.valid {
      AnswerIsSeen(vt, same, cols, rows, AskedBy(marking, Running, inputs), c, after);
    }
  }

  // ---- Such a terminal, for which the condition is exact ---------------------------------------------------

  /** It keeps all bytes it has read. */
  datatype Screen = Screen(cols: nat, rows: nat, bytes: seq<byte>)

  /** Without the sequence that has been read halfway, if there is one. */
  function Complete(bytes: seq<byte>): (r: seq<byte>)
    ensures Finished(r) && r <= bytes
  {
    if Finished(bytes) then bytes else Complete(bytes[..|bytes| - 1])
  }

  /** Like the terminal library it renders no sequence that has been read halfway. */
  function Library(): Vt<Screen> {
    Vt((cols: nat, rows: nat) => Screen(cols, rows, []),
       (s: Screen, bytes: seq<byte>) => s.(bytes := s.bytes + bytes),
       (s: Screen, cols: nat, rows: nat) => s.(cols := cols, rows := rows),
       (s: Screen) => (s.cols, s.rows),
       (s: Screen, autowrap: bool) => Decode(Complete(s.bytes)).out)
  }

  lemma LibraryIsLawful()
    ensures Streams(Library()) && KeepsSize(Library())
  {
    forall s: Screen, a: seq<byte>, b: seq<byte>
      ensures Library().process(Library().process(s, a), b) == Library().process(s, a + b)
    {
      assert s.bytes + a + b == s.bytes + (a + b);
    }
  }

  /** The texts of the operations, joined. */
  function TextOf(ops: seq<PendingOp>): Text {
    if ops == [] then []
    else TextOf(ops[..|ops| - 1]) + (if ops[|ops| - 1].Data? then ops[|ops| - 1].data else [])
  }

  /** `bytes` of a terminal are all it has processed. */
  ghost predicate KeepsBytes<S(!new)>(vt: Vt<S>, bytes: S -> seq<byte>) {
    && (forall s, more :: bytes(vt.process(s, more)) == bytes(s) + more)
    && (forall s, cols: nat, rows: nat :: bytes(vt.setSize(s, cols, rows)) == bytes(s))
  }

  lemma {:induction false} ReplayKeepsBytes<S(!new)>(vt: Vt<S>, bytes: S -> seq<byte>, s: S, ops: seq<PendingOp>)
    requires KeepsBytes(vt, bytes)
    ensures bytes(Replay(vt, s, ops)) == bytes(s) + BytesOf(ops)
  {
    if ops == [] {
      assert bytes(s) + [] == bytes(s);
    } else {
      var front := ops[..|ops| - 1];
      ReplayKeepsBytes(vt, bytes, s, front);
      if ops[|ops| - 1].Data? {
        var more := Encode(ops[|ops| - 1].data);
        assert bytes(s) + BytesOf(front) + more == bytes(s) + (BytesOf(front) + more);
      } else {
        assert BytesOf(front) + [] == BytesOf(front);
      }
    }
  }

  lemma ReplayAddsBytes(s: Screen, ops: seq<PendingOp>)
    ensures Replay(Library(), s, ops).bytes == s.bytes + BytesOf(ops)
  {
    ReplayKeepsBytes(Library(), (s: Screen) => s.bytes, s, ops);
  }

  lemma {:induction false} BytesAreText(ops: seq<PendingOp>)
    ensures BytesOf(ops) == Encode(TextOf(ops))
  {
    if ops != [] {
      var front, last := ops[..|ops| - 1], ops[|ops| - 1];
      BytesAreText(front);
      if last.Data? {
        EncodeConcat(TextOf(front), last.data);
      } else {
        assert TextOf(front) + [] == TextOf(front);
      }
    }
  }

  lemma {:induction false} ReplayKeepsSize(s: Screen, t: Screen, ops: seq<PendingOp>)
    requires s.cols == t.cols && s.rows == t.rows
    ensures var a, b := Replay(Library(), s, ops), Replay(Library(), t, ops); a.cols == b.cols && a.rows == b.rows
  {
    if ops != [] {
      ReplayKeepsSize(s, t, ops[..|ops| - 1]);
    }
  }

  lemma EncodeSnoc(t: Text, c: Scalar)
    ensures Encode(t + [c]) == Encode(t) + EncodeScalar(c)
  {
    EncodeConcat(t, [c]);
    assert [c][1..] == [];
    assert EncodeScalar(c) + Encode([]) == EncodeScalar(c);
  }

  predicate AllHigh(s: seq<byte>) {
    forall k | 0 <= k < |s| :: s[k] >= 0x80
  }

  lemma ScalarIsHigh(c: Scalar)
    ensures c >= 0x80 ==> AllHigh(EncodeScalar(c))
    ensures c < 0x80 ==> EncodeScalar(c) == [c]
  {
  }

  lemma {:induction false} HighChangesNothing(m: Mode, s: seq<byte>)
    requires AllHigh(s)
    ensures ReadAll(m, s) == m
  {
    if s != [] {
      HighChangesNothing(m, s[1..]);
    }
  }

  lemma {:induction false} CompleteSkipsHigh(s: seq<byte>, high: seq<byte>)
    requires !Finished(s) && AllHigh(high)
    ensures !Finished(s + high) && Complete(s + high) == Complete(s)
    decreases |high|
  {
    ReadAllConcat(Ground, s, high);
    HighChangesNothing(ReadAll(Ground, s), high);
    if high == [] {
      assert s + high == s;
    } else {
      CompleteSkipsHigh(s, high[..|high| - 1]);
      assert (s + high)[..|s + high| - 1] == s + high[..|high| - 1];
    }
  }

  lemma UnfinishedFront(front: seq<byte>, c: Scalar)
    requires !Finished(front + EncodeScalar(c))
    ensures Complete(front + EncodeScalar(c)) == Complete(front)
  {
    ScalarIsHigh(c);
    if c < 0x80 {
      assert (front + [c])[..|front|] == front;
    } else {
      ReadAllConcat(Ground, front, EncodeScalar(c));
      HighChangesNothing(ReadAll(Ground, front), EncodeScalar(c));
      CompleteSkipsHigh(front, EncodeScalar(c));
    }
  }

  /** What is complete of a text is a text. */
  lemma {:induction false} CompleteText(t: Text) returns (u: Text)
    ensures Complete(Encode(t)) == Encode(u)
    decreases |t|
  {
    u := t;
    if !Finished(Encode(t)) {
      var front, last := t[..|t| - 1], t[|t| - 1];
      assert t == front + [last];
      EncodeSnoc(front, last);
      UnfinishedFront(Encode(front), last);
      u := CompleteText(front);
    }
  }

  lemma RenderingIsComplete(s: Screen, ops: seq<PendingOp>, autowrap: bool)
    requires s.bytes == BytesOf(ops)
    ensures Encode(Library().render(s, autowrap)) == Complete(s.bytes)
  {
    BytesAreText(ops);
    var u := CompleteText(TextOf(ops));
    DecodeInvertsEncode(u);
  }

  lemma ClientScreenIs(c: Core<Screen>, shown: seq<PendingOp>, after: nat)
    requires c.cache.valid && Good(Library(), c.cache) && Agrees(Library(), c)
    requires c.cache.history.base.bytes == BytesOf(shown)
    ensures var s := StateOf(c, after).terminalSnapshot;
            s.Some? && (ClientScreen(Library(), s.value) == c.cache.screen <==> Finished(BytesOf(shown)))
  {
    var vt, k, base := Library(), c.cache, c.cache.history.base;
    var s := StateOf(c, after).terminalSnapshot.value;
    var start := vt.process(vt.blank(s.cols, s.rows), Encode(s.data));
    RenderingIsComplete(base, shown, k.history.autowrap);
    assert start.bytes == Complete(base.bytes) && (Complete(base.bytes) == base.bytes <==> Finished(base.bytes));
    ReplayAddsBytes(start, k.pending);
    ReplayAddsBytes(base, k.pending);
    ReplayKeepsSize(start, base, k.pending);
  }

  /** The client of a snapshot sees the screen if and only if the first n operations, which the snapshot
      renders, do not end in the middle of a sequence. */
  ghost predicate SeenUnlessCut(cols: nat, rows: nat, all: seq<PendingOp>, k: Cache<Screen>,
      answer: Option<Snapshot>, n: nat)
  {
    && answer.Some? && SplitAt(Library(), Library().blank(cols, rows), all, k, n)
    && (ClientScreen(Library(), answer.value) == k.screen <==> Finished(BytesOf(all[..n])))
  }

  lemma SeenFrom(cols: nat, rows: nat, all: seq<PendingOp>, c: Core<Screen>, after: nat)
    requires c.cache.valid && Good(Library(), c.cache) && Agrees(Library(), c)
    requires Follows(Library(), Library().blank(cols, rows), all, c.cache)
    ensures |c.cache.history.ops| <= |all|
    ensures SeenUnlessCut(cols, rows, all, c.cache, StateOf(c, after).terminalSnapshot, |all| - |c.cache.history.ops|)
  {
    var blank := Library().blank(cols, rows);
    FollowsSplits(Library(), blank, all, c.cache);
    var shown := all[..|all| - |c.cache.history.ops|];
    ReplayAddsBytes(blank, shown);
    assert blank.bytes + BytesOf(shown) == BytesOf(shown);
    ClientScreenIs(c, shown, after);
  }

  /** In every state of every session with a valid cache, a client sees the screen of such a terminal
      exactly if no sequence had been read halfway when the last checkpoint was taken. */
  lemma HalfReadEscapeIsLost(
      cols: nat, rows: nat, marking: Option<Marking>, fails: bool, inputs: seq<Input<Screen>>, after: nat)
    requires MarkingOk(marking)
    ensures var c := AfterAll(Library(), Start(Library(), cols, rows, marking, fails), inputs);
            var answer := StateOf(c, after).terminalSnapshot;
            c.cache.valid ==>
              exists n: nat :: SeenUnlessCut(cols, rows, AskedBy(marking, Running, inputs), c.cache, answer, n)
  {
    var c := AfterAll(Library(), Start(Library(), cols, rows, marking, fails), inputs);
    LibraryIsLawful();
    SnapshotAgreesWithScreen(Library(), cols, rows, marking, fails, inputs);
    EveryStateIsGood(Library(), cols, rows, marking, fails, inputs);
    SessionFollows(Library(), cols, rows, marking, fails, inputs);
    if c.cache.valid {
      SeenFrom(cols, rows, AskedBy(marking, Running, inputs), c, after);
    }
  }

  function Equal(): (Screen, Screen) -> bool {
    (a: Screen, b: Screen) => a == b
  }

  lemma LibraryRestoresOne(cols: nat, rows: nat, ops: seq<PendingOp>, autowrap: bool)
    requires Finished(BytesOf(ops))
    ensures Restored(Library(), Equal(), Replay(Library(), Library().blank(cols, rows), ops), autowrap)
  {
    var screen := Replay(Library(), Library().blank(cols, rows), ops);
    ReplayAddsBytes(Library().blank(cols, rows), ops);
    assert [] + BytesOf(ops) == BytesOf(ops);
    RenderingIsComplete(screen, ops, autowrap);
    assert [] + screen.bytes == screen.bytes;
  }

  lemma EqualIsRespected()
    ensures Respected(Library(), Equal())
  {
  }

  /** The law of the first part, with equality. */
  lemma LibraryRestores()
    ensures RestoresFinished(Library(), Equal())
  {
    forall cols: nat, rows: nat, ops: seq<PendingOp> ensures RestoresAfter(Library(), Equal(), cols, rows, ops) {
      if Finished(BytesOf(ops)) {
        LibraryRestoresOne(cols, rows, ops, AutowrapAfter(ops));
      }
    }
  }

  // ---- Sessions that lose one --------------------------------------------------------------------------------

  function Shown(text: Text, now: nat): Input<Screen> {
    Append(text, now, None, false)
  }

  lemma TextIsShown(c: Core<Screen>, text: Text, now: nat)
    requires c.journal.marking.None? && c.cache.valid && 0 < |text| <= SNAPSHOT_PENDING_MAX_CHARS
    requires c.cache.pending == [] && c.cache.pendingChars == 0
    ensures var d := Transition(Library(), c, Shown(text, now));
            && d.journal.marking.None? && d.cache.valid && d.cache.dirty && d.cache.lastWriteAt == Some(now)
            && d.cache.screen == c.cache.screen.(bytes := c.cache.screen.bytes + Encode(text))
            && d.cache.pending == [Data(text)] && d.cache.baseline == c.cache.baseline
  {
  }

  lemma CheckpointIsTaken(c: Core<Screen>, now: nat, later: nat)
    requires c.journal.marking.None? && c.cache.valid && c.cache.dirty && c.cache.lastWriteAt == Some(now)
    requires later >= now + SNAPSHOT_QUIET_MS
    ensures var d := Transition(Library(), c, Refresh(later, false));
            && d.journal.marking.None? && d.cache.valid && d.cache.pending == [] && d.cache.pendingChars == 0
            && d.cache.screen == c.cache.screen
            && d.cache.baseline == Baseline(Library(), c.cache.screen, c.cache.autowrap)
  {
  }

  lemma OneStep<S>(vt: Vt<S>, c: Core<S>, input: Input<S>, rest: seq<Input<S>>)
    requires c.journal.marking.None?
    ensures AfterAll(vt, c, [input] + rest) == AfterAll(vt, Transition(vt, c, input), rest)
  {
    assert ([input] + rest)[1..] == rest;
  }

  lemma ThreeSteps<S>(vt: Vt<S>, c: Core<S>, a: Input<S>, b: Input<S>, d: Input<S>)
    requires c.journal.marking.None?
    ensures AfterAll(vt, c, [a, b, d]) == Transition(vt, Transition(vt, Transition(vt, c, a), b), d)
  {
    var c1 := Transition(vt, c, a);
    var c2 := Transition(vt, c1, b);
    assert [a, b, d] == [a] + [b, d] && [b, d] == [b] + [d] && [d] == [d] + [];
    OneStep(vt, c, a, [b, d]);
    OneStep(vt, c1, b, [d]);
    OneStep(vt, c2, d, []);
  }

  lemma ClientHas(s: Snapshot, complete: seq<byte>, b: Text)
    requires Encode(s.data) == complete && s.pending == [Data(b)]
    ensures ClientScreen(Library(), s).bytes == complete + Encode(b)
  {
    var start := Library().process(Library().blank(s.cols, s.rows), Encode(s.data));
    ReplayAddsBytes(start, s.pending);
    assert s.pending[..0] == [] && [] + complete == complete;
    assert BytesOf(s.pending) == BytesOf([]) + Encode(b);
  }

  /** `a` is shown, a checkpoint is taken, and `b` follows. */
  function HalfTold(a: Text, now: nat, later: nat, b: Text): seq<Input<Screen>> {
    [Shown(a, now), Refresh(later, false), Shown(b, later)]
  }

  lemma CheckpointBetween(c: Core<Screen>, a: Text, now: nat, later: nat, b: Text)
    requires c.journal.marking.None? && c.cache.valid && c.cache.dirty && c.cache.lastWriteAt == Some(now)
    requires c.cache.screen.bytes == Encode(a) && later >= now + SNAPSHOT_QUIET_MS
    requires 0 < |b| <= SNAPSHOT_PENDING_MAX_CHARS
    ensures var d := Transition(Library(), Transition(Library(), c, Refresh(later, false)), Shown(b, later));
            && d.cache.valid && d.cache.screen.bytes == Encode(a) + Encode(b)
            && Encode(d.cache.baseline.data) == Complete(Encode(a)) && d.cache.pending == [Data(b)]
  {
    CheckpointIsTaken(c, now, later);
    TextIsShown(Transition(Library(), c, Refresh(later, false)), b, later);
    var u := CompleteText(a);
    DecodeInvertsEncode(u);
  }

  /** Whatever the two texts: the terminal of the session has taken all of them, that of a client nothing of a
      sequence that the first leaves open. */
  lemma HalfIsLost(cols: nat, rows: nat, a: Text, now: nat, later: nat, b: Text)
    requires 0 < |a| <= SNAPSHOT_PENDING_MAX_CHARS && 0 < |b| <= SNAPSHOT_PENDING_MAX_CHARS
    requires later >= now + SNAPSHOT_QUIET_MS
    ensures var c := AfterAll(Library(), Start(Library(), cols, rows, None, false), HalfTold(a, now, later, b));
            var s := StateOf(c, 0).terminalSnapshot;
            && s.Some? && c.cache.screen.bytes == Encode(a) + Encode(b)
            && ClientScreen(Library(), s.value).bytes == Complete(Encode(a)) + Encode(b)
  {
    var c := Start(Library(), cols, rows, None, false);
    ThreeSteps(Library(), c, Shown(a, now), Refresh(later, false), Shown(b, later));
    TextIsShown(c, a, now);
    assert c.cache.screen.bytes == [] && [] + Encode(a) == Encode(a);
    CheckpointBetween(Transition(Library(), c, Shown(a, now)), a, now, later, b);
    var d := AfterAll(Library(), c, HalfTold(a, now, later, b));
    ClientHas(StateOf(d, 0).terminalSnapshot.value, Complete(Encode(a)), b);
  }

  lemma {:induction false} AsciiIsItself(t: Text)
    requires IsAscii(t)
    ensures Encode(t) == t
  {
    if t != [] {
      AsciiIsItself(t[1..]);
    }
  }

  lemma NothingComplete(s: seq<byte>)
    requires 0 < |s| && forall n | 0 < n <= |s| :: !Finished(s[..n])
    ensures Complete(s) == []
    decreases |s|
  {
    assert s[..|s|] == s;
    if |s| > 1 {
      var front := s[..|s| - 1];
      forall n | 0 < n <= |front| ensures !Finished(front[..n]) {
        assert front[..n] == s[..n];
      }
      NothingComplete(front);
    }
  }

  lemma OpenFromTheStart(s: seq<byte>, m: Mode)
    requires |s| > 1 && s[0] == ESC && m != Ground && Read(Escape, s[1]) == m
    requires forall k | 2 <= k < |s| :: Read(m, s[k]) == m
    ensures Complete(s) == []
  {
    forall n | 0 < n <= |s| ensures !Finished(s[..n]) {
      OpenPrefix(s, m, n);
    }
    NothingComplete(s);
  }

  lemma {:induction false} OpenPrefix(s: seq<byte>, m: Mode, n: nat)
    requires |s| > 1 && s[0] == ESC && Read(Escape, s[1]) == m && 0 < n <= |s|
    requires forall k | 2 <= k < |s| :: Read(m, s[k]) == m
    ensures ReadAll(Ground, s[..n]) == if n == 1 then Escape else m
    decreases n
  {
    assert s[..n] == s[..n - 1] + [s[n - 1]];
    ReadSnoc(Ground, s[..n - 1], s[n - 1]);
    if n > 1 {
      OpenPrefix(s, m, n - 1);
    }
  }

  lemma AsciiHalfIsLost(cols: nat, rows: nat, a: Text, now: nat, later: nat, b: Text)
    requires 0 < |a| <= SNAPSHOT_PENDING_MAX_CHARS && 0 < |b| <= SNAPSHOT_PENDING_MAX_CHARS
    requires later >= now + SNAPSHOT_QUIET_MS && IsAscii(a) && IsAscii(b) && Complete(Encode(a)) == []
    ensures var c := AfterAll(Library(), Start(Library(), cols, rows, None, false), HalfTold(a, now, later, b));
            var s := StateOf(c, 0).terminalSnapshot;
            && s.Some? && c.cache.screen.bytes == a + b && ClientScreen(Library(), s.value).bytes == b
  {
    HalfIsLost(cols, rows, a, now, later, b);
    AsciiIsItself(a);
    AsciiIsItself(b);
    assert [] + b == b;
  }

  lemma EscIsOpen()
    ensures Complete([ESC]) == []
  {
    ReadSnoc(Ground, [], ESC);
    assert [] + [ESC] == [ESC] && [ESC][..0] == [];
  }

  /** ESC is shown, a checkpoint is taken, and c follows: a reset for the session, a letter for a client. */
  lemma ResetIsLost(cols: nat, rows: nat, now: nat, later: nat)
    requires later >= now + SNAPSHOT_QUIET_MS
    ensures var c := AfterAll(Library(), Start(Library(), cols, rows, None, false),
                              HalfTold([ESC], now, later, [0x63]));
            var s := StateOf(c, 0).terminalSnapshot;
            && s.Some? && c.cache.screen.bytes == [ESC] + [0x63]
            && ClientScreen(Library(), s.value).bytes == [0x63]
  {
    EscIsOpen();
    AsciiIsItself([ESC]);
    AsciiHalfIsLost(cols, rows, [ESC], now, later, [0x63]);
  }

  /** `ESC [ 3` is shown, a checkpoint is taken, and `1 m X` follows: a red X for the session, and `1mX` in plain
      letters for a client. */
  lemma ColourIsLost(cols: nat, rows: nat, now: nat, later: nat)
    requires later >= now + SNAPSHOT_QUIET_MS
    ensures var c := AfterAll(Library(), Start(Library(), cols, rows, None, false),
                              HalfTold([ESC, BRACKET, 0x33], now, later, [0x31, 0x6D, 0x58]));
            var s := StateOf(c, 0).terminalSnapshot;
            && s.Some? && c.cache.screen.bytes == [ESC, BRACKET, 0x33] + [0x31, 0x6D, 0x58]
            && ClientScreen(Library(), s.value).bytes == [0x31, 0x6D, 0x58]
  {
    OpenFromTheStart([ESC, BRACKET, 0x33], Control);
    AsciiIsItself([ESC, BRACKET, 0x33]);
    AsciiHalfIsLost(cols, rows, [ESC, BRACKET, 0x33], now, later, [0x31, 0x6D, 0x58]);
  }
}
