/** What holds in every state that a session reaches. */
module SnapshotCache {
  // Whatever arrives and whatever fails: the baseline and the pending operations are the screen, and the
  // journal never depends on the terminal.

  import opened Options
  import opened Scanner
  import opened Utf8
  import opened Windows
  import opened Bounds
  import opened ListSnapshot
  import opened Terminal
  import opened Marker
  import opened Session
  import DecMode

  // ---- Pending records the history of performed operations ---------------------------------------------

  /** The history of performed operations accounts for the screen; `pending` records the same text
      and sizes in the same order, with nothing left to join. */
  ghost predicate Good<S>(vt: Vt<S>, k: Cache<S>) {
    && k.pendingChars == CharsIn(k.pending) && Joined(k.pending) && (k.dirty <==> k.pending != [])
    && (k.valid ==>
          && Units(k.pending) == Units(k.history.ops)
          && k.screen == Replay(vt, k.history.base, k.history.ops)
          && k.baseline == Baseline(vt, k.history.base, k.history.autowrap))
    && (!k.valid ==> k.pending == [] && !k.dirty && k.baseline.data == [])
  }

  lemma ProcessedIsGood<S>(vt: Vt<S>, k: Cache<S>, data: Text, now: nat)
    requires Good(vt, k) && k.valid && data != []
    ensures Good(vt, Processed(vt, k, data, now))
  {
    PushRecords(k.pending, data);
    PushJoins(k.pending, data);
    UnitsSnoc(k.history.ops, Data(data));
    ReplaySnoc(vt, k.history.base, k.history.ops, Data(data));
  }

  lemma ResizedIsGood<S>(vt: Vt<S>, k: Cache<S>, cols: nat, rows: nat, torn: Option<S>)
    requires Good(vt, k)
    ensures Good(vt, Resized(vt, k, cols, rows, torn))
  {
    if k.valid && torn.None? {
      ResizeRecords(k.pending, cols, rows);
      ResizeRecords(k.history.ops, cols, rows);
      ReplaySnoc(vt, k.history.base, k.history.ops, Resize(cols, rows));
    }
  }

  lemma CheckpointedIsGood<S>(vt: Vt<S>, k: Cache<S>, fails: bool)
    requires k.valid || Good(vt, k)
    ensures Good(vt, Checkpointed(vt, k, fails))
  {
  }

  lemma ShowedIsGood<S>(vt: Vt<S>, k: Cache<S>, data: Text, now: nat, torn: Option<S>)
    requires Good(vt, k) && data != []
    ensures Good(vt, Showed(vt, k, data, now, torn))
  {
    if k.valid && torn.None? {
      ProcessedIsGood(vt, ModesAfter(k, data), data, now);
    }
  }

  lemma ShownIsGood<S>(vt: Vt<S>, k: Cache<S>, data: Text, now: nat, torn: Option<S>, fails: bool)
    requires Good(vt, k)
    ensures Good(vt, ShownWithinBudget(vt, k, data, now, torn, fails))
  {
    if data != [] {
      ShowedIsGood(vt, k, data, now, torn);
      CheckpointedIsGood(vt, Showed(vt, k, data, now, torn), fails);
    }
  }

  lemma TransitionIsGood<S>(vt: Vt<S>, c: Core<S>, input: Input<S>)
    requires MarkingOk(c.journal.marking) && Good(vt, c.cache)
    ensures Good(vt, Transition(vt, c, input).cache)
  {
    match input
    case Append(data, now, torn, fails) =>
      ShownIsGood(vt, c.cache, VisibleOf(c.journal.marking, data), now, torn, fails);
    case AskResize(cols, rows, torn) => ResizedIsGood(vt, c.cache, cols, rows, torn);
    case Refresh(now, fails) => CheckpointedIsGood(vt, c.cache, fails);
    case ChildExit(code) =>
    case ExitCheckpoint(fails) => CheckpointedIsGood(vt, c.cache, fails);
  }

  lemma {:induction false} AllIsGood<S>(vt: Vt<S>, c: Core<S>, inputs: seq<Input<S>>)
    requires MarkingOk(c.journal.marking) && Good(vt, c.cache)
    ensures Good(vt, AfterAll(vt, c, inputs).cache)
    decreases |inputs|
  {
    if inputs != [] {
      TransitionIsGood(vt, c, inputs[0]);
      AllIsGood(vt, Transition(vt, c, inputs[0]), inputs[1..]);
    }
  }

  lemma EveryStateIsGood<S>(
      vt: Vt<S>, cols: nat, rows: nat, marking: Option<Marking>, fails: bool, inputs: seq<Input<S>>)
    requires MarkingOk(marking)
    ensures Good(vt, AfterAll(vt, Start(vt, cols, rows, marking, fails), inputs).cache)
  {
    CheckpointedIsGood(vt, BlankCache(vt, cols, rows), fails);
    AllIsGood(vt, Start(vt, cols, rows, marking, fails), inputs);
  }

  // ---- The history is what has been asked for -------------------------------------------------------------

  /** What one input asks of the terminal: its visible text, or a size while the child runs. */
  ghost function AskedOf<S>(m: Option<Marking>, status: Status, input: Input<S>): seq<PendingOp>
    requires MarkingOk(m)
  {
    match input
    case Append(data, _, _, _) => if VisibleOf(m, data) == [] then [] else [Data(VisibleOf(m, data))]
    case AskResize(cols, rows, _) => if SizeOk(cols, rows) && status == Running then [Resize(cols, rows)] else []
    case _ => []
  }

  /** What a session is asked to show, from its inputs alone: every visible text and accepted size. */
  ghost function AskedBy<S>(m: Option<Marking>, status: Status, inputs: seq<Input<S>>): seq<PendingOp>
    requires MarkingOk(m)
    decreases |inputs|
  {
    if inputs == [] then []
    else
      var input := inputs[0];
      AskedOf(m, status, input)
      + AskedBy(if input.Append? then MarkedAfter(m, input.data) else m,
                if input.ChildExit? then Exited else status, inputs[1..])
  }

  function BytesOf(ops: seq<PendingOp>): seq<byte> {
    if ops == [] then []
    else BytesOf(ops[..|ops| - 1]) + (if ops[|ops| - 1].Data? then Encode(ops[|ops| - 1].data) else [])
  }

  /** Autowrap after everything these operations show. */
  function AutowrapAfter(ops: seq<PendingOp>): bool {
    DecMode.Latest(DecMode.ScanBytes(BytesOf(ops)).out, true)
  }

  /** Autowrap and the half-read sequence are those of all the bytes shown. */
  ghost predicate ModesFollow(all: seq<PendingOp>, autowrap: bool, tail: seq<byte>) {
    autowrap == AutowrapAfter(all) && tail == DecMode.ScanBytes(BytesOf(all)).tail
  }

  /** The history is the end of `all`, and the screen shows all of it. */
  ghost predicate Accounts<S>(vt: Vt<S>, blank: S, all: seq<PendingOp>, h: History<S>, screen: S) {
    var n := |all| - |h.ops|;
    && n >= 0 && h.ops == all[n..]
    && h.base == Replay(vt, blank, all[..n]) && h.autowrap == AutowrapAfter(all[..n])
    && screen == Replay(vt, blank, all)
  }

  ghost predicate Follows<S>(vt: Vt<S>, blank: S, all: seq<PendingOp>, k: Cache<S>) {
    k.valid ==> Accounts(vt, blank, all, k.history, k.screen) && ModesFollow(all, k.autowrap, k.modeTail)
  }

  lemma BytesSnoc(ops: seq<PendingOp>, op: PendingOp)
    ensures BytesOf(ops + [op]) == if op.Data? then BytesOf(ops) + Encode(op.data) else BytesOf(ops)
  {
    SnocParts(ops, op);
    assert BytesOf(ops) + [] == BytesOf(ops);
  }

  lemma ModesFollowText(all: seq<PendingOp>, autowrap: bool, tail: seq<byte>, data: Text)
    requires ModesFollow(all, autowrap, tail)
    ensures var r := DecMode.ScanBytes(tail + Encode(data));
            ModesFollow(all + [Data(data)], DecMode.Latest(r.out, autowrap), r.tail)
  {
    BytesSnoc(all, Data(data));
    DecMode.NextAdvances();
    DecMode.NextIsStable();
    ScanSplit(DecMode.Next, BytesOf(all), Encode(data));
    DecMode.LatestAppend(DecMode.ScanBytes(BytesOf(all)).out, DecMode.ScanBytes(tail + Encode(data)).out, true);
  }

  lemma AccountsGrows<S>(vt: Vt<S>, blank: S, all: seq<PendingOp>, h: History<S>, screen: S, op: PendingOp)
    requires Accounts(vt, blank, all, h, screen)
    ensures Accounts(vt, blank, all + [op], h.(ops := h.ops + [op]), Perform(vt, screen, op))
  {
    EndGrows(all, op, |all| - |h.ops|);
    ReplaySnoc(vt, blank, all, op);
  }

  lemma EndGrows<T>(all: seq<T>, last: T, n: nat)
    requires n <= |all|
    ensures (all + [last])[n..] == all[n..] + [last] && (all + [last])[..n] == all[..n]
  {
  }

  /** One operation more, performed and recorded. */
  lemma PerformedFollows<S>(vt: Vt<S>, blank: S, all: seq<PendingOp>, k: Cache<S>, op: PendingOp, after: Cache<S>)
    requires Follows(vt, blank, all, k) && k.valid && ModesFollow(all + [op], after.autowrap, after.modeTail)
    requires after.history == k.history.(ops := k.history.ops + [op]) && after.screen == Perform(vt, k.screen, op)
    ensures Follows(vt, blank, all + [op], after)
  {
    AccountsGrows(vt, blank, all, k.history, k.screen, op);
  }

  lemma ModesFollowResize(all: seq<PendingOp>, autowrap: bool, tail: seq<byte>, cols: nat, rows: nat)
    requires ModesFollow(all, autowrap, tail)
    ensures ModesFollow(all + [Resize(cols, rows)], autowrap, tail)
  {
    BytesSnoc(all, Resize(cols, rows));
  }

  lemma ShowedFollows<S>(
      vt: Vt<S>, blank: S, all: seq<PendingOp>, k: Cache<S>, data: Text, now: nat, torn: Option<S>)
    requires Follows(vt, blank, all, k)
    ensures Follows(vt, blank, all + [Data(data)], Showed(vt, k, data, now, torn))
  {
    if k.valid && torn.None? {
      ModesFollowText(all, k.autowrap, k.modeTail, data);
      PerformedFollows(vt, blank, all, k, Data(data), Showed(vt, k, data, now, torn));
    }
  }

  lemma ResizedFollows<S>(
      vt: Vt<S>, blank: S, all: seq<PendingOp>, k: Cache<S>, cols: nat, rows: nat, torn: Option<S>)
    requires Follows(vt, blank, all, k)
    ensures Follows(vt, blank, all + [Resize(cols, rows)], Resized(vt, k, cols, rows, torn))
  {
    if k.valid && torn.None? {
      ModesFollowResize(all, k.autowrap, k.modeTail, cols, rows);
      PerformedFollows(vt, blank, all, k, Resize(cols, rows), Resized(vt, k, cols, rows, torn));
    }
  }

  lemma CheckpointedFollows<S>(vt: Vt<S>, blank: S, all: seq<PendingOp>, k: Cache<S>, fails: bool)
    requires Follows(vt, blank, all, k)
    ensures Follows(vt, blank, all, Checkpointed(vt, k, fails))
  {
    assert all[|all|..] == [] && all[..|all|] == all;
  }

  lemma TransitionFollows<S>(
      vt: Vt<S>, blank: S, all: seq<PendingOp>, c: Core<S>, input: Input<S>)
    requires MarkingOk(c.journal.marking) && Follows(vt, blank, all, c.cache)
    ensures Follows(vt, blank, all + AskedOf(c.journal.marking, c.status, input), Transition(vt, c, input).cache)
  {
    assert all + [] == all;
    match input
    case Append(data, now, torn, fails) =>
      var visible := VisibleOf(c.journal.marking, data);
      if visible != [] {
        ShowedFollows(vt, blank, all, c.cache, visible, now, torn);
        CheckpointedFollows(vt, blank, all + [Data(visible)], Showed(vt, c.cache, visible, now, torn), fails);
      }
    case AskResize(cols, rows, torn) => ResizedFollows(vt, blank, all, c.cache, cols, rows, torn);
    case Refresh(now, fails) => CheckpointedFollows(vt, blank, all, c.cache, fails);
    case ChildExit(code) =>
    case ExitCheckpoint(fails) => CheckpointedFollows(vt, blank, all, c.cache, fails);
  }

  /** The first input is carried out, and the rest on what it leaves. */
  lemma FirstOfInputs<S>(vt: Vt<S>, c: Core<S>, inputs: seq<Input<S>>)
    requires MarkingOk(c.journal.marking) && inputs != []
    ensures var next := Transition(vt, c, inputs[0]);
            && MarkingOk(next.journal.marking) && AfterAll(vt, c, inputs) == AfterAll(vt, next, inputs[1..])
            && AskedBy(c.journal.marking, c.status, inputs) ==
               AskedOf(c.journal.marking, c.status, inputs[0]) +
               AskedBy(next.journal.marking, next.status, inputs[1..])
  {
  }

  lemma {:induction false} AllFollows<S>(
      vt: Vt<S>, blank: S, all: seq<PendingOp>, c: Core<S>, inputs: seq<Input<S>>)
    requires MarkingOk(c.journal.marking) && Follows(vt, blank, all, c.cache)
    ensures Follows(vt, blank, all + AskedBy(c.journal.marking, c.status, inputs), AfterAll(vt, c, inputs).cache)
    decreases |inputs|
  {
    if inputs == [] {
      assert all + [] == all;
    } else {
      var asked, next := AskedOf(c.journal.marking, c.status, inputs[0]), Transition(vt, c, inputs[0]);
      FirstOfInputs(vt, c, inputs);
      TransitionFollows(vt, blank, all, c, inputs[0]);
      AllFollows(vt, blank, all + asked, next, inputs[1..]);
      Associates(all, asked, AskedBy(next.journal.marking, next.status, inputs[1..]));
    }
  }

  /** The screen shows everything in `all`; the baseline renders the screen after its first n entries; and
      `pending` is the rest, character by character and size by size, joined as far as it goes. */
  ghost predicate SplitAt<S>(vt: Vt<S>, blank: S, all: seq<PendingOp>, k: Cache<S>, n: nat) {
    && n <= |all|
    && k.screen == Replay(vt, blank, all)
    && k.baseline == Baseline(vt, Replay(vt, blank, all[..n]), AutowrapAfter(all[..n]))
    && Units(k.pending) == Units(all[n..]) && Joined(k.pending) && k.pendingChars == CharsIn(k.pending)
  }

  lemma FollowsSplits<S>(vt: Vt<S>, blank: S, all: seq<PendingOp>, k: Cache<S>)
    requires Good(vt, k) && Follows(vt, blank, all, k) && k.valid
    ensures |k.history.ops| <= |all| && SplitAt(vt, blank, all, k, |all| - |k.history.ops|)
  {
  }

  lemma NothingShown()
    ensures ModesFollow([], true, []) && AutowrapAfter([])
  {
    assert BytesOf([]) == [] && DecMode.ScanBytes([]) == Scanned([], []);
  }

  lemma NothingToAccount<S>(vt: Vt<S>, blank: S)
    ensures Accounts(vt, blank, [], History(blank, true, []), blank)
  {
    NothingShown();
    var none: seq<PendingOp> := [];
    assert none[0..] == none && none[..0] == none;
    assert Replay(vt, blank, none) == blank;
  }

  lemma BlankFollows<S>(vt: Vt<S>, cols: nat, rows: nat)
    ensures Follows(vt, vt.blank(cols, rows), [], BlankCache(vt, cols, rows))
  {
    NothingShown();
    NothingToAccount(vt, vt.blank(cols, rows));
  }

  lemma StartFollows<S>(vt: Vt<S>, cols: nat, rows: nat, fails: bool)
    ensures Follows(vt, vt.blank(cols, rows), [], Checkpointed(vt, BlankCache(vt, cols, rows), fails))
  {
    BlankFollows(vt, cols, rows);
    CheckpointedFollows(vt, vt.blank(cols, rows), [], BlankCache(vt, cols, rows), fails);
  }

  lemma SessionFollows<S>(
      vt: Vt<S>, cols: nat, rows: nat, marking: Option<Marking>, fails: bool, inputs: seq<Input<S>>)
    requires MarkingOk(marking)
    ensures Follows(vt, vt.blank(cols, rows), AskedBy(marking, Running, inputs),
                    AfterAll(vt, Start(vt, cols, rows, marking, fails), inputs).cache)
  {
    StartFollows(vt, cols, rows, fails);
    AllFollows(vt, vt.blank(cols, rows), [], Start(vt, cols, rows, marking, fails), inputs);
    assert [] + AskedBy(marking, Running, inputs) == AskedBy(marking, Running, inputs);
  }

  /** In every state of every session: while the cache is valid, everything that the inputs ask to be
      shown is on the screen, and a last checkpoint splits it into what the baseline renders and what is
      pending, none lost and none twice. */
  lemma PendingIsSinceCheckpoint<S>(
      vt: Vt<S>, cols: nat, rows: nat, marking: Option<Marking>, fails: bool, inputs: seq<Input<S>>)
    requires MarkingOk(marking)
    ensures var k := AfterAll(vt, Start(vt, cols, rows, marking, fails), inputs).cache;
            k.valid ==> exists n: nat :: SplitAt(vt, vt.blank(cols, rows), AskedBy(marking, Running, inputs), k, n)
  {
    var k := AfterAll(vt, Start(vt, cols, rows, marking, fails), inputs).cache;
    EveryStateIsGood(vt, cols, rows, marking, fails, inputs);
    SessionFollows(vt, cols, rows, marking, fails, inputs);
    if k.valid {
      FollowsSplits(vt, vt.blank(cols, rows), AskedBy(marking, Running, inputs), k);
    }
  }

  /** An input that brings no fault of the terminal with it. */
  predicate Faultless<S>(input: Input<S>) {
    match input
    case Append(_, _, torn, fails) => torn.None? && !fails
    case AskResize(_, _, torn) => torn.None?
    case Refresh(_, fails) => !fails
    case ChildExit(_) => true
    case ExitCheckpoint(fails) => !fails
  }

  /** The cache is given up for a fault only. */
  lemma {:induction false} ValidWithoutFaults<S>(vt: Vt<S>, c: Core<S>, inputs: seq<Input<S>>)
    requires MarkingOk(c.journal.marking) && c.cache.valid
    requires forall i | 0 <= i < |inputs| :: Faultless(inputs[i])
    ensures AfterAll(vt, c, inputs).cache.valid
    decreases |inputs|
  {
    if inputs != [] {
      ValidWithoutFaults(vt, Transition(vt, c, inputs[0]), inputs[1..]);
    }
  }

  // ---- Baseline and pending are the screen ----------------------------------------------------------------

  /** Replaying what is pending from the checkpointed screen gives the screen, at its size. */
  ghost predicate Agrees<S>(vt: Vt<S>, c: Core<S>) {
    c.cache.valid ==>
      && Replay(vt, c.cache.history.base, c.cache.pending) == c.cache.screen
      && vt.size(c.cache.screen) == (c.cols, c.rows)
  }

  lemma ShownAgrees<S(!new)>(vt: Vt<S>, c: Core<S>, data: Text, now: nat, torn: Option<S>, fails: bool)
    requires Streams(vt) && KeepsSize(vt) && Agrees(vt, c)
    ensures Agrees(vt, c.(cache := ShownWithinBudget(vt, c.cache, data, now, torn, fails)))
  {
    PushReplays(vt, c.cache.history.base, c.cache.pending, data);
  }

  lemma ResizedAgrees<S(!new)>(vt: Vt<S>, c: Core<S>, cols: nat, rows: nat, torn: Option<S>)
    requires KeepsSize(vt) && Agrees(vt, c)
    ensures Agrees(vt, c.(cols := cols, rows := rows, cache := Resized(vt, c.cache, cols, rows, torn)))
  {
    ReplaySnoc(vt, c.cache.history.base, c.cache.pending, Resize(cols, rows));
  }

  lemma TransitionAgrees<S(!new)>(vt: Vt<S>, c: Core<S>, input: Input<S>)
    requires Streams(vt) && KeepsSize(vt) && MarkingOk(c.journal.marking) && Agrees(vt, c)
    ensures Agrees(vt, Transition(vt, c, input))
  {
    match input
    case Append(data, now, torn, fails) =>
      ShownAgrees(vt, c, VisibleOf(c.journal.marking, data), now, torn, fails);
    case AskResize(cols, rows, torn) => ResizedAgrees(vt, c, cols, rows, torn);
    case Refresh(now, fails) =>
    case ChildExit(code) =>
    case ExitCheckpoint(fails) =>
  }

  lemma {:induction false} AllAgrees<S(!new)>(vt: Vt<S>, c: Core<S>, inputs: seq<Input<S>>)
    requires Streams(vt) && KeepsSize(vt) && MarkingOk(c.journal.marking) && Agrees(vt, c)
    ensures Agrees(vt, AfterAll(vt, c, inputs))
    decreases |inputs|
  {
    if inputs != [] {
      TransitionAgrees(vt, c, inputs[0]);
      AllAgrees(vt, Transition(vt, c, inputs[0]), inputs[1..]);
    }
  }

  lemma SnapshotAgreesWithScreen<S(!new)>(
      vt: Vt<S>, cols: nat, rows: nat, marking: Option<Marking>, fails: bool, inputs: seq<Input<S>>)
    requires Streams(vt) && KeepsSize(vt) && MarkingOk(marking)
    ensures Agrees(vt, AfterAll(vt, Start(vt, cols, rows, marking, fails), inputs))
  {
    AllAgrees(vt, Start(vt, cols, rows, marking, fails), inputs);
  }

  /** A client's terminal after it has written the data of a snapshot and replayed what is pending. */
  function ClientScreen<S>(vt: Vt<S>, s: Snapshot): S {
    Replay(vt, vt.process(vt.blank(s.cols, s.rows), Encode(s.data)), s.pending)
  }

  /** What is rendered of a screen restores it, on a blank terminal of its size. */
  ghost predicate Restored<S>(vt: Vt<S>, same: (S, S) -> bool, screen: S, autowrap: bool) {
    var s := Baseline(vt, screen, autowrap);
    same(vt.process(vt.blank(s.cols, s.rows), Encode(s.data)), screen)
  }

  /** The data rendered at the last checkpoint restores the screen it was rendered from.  The code
      cannot promise this: the rendering leaves out what a parser has read of an escape sequence,
      and the normal screen while the alternate screen is shown. */
  ghost predicate RestoresBase<S>(vt: Vt<S>, same: (S, S) -> bool, k: Cache<S>) {
    Restored(vt, same, k.history.base, k.history.autowrap)
  }

  lemma ReplayedIsScreen<S(!new)>(vt: Vt<S>, same: (S, S) -> bool, c: Core<S>, s: Snapshot)
    requires Respected(vt, same) && RestoresBase(vt, same, c.cache)
    requires c.cache.valid && Good(vt, c.cache) && Agrees(vt, c)
    requires s == c.cache.baseline.(pending := c.cache.pending)
    ensures same(ClientScreen(vt, s), c.cache.screen)
  {
    var start := vt.process(vt.blank(s.cols, s.rows), Encode(s.data));
    ReplayRespects(vt, same, start, c.cache.history.base, c.cache.pending);
  }

  /** The answer to an attach has a snapshot exactly while the session keeps a screen, and a client that applies
      it sees what the session has been asked to show, if the last checkpoint restores. */
  lemma ClientSeesScreen<S(!new)>(vt: Vt<S>, same: (S, S) -> bool,
      cols: nat, rows: nat, marking: Option<Marking>, fails: bool, inputs: seq<Input<S>>, after: nat)
    requires Streams(vt) && KeepsSize(vt) && Respected(vt, same) && MarkingOk(marking)
    requires RestoresBase(vt, same, AfterAll(vt, Start(vt, cols, rows, marking, fails), inputs).cache)
    ensures var c := AfterAll(vt, Start(vt, cols, rows, marking, fails), inputs);
            var s := StateOf(c, after).terminalSnapshot;
            && (s.Some? <==> c.cache.valid)
            && (s.Some? ==>
                  && c.cache.screen == Replay(vt, vt.blank(cols, rows), AskedBy(marking, Running, inputs))
                  && same(ClientScreen(vt, s.value), c.cache.screen))
  {
    SnapshotAgreesWithScreen(vt, cols, rows, marking, fails, inputs);
    EveryStateIsGood(vt, cols, rows, marking, fails, inputs);
    SessionFollows(vt, cols, rows, marking, fails, inputs);
    var c := AfterAll(vt, Start(vt, cols, rows, marking, fails), inputs);
    if c.cache.valid {
      ReplayedIsScreen(vt, same, c, StateOf(c, after).terminalSnapshot.value);
    }
  }

  lemma {:induction false} NoUnitsNoBytes(ops: seq<PendingOp>)
    requires Units(ops) == []
    ensures BytesOf(ops) == []
  {
    if ops != [] {
      var front, last := ops[..|ops| - 1], ops[|ops| - 1];
      NoUnitsNoBytes(front);
      NoUnitIsNoText(last);
    }
  }

  lemma NoUnitIsNoText(op: PendingOp)
    requires OpUnits(op) == []
    ensures op == Data([])
  {
  }

  lemma {:induction false} BytesJoin(a: seq<PendingOp>, b: seq<PendingOp>)
    ensures BytesOf(a + b) == BytesOf(a) + BytesOf(b)
    decreases |b|
  {
    if b == [] {
      assert a + b == a && BytesOf(a) + [] == BytesOf(a);
    } else {
      var front, last := b[..|b| - 1], b[|b| - 1];
      assert a + b == (a + front) + [last] && b == front + [last];
      BytesJoin(a, front);
      BytesSnoc(a + front, last);
      BytesSnoc(front, last);
      Associates(BytesOf(a), BytesOf(front), if last.Data? then Encode(last.data) else []);
    }
  }

  /** With nothing pending, the autowrap of the last checkpoint is the current one. */
  lemma SettledAutowrap<S>(vt: Vt<S>, blank: S, all: seq<PendingOp>, k: Cache<S>)
    requires Good(vt, k) && Follows(vt, blank, all, k) && k.valid && k.pending == []
    ensures k.history.autowrap == k.autowrap
  {
    NothingRecorded(k.pending, k.history.ops);
    SettledSince(all, k.history.ops, |all| - |k.history.ops|, k.history.autowrap, k.autowrap);
  }

  lemma NothingRecorded(pending: seq<PendingOp>, ops: seq<PendingOp>)
    requires pending == [] && Units(pending) == Units(ops)
    ensures Units(ops) == []
  {
  }

  lemma SettledSince(all: seq<PendingOp>, since: seq<PendingOp>, n: nat, before: bool, now: bool)
    requires n <= |all| && since == all[n..] && Units(since) == []
    requires before == AutowrapAfter(all[..n]) && now == AutowrapAfter(all)
    ensures before == now
  {
    NothingSince(all, since, n);
  }

  lemma NothingSince(all: seq<PendingOp>, since: seq<PendingOp>, n: nat)
    requires n <= |all| && since == all[n..] && Units(since) == []
    ensures BytesOf(all) == BytesOf(all[..n])
  {
    NoUnitsNoBytes(since);
    assert all == all[..n] + since;
    BytesJoin(all[..n], since);
    assert BytesOf(all[..n]) + [] == BytesOf(all[..n]);
  }

  /** A fresh snapshot: the current screen with the current autowrap, and nothing pending. */
  ghost predicate IsFresh<S>(vt: Vt<S>, c: Core<S>, k: Cache<S>) {
    && k.valid && k.screen == c.cache.screen && k.pending == []
    && k.autowrap == c.cache.autowrap && k.baseline == Baseline(vt, k.screen, k.autowrap)
  }

  lemma CheckpointIsFresh<S>(vt: Vt<S>, blank: S, all: seq<PendingOp>, c: Core<S>)
    requires Good(vt, c.cache) && Agrees(vt, c) && Follows(vt, blank, all, c.cache) && c.cache.valid
    ensures IsFresh(vt, c, if c.cache.dirty then Checkpointed(vt, c.cache, false) else c.cache)
  {
    if !c.cache.dirty {
      SettledAutowrap(vt, blank, all, c.cache);
    }
  }

  lemma SessionCheckpointIsFresh<S(!new)>(
      vt: Vt<S>, cols: nat, rows: nat, marking: Option<Marking>, fails: bool, inputs: seq<Input<S>>)
    requires Streams(vt) && KeepsSize(vt) && MarkingOk(marking)
    ensures var c := AfterAll(vt, Start(vt, cols, rows, marking, fails), inputs);
            c.cache.valid ==> IsFresh(vt, c, if c.cache.dirty then Checkpointed(vt, c.cache, false) else c.cache)
  {
    var c := AfterAll(vt, Start(vt, cols, rows, marking, fails), inputs);
    EveryStateIsGood(vt, cols, rows, marking, fails, inputs);
    SnapshotAgreesWithScreen(vt, cols, rows, marking, fails, inputs);
    SessionFollows(vt, cols, rows, marking, fails, inputs);
    if c.cache.valid {
      CheckpointIsFresh(vt, vt.blank(cols, rows), AskedBy(marking, Running, inputs), c);
    }
  }

  /** Once nothing has been written for a while, the timer's checkpoint leaves a snapshot of the current screen,
      and nothing pending. */
  lemma QuietRefreshIsFresh<S(!new)>(
      vt: Vt<S>, cols: nat, rows: nat, marking: Option<Marking>, fails: bool, inputs: seq<Input<S>>, now: nat)
    requires Streams(vt) && KeepsSize(vt) && MarkingOk(marking)
    ensures var c := AfterAll(vt, Start(vt, cols, rows, marking, fails), inputs);
            c.cache.valid && (c.cache.lastWriteAt.Some? ==> now - c.cache.lastWriteAt.value >= SNAPSHOT_QUIET_MS) ==>
              IsFresh(vt, c, Transition(vt, c, Refresh(now, false)).cache)
  {
    SessionCheckpointIsFresh(vt, cols, rows, marking, fails, inputs);
  }

  // ---- A client that goes on from a snapshot ---------------------------------------------------------------

  lemma {:induction false} AskedBySplit<S>(vt: Vt<S>, c: Core<S>, before: seq<Input<S>>, later: seq<Input<S>>)
    requires MarkingOk(c.journal.marking)
    ensures var d := AfterAll(vt, c, before);
            AskedBy(c.journal.marking, c.status, before + later) ==
            AskedBy(c.journal.marking, c.status, before) + AskedBy(d.journal.marking, d.status, later)
    decreases |before|
  {
    if before == [] {
      assert before + later == later;
    } else {
      var next := Transition(vt, c, before[0]);
      assert (before + later)[1..] == before[1..] + later;
      FirstOfInputs(vt, c, before);
      FirstOfInputs(vt, c, before + later);
      AskedBySplit(vt, next, before[1..], later);
      var d := AfterAll(vt, c, before);
      Associates(AskedOf(c.journal.marking, c.status, before[0]),
                 AskedBy(next.journal.marking, next.status, before[1..]), AskedBy(d.journal.marking, d.status, later));
    }
  }

  lemma {:induction false} AfterAllSplit<S>(vt: Vt<S>, c: Core<S>, before: seq<Input<S>>, later: seq<Input<S>>)
    requires MarkingOk(c.journal.marking)
    ensures AfterAll(vt, c, before + later) == AfterAll(vt, AfterAll(vt, c, before), later)
    decreases |before|
  {
    if before == [] {
      assert before + later == later;
    } else {
      assert (before + later)[1..] == before[1..] + later;
      AfterAllSplit(vt, Transition(vt, c, before[0]), before[1..], later);
    }
  }

  lemma {:induction false} ReplayConcat<S>(vt: Vt<S>, s: S, a: seq<PendingOp>, b: seq<PendingOp>)
    ensures Replay(vt, s, a + b) == Replay(vt, Replay(vt, s, a), b)
    decreases |b|
  {
    if b == [] {
      assert a + b == a;
    } else {
      var front, last := b[..|b| - 1], b[|b| - 1];
      assert a + b == (a + front) + [last] && b == front + [last];
      ReplayConcat(vt, s, a, front);
      ReplaySnoc(vt, s, a + front, last);
      ReplaySnoc(vt, Replay(vt, s, a), front, last);
    }
  }

  lemma {:induction false} ValidBefore<S>(vt: Vt<S>, c: Core<S>, inputs: seq<Input<S>>)
    requires MarkingOk(c.journal.marking) && Good(vt, c.cache) && AfterAll(vt, c, inputs).cache.valid
    ensures c.cache.valid
  {
    if !c.cache.valid {
      FaultIsForever(vt, c, inputs);
    }
  }

  /** A client applies the snapshot in the answer of some moment, and then all that the session is asked to show
      later: its screen is that of the session, as long as the session keeps one. */
  lemma ClientGoesOn<S(!new)>(vt: Vt<S>, same: (S, S) -> bool, cols: nat, rows: nat,
      marking: Option<Marking>, fails: bool, before: seq<Input<S>>, later: seq<Input<S>>, after: nat)
    requires Streams(vt) && KeepsSize(vt) && Respected(vt, same) && MarkingOk(marking)
    requires RestoresBase(vt, same, AfterAll(vt, Start(vt, cols, rows, marking, fails), before).cache)
    ensures var start := Start(vt, cols, rows, marking, fails);
            var c := AfterAll(vt, start, before); var k := AfterAll(vt, start, before + later).cache;
            var s := StateOf(c, after).terminalSnapshot;
            k.valid ==>
              && s.Some?
              && same(Replay(vt, ClientScreen(vt, s.value), AskedBy(c.journal.marking, c.status, later)), k.screen)
  {
    var start := Start(vt, cols, rows, marking, fails);
    var c := AfterAll(vt, start, before);
    AfterAllSplit(vt, start, before, later);
    EveryStateIsGood(vt, cols, rows, marking, fails, before);
    if AfterAll(vt, start, before + later).cache.valid {
      ValidBefore(vt, c, later);
      ClientSeesScreen(vt, same, cols, rows, marking, fails, before, after);
      ScreenGoesOn(vt, cols, rows, marking, fails, before, later);
      ReplayRespects(vt, same, ClientScreen(vt, StateOf(c, after).terminalSnapshot.value), c.cache.screen,
                     AskedBy(c.journal.marking, c.status, later));
    }
  }

  lemma ScreenGoesOn<S>(vt: Vt<S>, cols: nat, rows: nat, marking: Option<Marking>, fails: bool,
      before: seq<Input<S>>, later: seq<Input<S>>)
    requires MarkingOk(marking)
    requires AfterAll(vt, Start(vt, cols, rows, marking, fails), before).cache.valid
    requires AfterAll(vt, Start(vt, cols, rows, marking, fails), before + later).cache.valid
    ensures var start := Start(vt, cols, rows, marking, fails); var c := AfterAll(vt, start, before);
            AfterAll(vt, start, before + later).cache.screen ==
            Replay(vt, c.cache.screen, AskedBy(c.journal.marking, c.status, later))
  {
    var c := AfterAll(vt, Start(vt, cols, rows, marking, fails), before);
    SessionFollows(vt, cols, rows, marking, fails, before);
    SessionFollows(vt, cols, rows, marking, fails, before + later);
    AskedBySplit(vt, Start(vt, cols, rows, marking, fails), before, later);
    ReplayConcat(vt, vt.blank(cols, rows),
                 AskedBy(marking, Running, before), AskedBy(c.journal.marking, c.status, later));
  }

  // ---- Faults ---------------------------------------------------------------------------------------------

  /** The terminal is given up for good: no snapshot, nothing pending, the screen left alone. */
  lemma {:induction false} FaultIsForever<S>(vt: Vt<S>, c: Core<S>, inputs: seq<Input<S>>)
    requires MarkingOk(c.journal.marking) && Good(vt, c.cache) && !c.cache.valid
    ensures var k := AfterAll(vt, c, inputs).cache;
            && !k.valid && k.pending == [] && k.pendingChars == 0
            && k.screen == c.cache.screen && k.autowrap == c.cache.autowrap
            && StateOf(AfterAll(vt, c, inputs), 0).terminalSnapshot.None?
    decreases |inputs|
  {
    if inputs != [] {
      TransitionIsGood(vt, c, inputs[0]);
      FaultIsForever(vt, Transition(vt, c, inputs[0]), inputs[1..]);
    }
  }

  function TextsOf<S>(inputs: seq<Input<S>>): seq<Text> {
    if inputs == [] then []
    else (if inputs[0].Append? then [inputs[0].data] else []) + TextsOf(inputs[1..])
  }

  ghost function JournaledAll(j: Journal, texts: seq<Text>): Journal
    requires MarkingOk(j.marking)
    decreases |texts|
  {
    if texts == [] then j else JournaledAll(Journaled(j, texts[0]), texts[1..])
  }

  /** The events published along the way: one for each append, with the number it was given. */
  ghost function Published<S>(vt: Vt<S>, c: Core<S>, inputs: seq<Input<S>>): seq<Chunk>
    requires MarkingOk(c.journal.marking)
    decreases |inputs|
  {
    if inputs == [] then []
    else
      var next := Transition(vt, c, inputs[0]);
      (if inputs[0].Append? then [Chunk(next.journal.number, inputs[0].data)] else [])
      + Published(vt, next, inputs[1..])
  }

  lemma TransitionJournal<S>(vt: Vt<S>, c: Core<S>, input: Input<S>)
    requires MarkingOk(c.journal.marking)
    ensures Transition(vt, c, input).journal == if input.Append? then Journaled(c.journal, input.data) else c.journal
  {
  }

  lemma TextsOfParts<S>(inputs: seq<Input<S>>)
    requires inputs != []
    ensures var texts := TextsOf(inputs);
            if inputs[0].Append? then texts != [] && texts[0] == inputs[0].data && texts[1..] == TextsOf(inputs[1..])
            else texts == TextsOf(inputs[1..])
  {
  }

  /** Numbers, chunks, output and events depend on the texts only: not on the terminal, its faults,
      resizes, checkpoints or the clock. */
  lemma {:induction false} JournalDependsOnTexts<S>(vt: Vt<S>, c: Core<S>, inputs: seq<Input<S>>)
    requires MarkingOk(c.journal.marking)
    ensures AfterAll(vt, c, inputs).journal == JournaledAll(c.journal, TextsOf(inputs))
    ensures Published(vt, c, inputs) == Numbered(c.journal.number, TextsOf(inputs))
    decreases |inputs|
  {
    if inputs != [] {
      TransitionJournal(vt, c, inputs[0]);
      TextsOfParts(inputs);
      JournalDependsOnTexts(vt, Transition(vt, c, inputs[0]), inputs[1..]);
    }
  }

  /** Two sessions with the same texts and any faults, even of different terminals. */
  lemma FaultsDoNotReachTheJournal<S, T>(vt: Vt<S>, c: Core<S>, inputs: seq<Input<S>>,
      wt: Vt<T>, d: Core<T>, others: seq<Input<T>>)
    requires MarkingOk(c.journal.marking) && c.journal == d.journal && TextsOf(inputs) == TextsOf(others)
    ensures AfterAll(vt, c, inputs).journal == AfterAll(wt, d, others).journal
    ensures Published(vt, c, inputs) == Published(wt, d, others)
  {
    JournalDependsOnTexts(vt, c, inputs);
    JournalDependsOnTexts(wt, d, others);
  }

  // ---- What the journal holds -----------------------------------------------------------------------------

  ghost function VisibleAll(m: Option<Marking>, texts: seq<Text>): Text
    requires MarkingOk(m)
  {
    match m
    case None => Concat(texts)
    case Some(k) => EatAll(Stripper(k.prefix), k.pending, k.completed, texts).visible
  }

  lemma VisibleAllStep(m: Option<Marking>, texts: seq<Text>)
    requires MarkingOk(m) && texts != []
    ensures VisibleAll(m, texts) == VisibleOf(m, texts[0]) + VisibleAll(MarkedAfter(m, texts[0]), texts[1..])
  {
  }

  lemma {:induction false} JournalKeepsChunks(j: Journal, texts: seq<Text>)
    requires MarkingOk(j.marking)
    ensures var all := StoredAll(Numbered(j.number, texts), PTY_OUTPUT_MAX_CHARS); var r := JournaledAll(j, texts);
            r.number == j.number + |texts| && r.chunks == FitEach(j.chunks, all, Chars, PTY_OUTPUT_MAX_CHARS)
    decreases |texts|
  {
    if texts != [] {
      JournalKeepsChunks(Journaled(j, texts[0]), texts[1..]);
      var numbered := Numbered(j.number, texts);
      assert numbered[1..] == Numbered(j.number + 1, texts[1..]);
      var all := StoredAll(numbered, PTY_OUTPUT_MAX_CHARS);
      assert all[1..] == StoredAll(numbered[1..], PTY_OUTPUT_MAX_CHARS);
    }
  }

  lemma {:induction false} JournalKeepsOutput(j: Journal, texts: seq<Text>)
    requires MarkingOk(j.marking) && |j.output| <= PTY_OUTPUT_MAX_CHARS
    ensures JournaledAll(j, texts).output == Tail(j.output + VisibleAll(j.marking, texts), PTY_OUTPUT_MAX_CHARS)
    decreases |texts|
  {
    if texts == [] {
      assert j.output + [] == j.output;
    } else {
      var shown, rest := VisibleOf(j.marking, texts[0]), VisibleAll(MarkedAfter(j.marking, texts[0]), texts[1..]);
      JournalKeepsOutput(Journaled(j, texts[0]), texts[1..]);
      VisibleAllStep(j.marking, texts);
      TailAppend(j.output + shown, rest, PTY_OUTPUT_MAX_CHARS);
      assert j.output + shown + rest == j.output + (shown + rest);
    }
  }

  /** The journal of a session: every text is numbered; the newest chunks that fit are kept, and the
      end of the text with the launch marker taken out. */
  lemma JournalMeaning(marking: Option<Marking>, texts: seq<Text>)
    requires MarkingOk(marking)
    ensures var j := JournaledAll(Journal(0, [], [], marking), texts);
            && j.number == |texts|
            && j.chunks == Fit(StoredAll(Numbered(0, texts), PTY_OUTPUT_MAX_CHARS), Chars, PTY_OUTPUT_MAX_CHARS)
            && j.output == Tail(VisibleAll(marking, texts), PTY_OUTPUT_MAX_CHARS)
  {
    var j := Journal(0, [], [], marking);
    JournalKeepsChunks(j, texts);
    JournalKeepsOutput(j, texts);
    ChunkWindowIsFit(Numbered(0, texts), PTY_OUTPUT_MAX_CHARS);
    assert [] + VisibleAll(marking, texts) == VisibleAll(marking, texts);
  }

  // ---- The budget of pending operations -------------------------------------------------------------------

  /** An append that shows anything ends within the budget. */
  lemma AppendEndsWithinBudget<S>(vt: Vt<S>, cols: nat, rows: nat, marking: Option<Marking>, fails: bool,
      inputs: seq<Input<S>>, last: Input<S>)
    requires MarkingOk(marking) && last.Append?
    ensures var c := AfterAll(vt, Start(vt, cols, rows, marking, fails), inputs);
            VisibleOf(c.journal.marking, last.data) != [] ==>
              var k := Transition(vt, c, last).cache;
              CharsIn(k.pending) <= SNAPSHOT_PENDING_MAX_CHARS && |k.pending| <= SNAPSHOT_PENDING_MAX_OPS
  {
    var c := AfterAll(vt, Start(vt, cols, rows, marking, fails), inputs);
    EveryStateIsGood(vt, cols, rows, marking, fails, inputs);
    TransitionIsGood(vt, c, last);
    var visible := VisibleOf(c.journal.marking, last.data);
    if visible != [] {
      ShowedIsGood(vt, c.cache, visible, last.now, last.torn);
    }
  }

  /** A resize keeps the budget exactly when it does not add the one operation too many. */
  lemma ResizeKeepsBudget<S>(vt: Vt<S>, k: Cache<S>, cols: nat, rows: nat, torn: Option<S>)
    requires Good(vt, k) && !OverBudget(k)
    ensures OverBudget(Resized(vt, k, cols, rows, torn)) <==>
            k.valid && torn.None? && |k.pending| == SNAPSHOT_PENDING_MAX_OPS
  {
  }

  function Resizes<S>(n: nat, cols: nat, rows: nat): seq<Input<S>> {
    if n == 0 then [] else [AskResize(cols, rows, None)] + Resizes(n - 1, cols, rows)
  }

  /** Resizes alone are never checked: with no output and no checkpoint between them, n resizes are
      n pending operations, whatever n is. */
  lemma {:induction false} ResizesPileUp<S>(vt: Vt<S>, c: Core<S>, n: nat, cols: nat, rows: nat)
    requires MarkingOk(c.journal.marking) && c.cache.valid && c.status == Running && SizeOk(cols, rows)
    ensures var k := AfterAll(vt, c, Resizes(n, cols, rows)).cache; k.valid && |k.pending| == |c.cache.pending| + n
    decreases n
  {
    if n > 0 {
      var inputs: seq<Input<S>> := Resizes(n, cols, rows);
      assert inputs[1..] == Resizes(n - 1, cols, rows);
      ResizesPileUp(vt, Transition(vt, c, inputs[0]), n - 1, cols, rows);
    }
  }

  /** The exit thread's checkpoint leaves nothing pending: the baseline alone is the final screen. */
  lemma ExitCheckpointIsFinal<S(!new)>(
      vt: Vt<S>, cols: nat, rows: nat, marking: Option<Marking>, fails: bool, inputs: seq<Input<S>>)
    requires Streams(vt) && KeepsSize(vt) && MarkingOk(marking)
    ensures var c := AfterAll(vt, Start(vt, cols, rows, marking, fails), inputs);
            c.cache.valid ==> IsFresh(vt, c, Transition(vt, c, ExitCheckpoint(false)).cache)
  {
    SessionCheckpointIsFresh(vt, cols, rows, marking, fails, inputs);
  }
}
