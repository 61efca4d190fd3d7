/** One PTY session under its state lock: the numbered journal, and the terminal kept beside it as
    a cache for reconnecting clients. */
module Session {
  import opened Options
  import opened Scanner
  import opened Utf8
  import opened Windows
  import opened Bounds
  import opened ListSnapshot
  import opened Terminal
  import opened Marker
  import DecMode

  const PTY_OUTPUT_MAX_CHARS := 200_000
  const SNAPSHOT_VERSION := 1
  const SNAPSHOT_QUIET_MS := 100
  const SNAPSHOT_PENDING_MAX_CHARS := 256 * 1024
  const SNAPSHOT_PENDING_MAX_OPS := 1024
  const MAX_COLS := 1024
  const MAX_ROWS := 512
  const MAX_GRID_CELLS := 500_000

  // ---- The journal: nothing in it looks at the terminal ------------------------------------------------

  /** The launch marker that is being looked for, and how far that has got. */
  datatype Marking = Marking(prefix: Text, pending: Text, completed: bool)

  datatype Journal = Journal(number: nat, chunks: seq<Chunk>, output: Text, marking: Option<Marking>)

  ghost predicate MarkingOk(m: Option<Marking>) {
    m.Some? ==> m.value.prefix != []
  }

  ghost function Stripped1(m: Option<Marking>, data: Text): Stripped
    requires MarkingOk(m)
  {
    match m
    case None => Stripped(data, [], true)
    case Some(k) => Eat(Stripper(k.prefix), k.pending, k.completed, data)
  }

  ghost function VisibleOf(m: Option<Marking>, data: Text): Text
    requires MarkingOk(m)
  {
    Stripped1(m, data).visible
  }

  ghost function MarkedAfter(m: Option<Marking>, data: Text): (r: Option<Marking>)
    requires MarkingOk(m)
    ensures MarkingOk(r)
  {
    match m
    case None => None
    case Some(k) => Some(Marking(k.prefix, Stripped1(m, data).pending, Stripped1(m, data).completed))
  }

  ghost function Journaled(j: Journal, data: Text): (r: Journal)
    requires MarkingOk(j.marking)
    ensures MarkingOk(r.marking)
  {
    var stored := Stored(Chunk(j.number + 1, data), PTY_OUTPUT_MAX_CHARS);
    Journal(j.number + 1, Fit(j.chunks + [stored], Chars, PTY_OUTPUT_MAX_CHARS),
            Tail(j.output + VisibleOf(j.marking, data), PTY_OUTPUT_MAX_CHARS), MarkedAfter(j.marking, data))
  }

  // ---- The cache: a frozen baseline and the operations since -------------------------------------------

  /** What has happened since the last checkpoint, one entry for each operation performed.  The
      program does not keep this. */
  datatype History<+S> = History(base: S, autowrap: bool, ops: seq<PendingOp>)

  datatype Cache<+S> = Cache(
    screen: S,
    valid: bool,
    baseline: Snapshot,
    pending: seq<PendingOp>,
    pendingChars: nat,
    dirty: bool,
    lastWriteAt: Option<nat>,
    autowrap: bool,
    modeTail: seq<byte>,
    history: History<S>)

  /** The screen, with autowrap, which the library does not keep. */
  function Baseline<S>(vt: Vt<S>, screen: S, autowrap: bool): Snapshot {
    var (cols, rows) := vt.size(screen);
    Snapshot(SNAPSHOT_VERSION, vt.render(screen, autowrap), cols, rows, [])
  }

  /** After a fault the terminal is given up for good. */
  function Failed<S>(k: Cache<S>): Cache<S> {
    k.(valid := false, dirty := false, pending := [], pendingChars := 0,
       baseline := k.baseline.(data := [], pending := []))
  }

  function Checkpointed<S>(vt: Vt<S>, k: Cache<S>, fails: bool): Cache<S> {
    if !k.valid then k
    else if fails then Failed(k)
    else k.(baseline := Baseline(vt, k.screen, k.autowrap), pending := [], pendingChars := 0, dirty := false,
            history := History(k.screen, k.autowrap, []))
  }

  function OverBudget<S>(k: Cache<S>): bool {
    k.pendingChars > SNAPSHOT_PENDING_MAX_CHARS || |k.pending| > SNAPSHOT_PENDING_MAX_OPS
  }

  /** Modes are followed before the library gets the text, so a fault does not undo that. */
  function ModesAfter<S>(k: Cache<S>, data: Text): Cache<S> {
    var r := DecMode.ScanBytes(k.modeTail + Encode(data));
    k.(autowrap := DecMode.Latest(r.out, k.autowrap), modeTail := r.tail)
  }

  function Processed<S>(vt: Vt<S>, k: Cache<S>, data: Text, now: nat): Cache<S> {
    k.(screen := vt.process(k.screen, Encode(data)), pending := Push(k.pending, data),
       pendingChars := k.pendingChars + |data|, lastWriteAt := Some(now), dirty := true,
       history := k.history.(ops := k.history.ops + [Data(data)]))
  }

  /** `torn` is what a fault leaves of the screen, if there is one. */
  function Showed<S>(vt: Vt<S>, k: Cache<S>, data: Text, now: nat, torn: Option<S>): Cache<S> {
    if !k.valid then k
    else if torn.Some? then Failed(ModesAfter(k, data).(screen := torn.value))
    else Processed(vt, ModesAfter(k, data), data, now)
  }

  function ShownWithinBudget<S>(
      vt: Vt<S>, k: Cache<S>, visible: Text, now: nat, torn: Option<S>, fails: bool): Cache<S>
  {
    if visible == [] then k
    else
      var after := Showed(vt, k, visible, now, torn);
      if OverBudget(after) then Checkpointed(vt, after, fails) else after
  }

  function Resized<S>(vt: Vt<S>, k: Cache<S>, cols: nat, rows: nat, torn: Option<S>): Cache<S> {
    if !k.valid then k
    else if torn.Some? then Failed(k.(screen := torn.value))
    else k.(screen := vt.setSize(k.screen, cols, rows), pending := k.pending + [Resize(cols, rows)], dirty := true,
            history := k.history.(ops := k.history.ops + [Resize(cols, rows)]))
  }

  function Refreshed<S>(vt: Vt<S>, k: Cache<S>, now: nat, fails: bool): Cache<S> {
    if k.dirty && (k.lastWriteAt.Some? ==> now - k.lastWriteAt.value >= SNAPSHOT_QUIET_MS)
    then Checkpointed(vt, k, fails)
    else k
  }

  // ---- All that the lock guards --------------------------------------------------------------------------

  datatype Status = Running | Exited

  datatype Core<+S> = Core(
    status: Status, exitCode: Option<int>, cols: nat, rows: nat, journal: Journal, cache: Cache<S>)

  predicate SizeOk(cols: nat, rows: nat) {
    1 <= cols <= MAX_COLS && 1 <= rows <= MAX_ROWS && cols * rows <= MAX_GRID_CELLS
  }

  /** The critical sections of the reader, the resize request, the maintenance timer and the exit
      thread, with the clock and the faults of the terminal library. */
  datatype Input<+S> =
    | Append(data: Text, now: nat, torn: Option<S>, fails: bool)
    | AskResize(newCols: nat, newRows: nat, torn: Option<S>)
    | Refresh(now: nat, fails: bool)
    | ChildExit(code: Option<int>)
    | ExitCheckpoint(fails: bool)

  ghost function Transition<S>(vt: Vt<S>, c: Core<S>, input: Input<S>): (r: Core<S>)
    requires MarkingOk(c.journal.marking)
    ensures MarkingOk(r.journal.marking)
  {
    match input
    case Append(data, now, torn, fails) =>
      c.(journal := Journaled(c.journal, data),
         cache := ShownWithinBudget(vt, c.cache, VisibleOf(c.journal.marking, data), now, torn, fails))
    case AskResize(cols, rows, torn) =>
      if !SizeOk(cols, rows) || c.status != Running then c
      else c.(cols := cols, rows := rows, cache := Resized(vt, c.cache, cols, rows, torn))
    case Refresh(now, fails) => c.(cache := Refreshed(vt, c.cache, now, fails))
    case ChildExit(code) => c.(status := Exited, exitCode := code)
    case ExitCheckpoint(fails) =>
      c.(cache := if c.cache.dirty then Checkpointed(vt, c.cache, fails) else c.cache)
  }

  ghost function AfterAll<S>(vt: Vt<S>, c: Core<S>, inputs: seq<Input<S>>): (r: Core<S>)
    requires MarkingOk(c.journal.marking)
    ensures MarkingOk(r.journal.marking)
    decreases |inputs|
  {
    if inputs == [] then c else AfterAll(vt, Transition(vt, c, inputs[0]), inputs[1..])
  }

  function SnapshotForRead<S>(k: Cache<S>): Option<Snapshot> {
    if !k.valid then None else Some(k.baseline.(pending := k.pending))
  }

  function BlankCache<S>(vt: Vt<S>, cols: nat, rows: nat): Cache<S> {
    var screen := vt.blank(cols, rows);
    Cache(screen, true, Snapshot(SNAPSHOT_VERSION, [], cols, rows, []), [], 0, true, None, true, [],
          History(screen, true, []))
  }

  function Unstarted<S>(vt: Vt<S>, cols: nat, rows: nat, marking: Option<Marking>): Core<S> {
    Core(Running, None, cols, rows, Journal(0, [], [], marking), BlankCache(vt, cols, rows))
  }

  /** A session starts with a checkpoint of the blank screen. */
  function Start<S>(vt: Vt<S>, cols: nat, rows: nat, marking: Option<Marking>, fails: bool): Core<S> {
    var c := Unstarted(vt, cols, rows, marking);
    c.(cache := Checkpointed(vt, c.cache, fails))
  }

  function MarkingFor(token: Option<Text>): (r: Option<Marking>)
    ensures r.Some? ==> r.value.prefix != []
  {
    if token.None? || token.value == [] then None else Some(Marking(Prefix(token.value), [], false))
  }

  // ---- The implementation ----------------------------------------------------------------------------------

  datatype SessionState = SessionState(
    status: Status, exitCode: Option<int>, cols: nat, rows: nat, number: nat, output: Text, chunks: seq<Chunk>,
    terminalSnapshot: Option<Snapshot>)

  function StateOf<S>(c: Core<S>, after: nat): SessionState {
    SessionState(c.status, c.exitCode, c.cols, c.rows, c.journal.number, c.journal.output,
                 Newer(c.journal.chunks, after), SnapshotForRead(c.cache))
  }

  datatype ResizeResult = Done(screenFailed: bool) | BadRequest | Conflict

  class Inner<S> {
    const vt: Vt<S>
    var status: Status
    var exitCode: Option<int>
    var cols: nat
    var rows: nat
    var number: nat
    const output: TextWindow
    const chunks: ChunkWindow
    var screen: S
    var screenValid: bool
    var baseline: Snapshot
    var pending: seq<PendingOp>
    var pendingChars: nat
    var snapshotDirty: bool
    var lastWriteAt: Option<nat>
    const marker: MarkerStripper?
    const modes: DecMode.DecModeTracker
    ghost var history: History<S>

    ghost const Repr: set<object>

    ghost predicate Valid()
      reads output, chunks
    {
      && output in Repr && chunks in Repr && modes in Repr && this !in Repr
      && (marker != null ==> marker in Repr && marker.prefix != [] && IsAscii(marker.prefix))
      && output.Valid() && output.maxChars == PTY_OUTPUT_MAX_CHARS
      && chunks.Valid() && chunks.maxChars == PTY_OUTPUT_MAX_CHARS
    }

    ghost function JournalNow(): (j: Journal)
      requires marker != null ==> marker.prefix != []
      reads `number, output, chunks, marker
      ensures MarkingOk(j.marking)
    {
      Journal(number, chunks.entries, output.Value(),
              if marker == null then None else Some(Marking(marker.prefix, marker.pending, marker.completed)))
    }

    ghost function CacheNow(): Cache<S>
      reads this, modes
    {
      Cache(screen, screenValid, baseline, pending, pendingChars, snapshotDirty, lastWriteAt,
            modes.autowrap, modes.tail, history)
    }

    ghost function Now(): (c: Core<S>)
      requires Valid()
      reads this, output, chunks, marker, modes
      ensures MarkingOk(c.journal.marking)
    {
      Core(status, exitCode, cols, rows, JournalNow(), CacheNow())
    }

    constructor (vt: Vt<S>, cols: nat, rows: nat, output: TextWindow, chunks: ChunkWindow,
        modes: DecMode.DecModeTracker, marker: MarkerStripper?)
      requires output.Valid() && output.maxChars == PTY_OUTPUT_MAX_CHARS && output.Value() == []
      requires chunks.Valid() && chunks.maxChars == PTY_OUTPUT_MAX_CHARS && chunks.entries == []
      requires modes.autowrap && modes.tail == []
      requires marker != null ==> marker.prefix != [] && IsAscii(marker.prefix)
      ensures Valid() && this.vt == vt && this.output == output && this.chunks == chunks && this.marker == marker
      ensures Repr == {output, chunks, modes} + (if marker == null then {} else {marker})
      ensures status == Running && exitCode == None && this.cols == cols && this.rows == rows && number == 0
      ensures CacheNow() == BlankCache(vt, cols, rows)
    {
      this.vt := vt;
      status, exitCode := Running, None;
      this.cols, this.rows := cols, rows;
      number := 0;
      this.output, this.chunks, this.modes, this.marker := output, chunks, modes, marker;
      screen := vt.blank(cols, rows);
      screenValid := true;
      baseline := Snapshot(SNAPSHOT_VERSION, [], cols, rows, []);
      pending, pendingChars := [], 0;
      snapshotDirty := true;
      lastWriteAt := None;
      history := History(vt.blank(cols, rows), true, []);
      Repr := {output, chunks, modes} + (if marker == null then {} else {marker});
    }

    predicate PendingOverBudget()
      reads this
    {
      pendingChars > SNAPSHOT_PENDING_MAX_CHARS || |pending| > SNAPSHOT_PENDING_MAX_OPS
    }

    method Fail()
      requires Valid()
      modifies this`screenValid, this`snapshotDirty, this`pending, this`pendingChars, this`baseline
      ensures Valid() && JournalNow() == old(JournalNow()) && CacheNow() == Failed(old(CacheNow()))
    {
      screenValid := false;
      snapshotDirty := false;
      pending := [];
      pendingChars := 0;
      baseline := baseline.(data := [], pending := []);
    }

    method Checkpoint(fails: bool) returns (failed: bool)
      requires Valid()
      modifies this`screenValid, this`snapshotDirty, this`pending, this`pendingChars, this`baseline, this`history
      ensures Valid() && JournalNow() == old(JournalNow()) && CacheNow() == Checkpointed(vt, old(CacheNow()), fails)
      ensures failed <==> old(screenValid) && fails
    {
      if !screenValid {
        return false;
      }
      if fails {
        Fail();
        return true;
      }
      baseline := Baseline(vt, screen, modes.autowrap);
      pending := [];
      pendingChars := 0;
      snapshotDirty := false;
      history := History(screen, modes.autowrap, []);
      return false;
    }

    method Tear(torn: S)
      requires Valid()
      modifies this`screen, this`screenValid, this`snapshotDirty, this`pending, this`pendingChars, this`baseline
      ensures Valid() && JournalNow() == old(JournalNow())
      ensures CacheNow() == Failed(old(CacheNow()).(screen := torn))
    {
      screen := torn;
      Fail();
    }

    method PushPending(data: Text)
      modifies this`pending, this`pendingChars
      ensures pending == Push(old(pending), data) && pendingChars == old(pendingChars) + |data|
    {
      if pending != [] && pending[|pending| - 1].Data? {
        pending := pending[..|pending| - 1] + [Data(pending[|pending| - 1].data + data)];
      } else {
        pending := pending + [Data(data)];
      }
      pendingChars := pendingChars + |data|;
    }

    method FollowModes(data: Text)
      modifies modes
      ensures CacheNow() == ModesAfter(old(CacheNow()), data)
    {
      modes.ScanChunk(Encode(data));
    }

    method Process(data: Text, now: nat)
      modifies this`screen, this`snapshotDirty, this`pending, this`pendingChars, this`history, this`lastWriteAt
      ensures CacheNow() == Processed(vt, old(CacheNow()), data, now)
    {
      screen := vt.process(screen, Encode(data));
      PushPending(data);
      lastWriteAt := Some(now);
      snapshotDirty := true;
      history := history.(ops := history.ops + [Data(data)]);
    }

    method StripMarker(data: Text) returns (visible: Text)
      requires marker != null ==> marker.prefix != [] && IsAscii(marker.prefix)
      modifies marker
      ensures var m := if marker == null then None
                       else Some(Marking(marker.prefix, old(marker.pending), old(marker.completed)));
              && visible == VisibleOf(m, data)
              && MarkedAfter(m, data)
                 == if marker == null then None else Some(Marking(marker.prefix, marker.pending, marker.completed))
    {
      visible := data;
      if marker != null {
        AsciiStrips(marker.pending + data, marker.prefix);
        var shown := marker.Consume(data);
        visible := shown.value;
      }
    }

    method Number(data: Text)
      requires Valid()
      modifies this`number, chunks
      ensures Valid() && number == old(number) + 1
      ensures chunks.entries == Fit(old(chunks.entries) + [Stored(Chunk(number, data), PTY_OUTPUT_MAX_CHARS)], Chars,
                                    PTY_OUTPUT_MAX_CHARS)
    {
      number := number + 1;
      chunks.Push(number, data);
    }

    method Keep(visible: Text)
      requires Valid()
      modifies output
      ensures Valid() && output.Value() == Tail(old(output.Value()) + visible, PTY_OUTPUT_MAX_CHARS)
    {
      if visible != [] {
        output.Push(visible);
      } else {
        NothingKept(output.Value(), visible, PTY_OUTPUT_MAX_CHARS);
      }
    }

    /** Numbers and journals one chunk; returns what of it is to be seen. */
    method Record(data: Text) returns (visible: Text)
      requires Valid()
      modifies this`number, Repr - {modes}
      ensures Valid() && JournalNow() == Journaled(old(JournalNow()), data) && CacheNow() == old(CacheNow())
      ensures visible == VisibleOf(old(JournalNow()).marking, data)
    {
      Number(data);
      visible := StripMarker(data);
      Keep(visible);
    }

    /** `torn` is what a fault leaves of the screen, if there is one. */
    method Show(visible: Text, now: nat, torn: Option<S>) returns (failed: bool)
      requires Valid()
      modifies this`screen, this`screenValid, this`snapshotDirty, this`pending, this`pendingChars, this`baseline,
               this`history, this`lastWriteAt, modes
      ensures Valid() && JournalNow() == old(JournalNow())
      ensures CacheNow() == Showed(vt, old(CacheNow()), visible, now, torn)
      ensures failed <==> old(screenValid) && torn.Some?
    {
      if !screenValid {
        return false;
      }
      FollowModes(visible);
      if torn.Some? {
        Tear(torn.value);
        return true;
      }
      Process(visible, now);
      return false;
    }

    method ShowWithinBudget(visible: Text, now: nat, torn: Option<S>, fails: bool) returns (screenFailed: bool)
      requires Valid()
      modifies this`screen, this`screenValid, this`snapshotDirty, this`pending, this`pendingChars, this`baseline,
               this`history, this`lastWriteAt, modes
      ensures Valid() && JournalNow() == old(JournalNow())
      ensures CacheNow() == ShownWithinBudget(vt, old(CacheNow()), visible, now, torn, fails)
    {
      screenFailed := false;
      if visible != [] {
        screenFailed := Show(visible, now, torn);
        if PendingOverBudget() {
          var failed := Checkpoint(fails);
          screenFailed := screenFailed || failed;
        }
      }
    }

    /** One chunk of text.  `fails` says whether a checkpoint fails, should one be taken. */
    method AppendText(data: Text, now: nat, torn: Option<S>, fails: bool) returns (event: nat, screenFailed: bool)
      requires Valid()
      modifies this, Repr
      ensures Valid() && Now() == Transition(vt, old(Now()), Append(data, now, torn, fails))
      ensures event == number == old(number) + 1
    {
      var visible := Record(data);
      event := number;
      screenFailed := ShowWithinBudget(visible, now, torn, fails);
    }

    method SetSize(cols: nat, rows: nat, torn: Option<S>) returns (failed: bool)
      requires Valid()
      modifies this`screen, this`screenValid, this`snapshotDirty, this`pending, this`pendingChars, this`baseline,
               this`history
      ensures Valid() && JournalNow() == old(JournalNow())
      ensures CacheNow() == Resized(vt, old(CacheNow()), cols, rows, torn)
      ensures failed <==> old(screenValid) && torn.Some?
    {
      if !screenValid {
        return false;
      }
      if torn.Some? {
        Tear(torn.value);
        return true;
      }
      screen := vt.setSize(screen, cols, rows);
      pending := pending + [Resize(cols, rows)];
      snapshotDirty := true;
      history := history.(ops := history.ops + [Resize(cols, rows)]);
      return false;
    }

    method TryResize(cols: nat, rows: nat, torn: Option<S>) returns (r: ResizeResult)
      requires Valid()
      modifies this
      ensures Valid() && Now() == Transition(vt, old(Now()), AskResize(cols, rows, torn))
      ensures r.BadRequest? <==> !SizeOk(cols, rows)
      ensures r.Conflict? <==> SizeOk(cols, rows) && old(status) != Running
      ensures r.Done? ==> (r.screenFailed <==> old(screenValid) && torn.Some?)
    {
      if !SizeOk(cols, rows) {
        return BadRequest;
      }
      if status != Running {
        return Conflict;
      }
      this.cols := cols;
      this.rows := rows;
      var failed := SetSize(cols, rows, torn);
      return Done(failed);
    }

    /** The maintenance timer: a checkpoint when nothing has been written for a while. */
    method RefreshSnapshot(now: nat, fails: bool) returns (screenFailed: bool)
      requires Valid()
      modifies this
      ensures Valid() && Now() == Transition(vt, old(Now()), Refresh(now, fails))
    {
      if !snapshotDirty {
        return false;
      }
      var quiet := lastWriteAt.Some? ==> now - lastWriteAt.value >= SNAPSHOT_QUIET_MS;
      screenFailed := false;
      if quiet {
        screenFailed := Checkpoint(fails);
      }
    }

    method SetExited(code: Option<int>)
      requires Valid()
      modifies this
      ensures Valid() && Now() == Transition(vt, old(Now()), ChildExit(code))
    {
      status := Exited;
      exitCode := code;
    }

    method CheckpointAfterExit(fails: bool) returns (screenFailed: bool)
      requires Valid()
      modifies this
      ensures Valid() && Now() == Transition(vt, old(Now()), ExitCheckpoint(fails))
    {
      screenFailed := false;
      if snapshotDirty {
        screenFailed := Checkpoint(fails);
      }
    }

    /** What `attach` answers: only the chunks numbered above `after`. */
    method State(after: nat) returns (r: SessionState)
      requires Valid()
      ensures r == StateOf(Now(), after)
    {
      var text := output.Value();
      var snapshot := if screenValid then Some(baseline.(pending := pending)) else None;
      r := SessionState(status, exitCode, cols, rows, number, text, Newer(chunks.entries, after), snapshot);
    }
  }

  /** An empty launch token counts as none.  For a token that is not ASCII, the session could panic. */
  method MarkerFor(token: Option<Text>) returns (marker: MarkerStripper?)
    requires token.Some? ==> IsAscii(token.value)
    ensures marker == null <==> MarkingFor(token).None?
    ensures marker != null ==> fresh(marker) && IsAscii(marker.prefix)
    ensures marker != null ==>
              MarkingFor(token) == Some(Marking(marker.prefix, marker.pending, marker.completed))
  {
    marker := null;
    if token.Some? && token.value != [] {
      AsciiPrefix(token.value);
      marker := new MarkerStripper(token.value);
    }
  }

  method Assemble<S>(vt: Vt<S>, cols: nat, rows: nat, token: Option<Text>) returns (inner: Inner<S>)
    requires token.Some? ==> IsAscii(token.value)
    ensures inner.Valid() && fresh(inner) && fresh(inner.Repr) && inner.vt == vt
    ensures inner.Now() == Unstarted(vt, cols, rows, MarkingFor(token))
  {
    var output := new TextWindow(PTY_OUTPUT_MAX_CHARS);
    var chunks := new ChunkWindow(PTY_OUTPUT_MAX_CHARS);
    var modes := new DecMode.DecModeTracker();
    var marker := MarkerFor(token);
    inner := new Inner(vt, cols, rows, output, chunks, modes, marker);
  }

  method Spawn<S>(vt: Vt<S>, cols: nat, rows: nat, token: Option<Text>, fails: bool) returns (inner: Inner<S>)
    requires token.Some? ==> IsAscii(token.value)
    ensures inner.Valid() && fresh(inner) && fresh(inner.Repr) && inner.vt == vt
    ensures inner.Now() == Start(vt, cols, rows, MarkingFor(token), fails)
  {
    inner := Assemble(vt, cols, rows, token);
    var _ := inner.Checkpoint(fails);
  }
}
