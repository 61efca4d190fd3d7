/** Structured runs, and the registry that admits, lists and drains them. */
module StructuredRuns {
  // A run has a reader for each of its pipes and a reaper.

  import opened Scanner
  import opened Utf8
  import opened Windows
  import opened Bounds
  import opened StructuredLog

  const MAX_ADMITTED_RUNS := 8

  // ---- One run -------------------------------------------------------------------------------------------

  /** `Holding`: a text has been appended under the lock of the run and is yet to be published. */
  datatype Reader = Reading | Holding | ReaderDone

  datatype Stream = Stream(texts: seq<Text>, reader: Reader)

  datatype Status = Running | Exited

  /** The reaper waits for the child, joins both readers, marks the run as exited, and announces it. */
  datatype Reaper = WaitingForChild | JoiningOut | JoiningErr | Joined | Marked | Announced

  datatype Event = StreamEvent(isOut: bool, chunk: Chunk) | ExitEvent

  datatype Run = Run(status: Status, stdout: Stream, stderr: Stream, reaper: Reaper, published: seq<Event>)

  const NEW_RUN := Run(Running, Stream([], Reading), Stream([], Reading), WaitingForChild, [])

  /** A program that cannot be executed is an exited run; the thread that spawns announces it. */
  const FAILED_RUN := Run(Exited, Stream([], ReaderDone), Stream([], ReaderDone), Marked, [])

  datatype RunAction =
    | Append(isOut: bool, data: Text) | Publish(isOut: bool) | EndRead(isOut: bool)
    | ChildWaited | JoinOut | JoinErr | MarkExited | Announce

  function StreamOf(r: Run, isOut: bool): Stream {
    if isOut then r.stdout else r.stderr
  }

  function WithStream(r: Run, isOut: bool, t: Stream): Run {
    if isOut then r.(stdout := t) else r.(stderr := t)
  }

  predicate RunEnabled(r: Run, a: RunAction) {
    match a
    case Append(isOut, data) =>
      StreamOf(r, isOut).reader.Reading? && data != [] && |Encode(data)| <= PIPE_READ_BYTES + 3
    case Publish(isOut) => StreamOf(r, isOut).reader.Holding? && StreamOf(r, isOut).texts != []
    case EndRead(isOut) => StreamOf(r, isOut).reader.Reading?
    case ChildWaited => r.reaper.WaitingForChild?
    case JoinOut => r.reaper.JoiningOut? && r.stdout.reader.ReaderDone?
    case JoinErr => r.reaper.JoiningErr? && r.stderr.reader.ReaderDone?
    case MarkExited => r.reaper.Joined?
    case Announce => r.reaper.Marked?
  }

  function RunApply(r: Run, a: RunAction): Run
    requires RunEnabled(r, a)
  {
    match a
    case Append(isOut, data) => WithStream(r, isOut, Stream(StreamOf(r, isOut).texts + [data], Holding))
    case Publish(isOut) =>
      var texts := StreamOf(r, isOut).texts;
      WithStream(r, isOut, Stream(texts, Reading)).(
        published := r.published + [StreamEvent(isOut, Chunk(|texts|, texts[|texts| - 1]))])
    case EndRead(isOut) => WithStream(r, isOut, StreamOf(r, isOut).(reader := ReaderDone))
    case ChildWaited => r.(reaper := JoiningOut)
    case JoinOut => r.(reaper := JoiningErr)
    case JoinErr => r.(reaper := Joined)
    case MarkExited => r.(status := Exited, reaper := Marked)
    case Announce => r.(reaper := Announced, published := r.published + [ExitEvent])
  }

  function RunNext(r: Run, a: RunAction): Run {
    if RunEnabled(r, a) then RunApply(r, a) else r
  }

  function RunAll(r: Run, actions: seq<RunAction>): Run
    decreases |actions|
  {
    if actions == [] then r else RunAll(RunNext(r, actions[0]), actions[1..])
  }

  /** The chunks of the events published for one stream, in order. */
  function EventsOf(published: seq<Event>, isOut: bool): seq<Chunk> {
    if published == [] then []
    else
      var last := published[|published| - 1];
      EventsOf(published[..|published| - 1], isOut)
      + (if last.StreamEvent? && last.isOut == isOut then [last.chunk] else [])
  }

  function PublishedTexts(t: Stream): seq<Text> {
    if t.reader.Holding? && t.texts != [] then t.texts[..|t.texts| - 1] else t.texts
  }

  /** The events of a stream are its texts, numbered 1, 2, 3 and so on, but for one not yet published. */
  ghost predicate StreamOk(published: seq<Event>, isOut: bool, t: Stream) {
    && EventsOf(published, isOut) == Numbered(0, PublishedTexts(t))
    && (t.reader.Holding? ==> t.texts != [])
    && (forall d | d in t.texts :: |Encode(d)| <= PIPE_READ_BYTES + 3)
  }

  /** Exit is published once, and after it nothing. */
  ghost predicate ExitOk(r: Run) {
    if r.reaper.Announced? then
      r.published != [] && r.published[|r.published| - 1] == ExitEvent
      && ExitEvent !in r.published[..|r.published| - 1]
    else ExitEvent !in r.published
  }

  ghost predicate RunOk(r: Run) {
    && StreamOk(r.published, true, r.stdout) && StreamOk(r.published, false, r.stderr)
    && ExitOk(r)
    && (r.status == Exited <==> r.reaper.Marked? || r.reaper.Announced?)
    && (r.reaper.JoiningErr? || r.reaper.Joined? || r.status == Exited ==> r.stdout.reader.ReaderDone?)
    && (r.reaper.Joined? || r.status == Exited ==> r.stderr.reader.ReaderDone?)
  }

  lemma EventsSnoc(published: seq<Event>, e: Event, isOut: bool)
    ensures EventsOf(published + [e], isOut)
         == EventsOf(published, isOut) + (if e.StreamEvent? && e.isOut == isOut then [e.chunk] else [])
  {
    assert (published + [e])[..|published|] == published;
  }

  lemma {:induction false} NumberedSnoc(number: nat, texts: seq<Text>, last: Text)
    ensures Numbered(number, texts + [last]) == Numbered(number, texts) + [Chunk(number + |texts| + 1, last)]
    decreases |texts|
  {
    if texts != [] {
      assert (texts + [last])[1..] == texts[1..] + [last];
      NumberedSnoc(number + 1, texts[1..], last);
    } else {
      assert (texts + [last])[1..] == [];
    }
  }

  lemma AppendKeepsRunOk(r: Run, isOut: bool, data: Text)
    requires RunOk(r) && RunEnabled(r, Append(isOut, data))
    ensures RunOk(RunApply(r, Append(isOut, data)))
  {
    var texts := StreamOf(r, isOut).texts;
    assert (texts + [data])[..|texts|] == texts;
  }

  lemma {:induction false} NumberedLast(texts: seq<Text>)
    requires texts != []
    ensures Numbered(0, texts) == Numbered(0, texts[..|texts| - 1]) + [Chunk(|texts|, texts[|texts| - 1])]
  {
    NumberedSnoc(0, texts[..|texts| - 1], texts[|texts| - 1]);
    assert texts[..|texts| - 1] + [texts[|texts| - 1]] == texts;
  }

  lemma StreamOkPublished(published: seq<Event>, isOut: bool, t: Stream)
    requires StreamOk(published, isOut, t) && t.reader.Holding?
    ensures var e := StreamEvent(isOut, Chunk(|t.texts|, t.texts[|t.texts| - 1]));
            StreamOk(published + [e], isOut, t.(reader := Reading))
  {
    var e := StreamEvent(isOut, Chunk(|t.texts|, t.texts[|t.texts| - 1]));
    EventsSnoc(published, e, isOut);
    NumberedLast(t.texts);
    assert PublishedTexts(t) == t.texts[..|t.texts| - 1];
  }

  lemma StreamOkOther(published: seq<Event>, e: Event, isOut: bool, t: Stream)
    requires StreamOk(published, isOut, t) && (e.StreamEvent? ==> e.isOut != isOut)
    ensures StreamOk(published + [e], isOut, t)
  {
    EventsSnoc(published, e, isOut);
  }

  lemma PublishKeepsRunOk(r: Run, isOut: bool)
    requires RunOk(r) && RunEnabled(r, Publish(isOut))
    ensures RunOk(RunApply(r, Publish(isOut)))
  {
    var t := StreamOf(r, isOut);
    var e := StreamEvent(isOut, Chunk(|t.texts|, t.texts[|t.texts| - 1]));
    StreamOkPublished(r.published, isOut, t);
    StreamOkOther(r.published, e, !isOut, StreamOf(r, !isOut));
    assert ExitOk(RunApply(r, Publish(isOut)));
  }

  lemma AnnounceKeepsRunOk(r: Run)
    requires RunOk(r) && RunEnabled(r, Announce)
    ensures RunOk(RunApply(r, Announce))
  {
    StreamOkOther(r.published, ExitEvent, true, r.stdout);
    StreamOkOther(r.published, ExitEvent, false, r.stderr);
    assert (r.published + [ExitEvent])[..|r.published|] == r.published;
  }

  lemma QuietStepKeepsRunOk(r: Run, a: RunAction)
    requires RunOk(r) && RunEnabled(r, a) && !a.Append? && !a.Publish? && !a.Announce?
    ensures RunOk(RunApply(r, a))
  {
  }

  lemma RunNextKeepsRunOk(r: Run, a: RunAction)
    requires RunOk(r)
    ensures RunOk(RunNext(r, a))
  {
    if RunEnabled(r, a) {
      if a.Append? {
        AppendKeepsRunOk(r, a.isOut, a.data);
      } else if a.Publish? {
        PublishKeepsRunOk(r, a.isOut);
      } else if a.Announce? {
        AnnounceKeepsRunOk(r);
      } else {
        QuietStepKeepsRunOk(r, a);
      }
    }
  }

  /** However its threads interleave, a run's events are numbered 1, 2, 3 and so on for each stream,
      and Exit comes once, after all of them. */
  lemma {:induction false} RunIsOrderly(r: Run, actions: seq<RunAction>)
    requires RunOk(r)
    ensures RunOk(RunAll(r, actions))
    decreases |actions|
  {
    if actions != [] {
      RunNextKeepsRunOk(r, actions[0]);
      RunIsOrderly(RunNext(r, actions[0]), actions[1..]);
    }
  }

  lemma NewRunsAreOrderly(actions: seq<RunAction>)
    ensures RunOk(RunAll(NEW_RUN, actions)) && RunOk(RunAll(FAILED_RUN, actions))
  {
    RunIsOrderly(NEW_RUN, actions);
    RunIsOrderly(FAILED_RUN, actions);
  }

  lemma ExitedRunIsFrozenNext(r: Run, a: RunAction)
    requires RunOk(r) && r.status == Exited
    ensures var n := RunNext(r, a); n.status == Exited && n.stdout == r.stdout && n.stderr == r.stderr
  {
  }

  /** Once a run is marked as exited its logs never change: what a client replays is final. */
  lemma {:induction false} ExitedRunIsFrozen(r: Run, actions: seq<RunAction>)
    requires RunOk(r) && r.status == Exited
    ensures var n := RunAll(r, actions); n.status == Exited && n.stdout == r.stdout && n.stderr == r.stderr
    decreases |actions|
  {
    if actions != [] {
      RunNextKeepsRunOk(r, actions[0]);
      ExitedRunIsFrozenNext(r, actions[0]);
      ExitedRunIsFrozen(RunNext(r, actions[0]), actions[1..]);
    }
  }

  // ---- What a run brings out -------------------------------------------------------------------------------------

  function AppendIn(r: Run, a: RunAction, isOut: bool): seq<Text> {
    if RunEnabled(r, a) && a.Append? && a.isOut == isOut then [a.data] else []
  }

  lemma StreamStep(r: Run, a: RunAction, isOut: bool)
    ensures StreamOf(RunNext(r, a), isOut).texts == StreamOf(r, isOut).texts + AppendIn(r, a, isOut)
  {
    assert StreamOf(r, isOut).texts + [] == StreamOf(r, isOut).texts;
  }

  /** The texts that the reader of a stream appends along the way. */
  function AppendsIn(r: Run, actions: seq<RunAction>, isOut: bool): seq<Text>
    decreases |actions|
  {
    if actions == [] then []
    else AppendIn(r, actions[0], isOut) + AppendsIn(RunNext(r, actions[0]), actions[1..], isOut)
  }

  /** A stream has all texts its reader has appended, in order, and nothing else. */
  lemma {:induction false} StreamHasAppends(r: Run, actions: seq<RunAction>, isOut: bool)
    ensures StreamOf(RunAll(r, actions), isOut).texts == StreamOf(r, isOut).texts + AppendsIn(r, actions, isOut)
    decreases |actions|
  {
    if actions != [] {
      var next := RunNext(r, actions[0]);
      StreamStep(r, actions[0], isOut);
      StreamHasAppends(next, actions[1..], isOut);
      Associates(StreamOf(r, isOut).texts, AppendIn(r, actions[0], isOut), AppendsIn(next, actions[1..], isOut));
    } else {
      assert StreamOf(r, isOut).texts + [] == StreamOf(r, isOut).texts;
    }
  }

  lemma {:induction false} RunAllConcat(r: Run, a: seq<RunAction>, b: seq<RunAction>)
    ensures RunAll(r, a + b) == RunAll(RunAll(r, a), b)
    decreases |a|
  {
    if a == [] {
      assert a + b == b;
    } else {
      assert (a + b)[1..] == a[1..] + b;
      RunAllConcat(RunNext(r, a[0]), a[1..], b);
    }
  }

  lemma RunAllOne(r: Run, a: RunAction)
    ensures RunAll(r, [a]) == RunNext(r, a)
  {
    assert [a][1..] == [];
  }

  function Finishing(r: Run): seq<RunAction> {
    match r.reaper
    case WaitingForChild => [ChildWaited, JoinOut, JoinErr, MarkExited, Announce]
    case JoiningOut => [JoinOut, JoinErr, MarkExited, Announce]
    case JoiningErr => [JoinErr, MarkExited, Announce]
    case Joined => [MarkExited, Announce]
    case Marked => [Announce]
    case Announced => []
  }

  lemma ReaperStep(r: Run)
    requires r.stdout.reader.ReaderDone? && r.stderr.reader.ReaderDone? && !r.reaper.Announced?
    ensures var a := Finishing(r)[0]; var t := RunNext(r, a);
            && Finishing(r)[1..] == Finishing(t) && t.stdout == r.stdout && t.stderr == r.stderr
            && (if r.reaper.Marked? then t.reaper.Announced? && t.published == r.published + [ExitEvent]
                else !t.reaper.Announced? && t.published == r.published)
  {
  }

  lemma {:induction false} ReaperFinishes(r: Run)
    requires RunOk(r) && r.stdout.reader.ReaderDone? && r.stderr.reader.ReaderDone?
    ensures var t := RunAll(r, Finishing(r));
            && t.status == Exited && t.reaper.Announced? && t.stdout == r.stdout && t.stderr == r.stderr
            && t.published == if r.reaper.Announced? then r.published else r.published + [ExitEvent]
    decreases |Finishing(r)|
  {
    if !r.reaper.Announced? {
      var a := Finishing(r)[0];
      ReaperStep(r);
      RunNextKeepsRunOk(r, a);
      ReaperFinishes(RunNext(r, a));
    } else {
      assert r.status == Exited;
    }
  }

  lemma ReaderSteps(r: Run, isOut: bool)
    requires StreamOf(r, isOut).reader.Holding? ==> StreamOf(r, isOut).texts != []
    ensures var t := RunNext(RunNext(r, Publish(isOut)), EndRead(isOut));
            && StreamOf(t, isOut) == StreamOf(r, isOut).(reader := ReaderDone)
            && StreamOf(t, !isOut) == StreamOf(r, !isOut) && t.reaper == r.reaper
  {
  }

  lemma ReaderFinishes(r: Run, isOut: bool)
    requires RunOk(r)
    ensures var t := RunAll(r, [Publish(isOut), EndRead(isOut)]);
            && RunOk(t) && StreamOf(t, isOut) == StreamOf(r, isOut).(reader := ReaderDone)
            && StreamOf(t, !isOut) == StreamOf(r, !isOut) && t.reaper == r.reaper
  {
    var middle := RunNext(r, Publish(isOut));
    RunNextKeepsRunOk(r, Publish(isOut));
    RunNextKeepsRunOk(middle, EndRead(isOut));
    ReaderSteps(r, isOut);
    RunAllConcat(r, [Publish(isOut)], [EndRead(isOut)]);
    RunAllOne(r, Publish(isOut));
    RunAllOne(middle, EndRead(isOut));
    assert [Publish(isOut)] + [EndRead(isOut)] == [Publish(isOut), EndRead(isOut)];
  }

  /** From every state a run can come to its end, with every text it has appended published and then Exit. */
  lemma EveryRunCanEnd(r: Run) returns (actions: seq<RunAction>)
    requires RunOk(r)
    ensures var t := RunAll(r, actions);
            && RunOk(t) && t.status == Exited && t.reaper.Announced?
            && EventsOf(t.published, true) == Numbered(0, r.stdout.texts)
            && EventsOf(t.published, false) == Numbered(0, r.stderr.texts)
  {
    var out, err := [Publish(true), EndRead(true)], [Publish(false), EndRead(false)];
    ReaderFinishes(r, true);
    ReaderFinishes(RunAll(r, out), false);
    var quiet := RunAll(RunAll(r, out), err);
    ReaperFinishes(quiet);
    RunIsOrderly(quiet, Finishing(quiet));
    RunAllConcat(r, out, err);
    RunAllConcat(r, out + err, Finishing(quiet));
    actions := out + err + Finishing(quiet);
  }

  // ---- The registry ------------------------------------------------------------------------------------------

  type Id = string

  /** A run object; its number stands for its incarnation. */
  type Inc = nat

  datatype Spawn = Entered | Absent | NotDraining | Admitted

  /** Who holds the lock on the runs.  A listing takes the state of one run after the other; `late` says
      that it started after draining was set. */
  datatype Holder =
    | Free
    | Spawning(id: Id, phase: Spawn)
    | Listing(forMain: bool, late: bool, todo: set<Inc>, running: set<Inc>)

  /** The loop of the main thread leaves when it has been told to stop, or has drained. */
  datatype Main = Looping | ToCount | CountingRuns | Left(drained: bool)

  /** `all` has every run ever started.  The last three fields are history, which the program does not
      keep: what the latest listing that started after draining was set found registered, whether there
      was one, and whether such a one has counted 0 running. */
  datatype State = State(
    runs: map<Id, Inc>, all: map<Inc, Run>, next: nat, draining: bool, shutdown: nat, holder: Holder, main: Main,
    listed: set<Inc>, listedLate: bool, zeroSeen: bool)

  const START := State(map[], map[], 0, false, 0, Free, Looping, {}, false, false)

  datatype Action =
    | EnterSpawn(id: Id) | LookUp | CheckDraining | CheckCapacity | GiveUp | SpawnChild(failed: bool)
    | RunStep(inc: Inc, act: RunAction)
    | Remove(id: Id)
    | BeginDrain | StoreDrain | StoreNow
    | MainLooks | StartList(forMain: bool) | LookAt(inc: Inc) | EndList

  predicate Enabled(s: State, a: Action) {
    match a
    case EnterSpawn(_) => s.holder.Free?
    case LookUp => s.holder.Spawning? && s.holder.phase.Entered?
    case CheckDraining => s.holder.Spawning? && s.holder.phase.Absent?
    case CheckCapacity => s.holder.Spawning? && s.holder.phase.NotDraining?
    case GiveUp => s.holder.Spawning? && s.holder.phase.Admitted?
    case SpawnChild(_) => s.holder.Spawning? && s.holder.phase.Admitted?
    case RunStep(inc, act) => inc in s.all && RunEnabled(s.all[inc], act)
    case Remove(_) => s.holder.Free?
    case BeginDrain => true
    case StoreDrain => s.draining
    case StoreNow => s.draining
    case MainLooks => s.main.Looping?
    case StartList(forMain) => s.holder.Free? && (forMain ==> s.main.ToCount?)
    case LookAt(inc) => s.holder.Listing? && inc in s.holder.todo && inc in s.all
    case EndList => s.holder.Listing? && s.holder.todo == {}
  }

  function Apply(s: State, a: Action): State
    requires Enabled(s, a)
  {
    match a
    case EnterSpawn(id) => s.(holder := Spawning(id, Entered))
    case LookUp => s.(holder := if s.holder.id in s.runs then Free else Spawning(s.holder.id, Absent))
    case CheckDraining => s.(holder := if s.draining then Free else Spawning(s.holder.id, NotDraining))
    case CheckCapacity =>
      s.(holder := if |s.runs| >= MAX_ADMITTED_RUNS then Free else Spawning(s.holder.id, Admitted))
    case GiveUp => s.(holder := Free)
    case SpawnChild(failed) =>
      s.(runs := s.runs[s.holder.id := s.next], all := s.all[s.next := if failed then FAILED_RUN else NEW_RUN],
         next := s.next + 1, holder := Free)
    case RunStep(inc, act) => s.(all := s.all[inc := RunApply(s.all[inc], act)])
    case Remove(id) => s.(runs := s.runs - {id})
    case BeginDrain => s.(draining := true)
    case StoreDrain => s.(shutdown := 1)
    case StoreNow => s.(shutdown := 2)
    case MainLooks =>
      s.(main := if s.shutdown == 2 then Left(false) else if s.shutdown == 1 then ToCount else Looping)
    case StartList(forMain) =>
      s.(holder := Listing(forMain, s.draining, s.runs.Values, {}),
         main := if forMain then CountingRuns else s.main,
         listed := if s.draining then s.runs.Values else s.listed,
         listedLate := s.listedLate || s.draining)
    case LookAt(inc) =>
      var h := s.holder;
      s.(holder := Listing(h.forMain, h.late, h.todo - {inc},
                           if s.all[inc].status == Running then h.running + {inc} else h.running))
    case EndList =>
      var none := s.holder.running == {};
      s.(holder := Free,
         main := if s.holder.forMain then (if none then Left(true) else Looping) else s.main,
         zeroSeen := s.zeroSeen || (none && s.holder.late))
  }

  /** A step that cannot be taken does nothing, so every sequence of actions is a run. */
  function Next(s: State, a: Action): State {
    if Enabled(s, a) then Apply(s, a) else s
  }

  function After(s: State, actions: seq<Action>): State
    decreases |actions|
  {
    if actions == [] then s else After(Next(s, actions[0]), actions[1..])
  }

  /** All registered runs that are running are among these. */
  ghost predicate RunningAmong(runs: map<Id, Inc>, all: map<Inc, Run>, these: set<Inc>) {
    forall id | id in runs && runs[id] in all && all[runs[id]].status == Running :: runs[id] in these
  }

  /** Every run is registered under one id at most, was started before, and is orderly. */
  ghost predicate RunsOk(s: State) {
    && |s.runs| <= MAX_ADMITTED_RUNS
    && (forall id | id in s.runs :: s.runs[id] in s.all)
    && (forall inc | inc in s.all :: inc < s.next && RunOk(s.all[inc]))
  }

  /** Where a thread that spawns has got to.  Nobody has listed the runs since it looked. */
  predicate SpawnOk(s: State) {
    s.holder.Spawning? ==>
      && (!s.holder.phase.Entered? ==> s.holder.id !in s.runs)
      && (s.holder.phase.NotDraining? || s.holder.phase.Admitted? ==> !s.listedLate)
      && (s.holder.phase.Admitted? ==> |s.runs| < MAX_ADMITTED_RUNS)
  }

  ghost predicate DrainOk(s: State) {
    && (s.listedLate ==> s.draining && forall id | id in s.runs :: s.runs[id] in s.listed)
    && (s.holder.Listing? ==>
          (s.holder.late ==> s.listedLate) && RunningAmong(s.runs, s.all, s.holder.todo + s.holder.running))
    && (s.zeroSeen ==> s.listedLate && RunningAmong(s.runs, s.all, {}))
    && (s.shutdown > 0 || s.main.ToCount? || s.main.CountingRuns? ==> s.draining)
    && (s.holder.Listing? && s.holder.forMain ==> s.holder.late)
    && (s.main == Left(true) ==> s.zeroSeen)
  }

  ghost predicate Inv(s: State) {
    RunsOk(s) && SpawnOk(s) && DrainOk(s)
  }

  lemma HolderStep(s: State, holder: Holder)
    requires Inv(s) && !s.holder.Listing? && !holder.Listing? && SpawnOk(s.(holder := holder))
    ensures Inv(s.(holder := holder))
  {
  }

  lemma SpawnStepKeepsInv(s: State, a: Action)
    requires Inv(s) && Enabled(s, a)
    requires a.EnterSpawn? || a.LookUp? || a.CheckDraining? || a.CheckCapacity? || a.GiveUp?
    ensures Inv(Apply(s, a))
  {
    var holder := Apply(s, a).holder;
    assert Apply(s, a) == s.(holder := holder);
    SpawnStepIsOk(s, a);
    HolderStep(s, holder);
  }

  lemma SpawnStepIsOk(s: State, a: Action)
    requires SpawnOk(s) && (s.listedLate ==> s.draining) && Enabled(s, a)
    requires a.EnterSpawn? || a.LookUp? || a.CheckDraining? || a.CheckCapacity? || a.GiveUp?
    ensures SpawnOk(Apply(s, a))
  {
  }

  lemma FreshRunsAreOk()
    ensures RunOk(NEW_RUN) && RunOk(FAILED_RUN)
  {
    NewRunsAreOrderly([]);
  }

  lemma SpawnChildKeepsInv(s: State, failed: bool)
    requires Inv(s) && Enabled(s, SpawnChild(failed))
    ensures Inv(Apply(s, SpawnChild(failed)))
  {
    FreshRunsAreOk();
    var t := Apply(s, SpawnChild(failed));
    assert SpawnOk(s);
    assert !s.listedLate && !s.zeroSeen && |t.runs| <= |s.runs| + 1;
    assert RunsOk(t);
  }

  lemma RunStepKeepsInv(s: State, inc: Inc, act: RunAction)
    requires Inv(s) && Enabled(s, RunStep(inc, act))
    ensures Inv(Apply(s, RunStep(inc, act)))
  {
    var r := s.all[inc];
    RunNextKeepsRunOk(r, act);
    if r.status == Exited {
      ExitedRunIsFrozenNext(r, act);
    }
    StatusOnlyFalls(s, inc, RunNext(r, act));
  }

  lemma FewerRun(s: State, inc: Inc, r: Run, these: set<Inc>)
    requires inc in s.all && (s.all[inc].status == Exited ==> r.status == Exited)
    requires RunningAmong(s.runs, s.all, these)
    ensures RunningAmong(s.runs, s.all[inc := r], these)
  {
  }

  lemma RunsOkStep(s: State, inc: Inc, r: Run)
    requires RunsOk(s) && inc in s.all && RunOk(r)
    ensures RunsOk(s.(all := s.all[inc := r]))
  {
  }

  lemma DrainOkStep(s: State, inc: Inc, r: Run)
    requires DrainOk(s) && inc in s.all && (s.all[inc].status == Exited ==> r.status == Exited)
    ensures DrainOk(s.(all := s.all[inc := r]))
  {
    if s.zeroSeen {
      FewerRun(s, inc, r, {});
    }
    if s.holder.Listing? {
      FewerRun(s, inc, r, s.holder.todo + s.holder.running);
    }
  }

  lemma StatusOnlyFalls(s: State, inc: Inc, r: Run)
    requires Inv(s) && inc in s.all && RunOk(r) && (s.all[inc].status == Exited ==> r.status == Exited)
    ensures Inv(s.(all := s.all[inc := r]))
  {
    RunsOkStep(s, inc, r);
    DrainOkStep(s, inc, r);
  }

  lemma RemoveSize(runs: map<Id, Inc>, id: Id)
    ensures |runs - {id}| <= |runs|
  {
    if id in runs {
      assert runs == (runs - {id})[id := runs[id]];
    } else {
      assert runs == runs - {id};
    }
  }

  lemma RemoveKeepsInv(s: State, id: Id)
    requires Inv(s) && Enabled(s, Remove(id))
    ensures Inv(Apply(s, Remove(id)))
  {
    RemoveSize(s.runs, id);
    var t := Apply(s, Remove(id));
    assert s.zeroSeen ==> RunningAmong(t.runs, t.all, {});
    assert RunsOk(t) && SpawnOk(t);
  }

  lemma FlagKeepsInv(s: State, a: Action)
    requires Inv(s) && Enabled(s, a) && (a.BeginDrain? || a.StoreDrain? || a.StoreNow? || a.MainLooks?)
    ensures Inv(Apply(s, a))
  {
  }

  lemma StartListKeepsInv(s: State, forMain: bool)
    requires Inv(s) && Enabled(s, StartList(forMain))
    ensures Inv(Apply(s, StartList(forMain)))
  {
  }

  lemma LookKeepsInv(s: State, inc: Inc)
    requires Inv(s) && Enabled(s, LookAt(inc))
    ensures Inv(Apply(s, LookAt(inc)))
  {
    var t := Apply(s, LookAt(inc));
    assert s.all[inc].status == Running ==> s.holder.todo + s.holder.running <= t.holder.todo + t.holder.running;
    assert RunsOk(t) && SpawnOk(t);
  }

  lemma EndListKeepsInv(s: State)
    requires Inv(s) && Enabled(s, EndList)
    ensures Inv(Apply(s, EndList))
  {
    assert s.holder.todo + s.holder.running == s.holder.running;
  }

  lemma NextKeepsInv(s: State, a: Action)
    requires Inv(s)
    ensures Inv(Next(s, a))
  {
    if Enabled(s, a) {
      if a.SpawnChild? {
        SpawnChildKeepsInv(s, a.failed);
      } else if a.RunStep? {
        RunStepKeepsInv(s, a.inc, a.act);
      } else if a.Remove? {
        RemoveKeepsInv(s, a.id);
      } else if a.EnterSpawn? || a.LookUp? || a.CheckDraining? || a.CheckCapacity? || a.GiveUp? {
        SpawnStepKeepsInv(s, a);
      } else if a.StartList? {
        StartListKeepsInv(s, a.forMain);
      } else if a.LookAt? {
        LookKeepsInv(s, a.inc);
      } else if a.EndList? {
        EndListKeepsInv(s);
      } else {
        FlagKeepsInv(s, a);
      }
    }
  }

  lemma {:induction false} AfterKeepsInv(s: State, actions: seq<Action>)
    requires Inv(s)
    ensures Inv(After(s, actions))
    decreases |actions|
  {
    if actions != [] {
      NextKeepsInv(s, actions[0]);
      AfterKeepsInv(Next(s, actions[0]), actions[1..]);
    }
  }

  // ---- What follows for every run of the daemon ----------------------------------------------------------

  lemma SpawnIsFresh(s: State, failed: bool)
    requires Inv(s) && Enabled(s, SpawnChild(failed))
    ensures s.holder.id !in s.runs && |s.runs| < MAX_ADMITTED_RUNS && s.next !in s.all
  {
    assert SpawnOk(s);
    assert forall inc | inc in s.all :: inc < s.next;
  }

  /** A process is started only for an id that has none, with a slot free. */
  lemma OneProcessForAnId(actions: seq<Action>, failed: bool)
    requires Enabled(After(START, actions), SpawnChild(failed))
    ensures var s := After(START, actions);
            s.holder.id !in s.runs && |s.runs| < MAX_ADMITTED_RUNS && s.next !in s.all
  {
    AfterKeepsInv(START, actions);
    SpawnIsFresh(After(START, actions), failed);
  }

  /** Every run that was ever started, registered or not, is orderly: its events are numbered, and
      Exit is its last. */
  lemma EveryRunIsOrderly(actions: seq<Action>, inc: Inc)
    requires inc in After(START, actions).all
    ensures RunOk(After(START, actions).all[inc])
  {
    AfterKeepsInv(START, actions);
  }

  /** All the sizes added up. */
  ghost function Sum(ids: set<Id>, size: Id -> nat): nat {
    if ids == {} then 0
    else
      var id :| id in ids;
      size(id) + Sum(ids - {id}, size)
  }

  lemma {:induction false} SumIsBounded(ids: set<Id>, size: Id -> nat, limit: nat)
    requires forall id | id in ids :: size(id) <= limit
    ensures Sum(ids, size) <= |ids| * limit
  {
    if ids != {} {
      var id :| id in ids && Sum(ids, size) == size(id) + Sum(ids - {id}, size);
      SumIsBounded(ids - {id}, size, limit);
      assert |ids| * limit == limit + (|ids| - 1) * limit;
    }
  }

  function LogSize(texts: seq<Text>): nat {
    Total(AppendedAll(EMPTY, texts).chunks, Bytes)
  }

  function RunSize(r: Run): (n: nat)
    ensures n <= 2 * RUN_LOG_MAX_BYTES
  {
    LogIsFit(r.stdout.texts);
    LogIsFit(r.stderr.texts);
    LogSize(r.stdout.texts) + LogSize(r.stderr.texts)
  }

  ghost function SizeIn(runs: map<Id, Inc>, all: map<Inc, Run>): Id -> nat {
    (id: Id) => if id in runs && runs[id] in all then RunSize(all[runs[id]]) else 0
  }

  /** What the logs of all registered runs retain. */
  ghost function Retained(runs: map<Id, Inc>, all: map<Inc, Run>): nat {
    Sum(runs.Keys, SizeIn(runs, all))
  }

  lemma SizeIsBounded(runs: map<Id, Inc>, all: map<Inc, Run>, id: Id)
    ensures SizeIn(runs, all)(id) <= 2 * RUN_LOG_MAX_BYTES
  {
  }

  lemma RetainedIsBounded(runs: map<Id, Inc>, all: map<Inc, Run>)
    requires |runs| <= MAX_ADMITTED_RUNS
    ensures Retained(runs, all) <= 128 * 1024 * 1024
  {
    var size := SizeIn(runs, all);
    forall id | id in runs.Keys ensures size(id) <= 2 * RUN_LOG_MAX_BYTES {
      SizeIsBounded(runs, all, id);
    }
    SumIsBounded(runs.Keys, size, 2 * RUN_LOG_MAX_BYTES);
    assert |runs.Keys| == |runs|;
  }

  /** At most eight runs are registered, exited ones included, and they retain at most 128 MiB. */
  lemma CapacityIsBounded(actions: seq<Action>)
    ensures var s := After(START, actions);
            && |s.runs| <= MAX_ADMITTED_RUNS
            && (forall id | id in s.runs :: s.runs[id] in s.all)
            && Retained(s.runs, s.all) <= 128 * 1024 * 1024
  {
    AfterKeepsInv(START, actions);
    RetainedIsBounded(After(START, actions).runs, After(START, actions).all);
  }

  ghost predicate NothingNew(s: State, t: State) {
    && t.listedLate
    && (s.zeroSeen ==> t.zeroSeen)
    && forall id | id in t.runs :: id in s.runs && t.runs[id] == s.runs[id]
  }

  lemma NoSpawnOnceListed(s: State, failed: bool)
    requires Inv(s) && s.listedLate
    ensures !Enabled(s, SpawnChild(failed))
  {
    assert SpawnOk(s);
  }

  /** Only a spawn registers a run. */
  lemma OthersRegisterNothing(s: State, a: Action)
    requires s.listedLate && Enabled(s, a) && !a.SpawnChild?
    ensures NothingNew(s, Apply(s, a))
  {
  }

  lemma NothingNewInOneStep(s: State, a: Action)
    requires Inv(s) && s.listedLate
    ensures NothingNew(s, Next(s, a))
  {
    if a.SpawnChild? {
      NoSpawnOnceListed(s, a.failed);
    } else if Enabled(s, a) {
      OthersRegisterNothing(s, a);
    }
  }

  lemma {:induction false} NothingNewOnceListed(s: State, actions: seq<Action>)
    requires Inv(s) && s.listedLate
    ensures NothingNew(s, After(s, actions)) && Inv(After(s, actions))
    decreases |actions|
  {
    if actions != [] {
      NextKeepsInv(s, actions[0]);
      NothingNewInOneStep(s, actions[0]);
      NothingNewOnceListed(Next(s, actions[0]), actions[1..]);
    }
  }

  /** A listing that starts once draining is set, such as the one that stops all runs, sees every run
      that will ever be registered from then on: a spawn that got in before has finished, and no other
      gets in. */
  lemma LateListSeesAll(actions: seq<Action>, later: seq<Action>)
    requires var s := After(START, actions); s.draining && Enabled(s, StartList(false))
    ensures var s := After(START, actions); var listing := Next(s, StartList(false));
            && listing.holder.todo == s.runs.Values
            && forall id | id in After(listing, later).runs :: After(listing, later).runs[id] in s.runs.Values
  {
    AfterKeepsInv(START, actions);
    var s := After(START, actions);
    NextKeepsInv(s, StartList(false));
    NothingNewOnceListed(Next(s, StartList(false)), later);
  }

  /** A count of 0 that started once draining was set stays 0, and so it does when the main loop has
      left because of one: no registered run is running, then or at any later time. */
  lemma DrainedStaysDrained(actions: seq<Action>, later: seq<Action>)
    requires var s := After(START, actions); s.zeroSeen || s.main == Left(true)
    ensures var t := After(After(START, actions), later); RunningAmong(t.runs, t.all, {})
  {
    AfterKeepsInv(START, actions);
    NothingNewOnceListed(After(START, actions), later);
  }

  // ---- What is registered stays, until it is removed ----------------------------------------------------------

  /** Forgetting one run touches no other, nor anything else. */
  lemma RemoveIsAlone(s: State, id: Id)
    requires Enabled(s, Remove(id))
    ensures var t := Next(s, Remove(id));
            && t == s.(runs := t.runs) && id !in t.runs
            && forall other | other != id ::
                 (other in t.runs <==> other in s.runs) && (other in s.runs ==> t.runs[other] == s.runs[other])
  {
  }

  lemma SpawnKeepsOthers(s: State, failed: bool, id: Id)
    requires Inv(s) && Enabled(s, SpawnChild(failed)) && id in s.runs
    ensures var t := Apply(s, SpawnChild(failed)); id in t.runs && t.runs[id] == s.runs[id]
  {
    assert SpawnOk(s);
  }

  lemma OthersKeepRuns(s: State, a: Action)
    requires Enabled(s, a) && !a.SpawnChild? && !a.Remove?
    ensures Apply(s, a).runs == s.runs
  {
  }

  /** Only forgetting a run removes it from the registry, and nothing puts another in its place. */
  lemma OnlyRemoveRemoves(s: State, a: Action, id: Id)
    requires Inv(s) && id in s.runs
    ensures if Enabled(s, a) && a == Remove(id) then id !in Next(s, a).runs
            else id in Next(s, a).runs && Next(s, a).runs[id] == s.runs[id]
  {
    if Enabled(s, a) {
      if a.SpawnChild? {
        SpawnKeepsOthers(s, a.failed, id);
      } else if a.Remove? {
        RemoveIsAlone(s, a.id);
      } else {
        OthersKeepRuns(s, a);
      }
    }
  }

  /** Along the way the run of this id is forgotten. */
  predicate RemovedOnTheWay(s: State, actions: seq<Action>, id: Id)
    decreases |actions|
  {
    && actions != []
    && ((Enabled(s, actions[0]) && actions[0] == Remove(id) && id in s.runs)
        || RemovedOnTheWay(Next(s, actions[0]), actions[1..], id))
  }

  lemma {:induction false} StaysRegistered(s: State, actions: seq<Action>, id: Id)
    requires Inv(s) && id in s.runs
    ensures || RemovedOnTheWay(s, actions, id)
            || (id in After(s, actions).runs && After(s, actions).runs[id] == s.runs[id])
    decreases |actions|
  {
    if actions != [] {
      NextKeepsInv(s, actions[0]);
      OnlyRemoveRemoves(s, actions[0], id);
      if !(Enabled(s, actions[0]) && actions[0] == Remove(id)) {
        StaysRegistered(Next(s, actions[0]), actions[1..], id);
      }
    }
  }

  /** A run that is spawned, executed or not, is registered at once, and stays until it is forgotten. */
  lemma SpawnedStays(actions: seq<Action>, failed: bool, later: seq<Action>)
    requires Enabled(After(START, actions), SpawnChild(failed))
    ensures var s := After(START, actions); var t := Next(s, SpawnChild(failed)); var u := After(t, later);
            && s.holder.id in t.runs && t.runs[s.holder.id] == s.next
            && t.all == s.all[s.next := if failed then FAILED_RUN else NEW_RUN]
            && (RemovedOnTheWay(t, later, s.holder.id) || (s.holder.id in u.runs && u.runs[s.holder.id] == s.next))
  {
    AfterKeepsInv(START, actions);
    var s := After(START, actions);
    NextKeepsInv(s, SpawnChild(failed));
    StaysRegistered(Next(s, SpawnChild(failed)), later, s.holder.id);
  }

  /** No second process for an id, until the run of the first has been forgotten. */
  lemma SpawnsAgainOnlyAfterRemoval(actions: seq<Action>, failed: bool, later: seq<Action>, again: bool)
    requires Enabled(After(START, actions), SpawnChild(failed))
    requires var u := After(Next(After(START, actions), SpawnChild(failed)), later);
             Enabled(u, SpawnChild(again)) && u.holder.id == After(START, actions).holder.id
    ensures var s := After(START, actions); RemovedOnTheWay(Next(s, SpawnChild(failed)), later, s.holder.id)
  {
    var s := After(START, actions);
    SpawnedStays(actions, failed, later);
    AfterKeepsInv(START, actions);
    NextKeepsInv(s, SpawnChild(failed));
    AfterKeepsInv(Next(s, SpawnChild(failed)), later);
    SpawnIsFresh(After(Next(s, SpawnChild(failed)), later), again);
  }

  // ---- What is asked for is done ------------------------------------------------------------------------------

  lemma {:induction false} AfterConcat(s: State, a: seq<Action>, b: seq<Action>)
    ensures After(s, a + b) == After(After(s, a), b)
    decreases |a|
  {
    if a == [] {
      assert a + b == b;
    } else {
      assert (a + b)[1..] == a[1..] + b;
      AfterConcat(Next(s, a[0]), a[1..], b);
    }
  }

  lemma AfterMore(s: State, actions: seq<Action>, a: Action)
    ensures After(s, actions + [a]) == Next(After(s, actions), a)
  {
    AfterConcat(s, actions, [a]);
    assert [a][1..] == [];
  }

  /** A spawn for an id that has no run, with a slot free and no draining, starts and registers one. */
  lemma SpawnSucceeds(s: State, id: Id, failed: bool)
    requires s.holder.Free? && !s.draining && id !in s.runs && |s.runs| < 8
    ensures After(s, [EnterSpawn(id)] + [LookUp] + [CheckDraining] + [CheckCapacity] + [SpawnChild(failed)])
         == s.(runs := s.runs[id := s.next], all := s.all[s.next := if failed then FAILED_RUN else NEW_RUN],
               next := s.next + 1)
  {
    AfterMore(s, [], EnterSpawn(id));
    assert [] + [EnterSpawn(id)] == [EnterSpawn(id)];
    AfterMore(s, [EnterSpawn(id)], LookUp);
    AfterMore(s, [EnterSpawn(id)] + [LookUp], CheckDraining);
    AfterMore(s, [EnterSpawn(id)] + [LookUp] + [CheckDraining], CheckCapacity);
    AfterMore(s, [EnterSpawn(id)] + [LookUp] + [CheckDraining] + [CheckCapacity], SpawnChild(failed));
  }

  function RunningIn(s: State, incs: set<Inc>): set<Inc> {
    set inc | inc in incs && inc in s.all && s.all[inc].status == Running
  }

  lemma {:induction false} LookAtAll(s: State) returns (actions: seq<Action>)
    requires s.holder.Listing? && forall inc | inc in s.holder.todo :: inc in s.all
    ensures var h := s.holder;
            After(s, actions) == s.(holder := Listing(h.forMain, h.late, {}, h.running + RunningIn(s, h.todo)))
    decreases s.holder.todo
  {
    var h := s.holder;
    if h.todo == {} {
      actions := [];
      assert h.running + RunningIn(s, h.todo) == h.running;
    } else {
      var inc :| inc in h.todo;
      var next := Next(s, LookAt(inc));
      var rest := LookAtAll(next);
      actions := [LookAt(inc)] + rest;
      assert actions[1..] == rest;
      assert next.holder.running + RunningIn(s, next.holder.todo) == h.running + RunningIn(s, h.todo);
    }
  }

  lemma CountStarts(s: State)
    requires s.main.Looping? && s.holder.Free? && s.shutdown == 1
    ensures var t := After(s, [MainLooks] + [StartList(true)]);
            t.holder == Listing(true, s.draining, s.runs.Values, {}) && t.all == s.all
  {
    AfterMore(s, [], MainLooks);
    assert [] + [MainLooks] == [MainLooks];
    AfterMore(s, [MainLooks], StartList(true));
  }

  lemma CountEnds(s: State)
    requires s.holder.Listing? && s.holder.forMain && s.holder.todo == {}
    ensures Next(s, EndList).main == if s.holder.running == {} then Left(true) else Looping
  {
  }

  /** When the main loop, told to drain, looks and nothing interrupts it, it leaves if no registered run is running,
      and only then. */
  lemma MainDecides(s: State) returns (actions: seq<Action>)
    requires Inv(s) && s.main.Looping? && s.holder.Free? && s.shutdown == 1
    ensures After(s, actions).main == if RunningIn(s, s.runs.Values) == {} then Left(true) else Looping
  {
    var start := [MainLooks] + [StartList(true)];
    CountStarts(s);
    var listing := After(s, start);
    var looks := LookAtAll(listing);
    AfterConcat(s, start, looks);
    AfterMore(s, start + looks, EndList);
    assert {} + RunningIn(listing, s.runs.Values) == RunningIn(s, s.runs.Values);
    CountEnds(After(s, start + looks));
    actions := start + looks + [EndList];
  }

  /** Told to stop now, it leaves at its next look. */
  lemma MainStopsNow(s: State)
    requires s.main.Looping? && s.shutdown == 2
    ensures Next(s, MainLooks).main == Left(false)
  {
  }
}
