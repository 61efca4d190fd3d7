/** The registry of PTY sessions and the shutdown loop. */
module PtyRegistry {
  // These are the critical sections of their threads.  Creating and shutting down take the admission lock;
  // forgetting and a child's exit do not.

  const MAX_RUNNING_SESSIONS := 200

  type Id = string

  /** A session object; its number says when it was spawned. */
  type Sid = nat

  datatype Mode = Drain | Now

  datatype Creating =
    | Entered
    | NotShutting
    | Absent
    | Counting(todo: set<Sid>, counted: set<Sid>)
    | Admitted
    | Spawned(sid: Sid)

  datatype Holder = Free | Create(id: Id, phase: Creating) | Shutdown

  /** The main thread.  `Asking` waits for the admission lock; `Sorting` looks for sessions that have
      exited; `Polling` counts the running ones. */
  datatype Main =
    | Waiting
    | Asking(mode: Mode)
    | Stopping(mode: Mode)
    | Sorting(todo: map<Id, Sid>, stale: set<Id>)
    | StartPoll
    | Polling(left: set<Sid>, counted: nat)
    | Returned(mode: Mode)

  /** `spawned` counts the sessions ever spawned, and `duplicates` how often a spawn found its id taken;
      the program keeps neither. */
  datatype State = State(
    sessions: map<Id, Sid>, running: set<Sid>, spawned: nat, shuttingDown: bool, holder: Holder, main: Main,
    duplicates: nat)

  const START := State(map[], {}, 0, false, Free, Waiting, 0)

  datatype Action =
    | EnterCreate(id: Id) | CheckShutting | LookAgain | Refuse | ListForCount | CountOne(sid: Sid) | Admit | SpawnPty
    | Register
    | ChildExits(sid: Sid) | Forget(id: Id)
    | Receive(mode: Mode) | Timeout | BeginShutdown | ListForDrain | SortOne(id: Id) | RemoveStale | ClearAll
    | ListForPoll | PollOne(sid: Sid) | EndPoll

  predicate Enabled(s: State, a: Action) {
    match a
    case EnterCreate(_) => s.holder.Free?
    case CheckShutting => s.holder.Create? && s.holder.phase.Entered?
    case LookAgain => s.holder.Create? && s.holder.phase.NotShutting?
    // A bad size, a memory budget, or a spawn that fails.
    case Refuse => s.holder.Create? && (s.holder.phase.Absent? || s.holder.phase.Admitted?)
    case ListForCount => s.holder.Create? && s.holder.phase.Absent?
    case CountOne(sid) => s.holder.Create? && s.holder.phase.Counting? && sid in s.holder.phase.todo
    case Admit => s.holder.Create? && s.holder.phase.Counting? && s.holder.phase.todo == {}
    case SpawnPty => s.holder.Create? && s.holder.phase.Admitted?
    case Register => s.holder.Create? && s.holder.phase.Spawned?
    case ChildExits(sid) => sid in s.running
    case Forget(_) => true
    case Receive(_) => s.main.Waiting?
    case Timeout => s.main.Waiting?
    case BeginShutdown => s.main.Asking? && s.holder.Free?
    case ListForDrain => s.main == Stopping(Drain)
    case SortOne(id) => s.main.Sorting? && id in s.main.todo
    case RemoveStale => s.main.Sorting? && s.main.todo == map[]
    case ClearAll => s.main == Stopping(Now)
    case ListForPoll => s.main.StartPoll?
    case PollOne(sid) => s.main.Polling? && sid in s.main.left
    case EndPoll => s.main.Polling? && s.main.left == {}
  }

  function InPhase(s: State, phase: Creating): State
    requires s.holder.Create?
  {
    s.(holder := s.holder.(phase := phase))
  }

  function Apply(s: State, a: Action): State
    requires Enabled(s, a)
  {
    match a
    case EnterCreate(id) => s.(holder := Create(id, Entered))
    case CheckShutting => if s.shuttingDown then s.(holder := Free) else InPhase(s, NotShutting)
    case LookAgain => if s.holder.id in s.sessions then s.(holder := Free) else InPhase(s, Absent)
    case Refuse => s.(holder := Free)
    case ListForCount => InPhase(s, Counting(s.sessions.Values, {}))
    case CountOne(sid) =>
      var p := s.holder.phase;
      InPhase(s, Counting(p.todo - {sid}, if sid in s.running then p.counted + {sid} else p.counted))
    case Admit =>
      if |s.holder.phase.counted| >= MAX_RUNNING_SESSIONS then s.(holder := Free) else InPhase(s, Admitted)
    case SpawnPty =>
      InPhase(s, Spawned(s.spawned)).(running := s.running + {s.spawned}, spawned := s.spawned + 1)
    case Register =>
      if s.holder.id in s.sessions then s.(holder := Free, duplicates := s.duplicates + 1)
      else s.(holder := Free, sessions := s.sessions[s.holder.id := s.holder.phase.sid])
    case ChildExits(sid) => s.(running := s.running - {sid})
    case Forget(id) => s.(sessions := s.sessions - {id})
    case Receive(mode) => s.(main := Asking(if mode == Drain && !s.shuttingDown then Drain else Now))
    case Timeout => if s.shuttingDown then s.(main := StartPoll) else s
    case BeginShutdown => s.(shuttingDown := true, holder := Shutdown, main := Stopping(s.main.mode))
    case ListForDrain => s.(main := Sorting(s.sessions, {}))
    case SortOne(id) =>
      s.(main := Sorting(s.main.todo - {id},
                         if s.main.todo[id] in s.running then s.main.stale else s.main.stale + {id}))
    case RemoveStale => s.(sessions := s.sessions - s.main.stale, holder := Free, main := StartPoll)
    case ClearAll => s.(sessions := map[], holder := Free, main := Returned(Now))
    case ListForPoll => s.(main := Polling(s.sessions.Values, 0))
    case PollOne(sid) =>
      s.(main := Polling(s.main.left - {sid}, if sid in s.running then s.main.counted + 1 else s.main.counted))
    case EndPoll => s.(main := if s.main.counted == 0 then Returned(Drain) else Waiting)
  }

  /** A step that cannot be taken does nothing, so every sequence of actions is a run. */
  function Next(s: State, a: Action): State {
    if Enabled(s, a) then Apply(s, a) else s
  }

  function Run(s: State, actions: seq<Action>): State
    decreases |actions|
  {
    if actions == [] then s else Run(Next(s, actions[0]), actions[1..])
  }

  // ---- What every state keeps ----------------------------------------------------------------------------

  function RunningRegistered(s: State): set<Sid> {
    s.sessions.Values * s.running
  }

  /** How many of the registered sessions may be running, and what else a thread that creates knows. */
  ghost predicate CreateOk(s: State) {
    s.holder.Create? ==>
      match s.holder.phase
      case Entered => |RunningRegistered(s)| <= MAX_RUNNING_SESSIONS
      case NotShutting => |RunningRegistered(s)| <= MAX_RUNNING_SESSIONS
      case Absent => s.holder.id !in s.sessions && |RunningRegistered(s)| <= MAX_RUNNING_SESSIONS
      case Counting(todo, counted) =>
        && s.holder.id !in s.sessions && |RunningRegistered(s)| <= MAX_RUNNING_SESSIONS
        && RunningRegistered(s) <= todo + counted
      case Admitted => s.holder.id !in s.sessions && |RunningRegistered(s)| < MAX_RUNNING_SESSIONS
      case Spawned(sid) =>
        && s.holder.id !in s.sessions && |RunningRegistered(s)| < MAX_RUNNING_SESSIONS
        && sid !in s.sessions.Values && sid < s.spawned
  }

  /** Once shutting down, no thread that creates gets past the check. */
  predicate Shut(s: State) {
    s.shuttingDown && s.holder.Create? ==> s.holder.phase.Entered?
  }

  /** A session that is to be removed while draining is not running. */
  ghost predicate SortingOk(s: State) {
    s.main.Sorting? ==>
      && (forall id | id in s.main.stale && id in s.sessions :: s.sessions[id] !in s.running)
      && (forall id | id in s.main.todo && id in s.sessions :: s.sessions[id] == s.main.todo[id])
  }

  /** A count of 0 means that nothing counted so far is running. */
  ghost predicate PollOk(s: State) {
    s.main.Polling? && s.main.counted == 0 ==> RunningRegistered(s) <= s.main.left
  }

  predicate MainOk(s: State) {
    && (s.holder.Shutdown? <==> s.main.Stopping? || s.main.Sorting?)
    && (s.main.Stopping? || s.main.Sorting? || s.main.StartPoll? || s.main.Polling? || s.main.Returned? ==>
          s.shuttingDown)
    && (s.main == Returned(Drain) ==> RunningRegistered(s) == {})
  }

  ghost predicate Inv(s: State) {
    && |RunningRegistered(s)| <= MAX_RUNNING_SESSIONS
    && (forall sid | sid in s.sessions.Values + s.running :: sid < s.spawned)
    && CreateOk(s) && Shut(s) && SortingOk(s) && PollOk(s) && MainOk(s) && s.duplicates == 0
  }

  lemma SubsetSize(a: set<Sid>, b: set<Sid>)
    requires a <= b
    ensures |a| <= |b|
  {
    if a != {} {
      var x :| x in a;
      SubsetSize(a - {x}, b - {x});
    }
  }

  /** A step of a thread that creates, as far as it stays inside the admission lock. */
  lemma HolderStep(s: State, holder: Holder)
    requires Inv(s) && !s.holder.Shutdown? && !holder.Shutdown?
    requires CreateOk(s.(holder := holder)) && Shut(s.(holder := holder))
    ensures Inv(s.(holder := holder))
  {
  }

  lemma CreateStepIsOk(s: State, a: Action)
    requires CreateOk(s) && Shut(s) && |RunningRegistered(s)| <= MAX_RUNNING_SESSIONS && Enabled(s, a)
    requires a.EnterCreate? || a.CheckShutting? || a.LookAgain? || a.Refuse? || a.ListForCount? || a.CountOne?
    ensures CreateOk(Apply(s, a)) && Shut(Apply(s, a))
  {
  }

  lemma CreateKeepsInv(s: State, a: Action)
    requires Inv(s) && Enabled(s, a)
    requires a.EnterCreate? || a.CheckShutting? || a.LookAgain? || a.Refuse? || a.ListForCount? || a.CountOne?
    ensures Inv(Apply(s, a))
  {
    var holder := Apply(s, a).holder;
    assert Apply(s, a) == s.(holder := holder);
    CreateStepIsOk(s, a);
    HolderStep(s, holder);
  }

  lemma AdmitKeepsInv(s: State)
    requires Inv(s) && Enabled(s, Admit)
    ensures Inv(Apply(s, Admit))
  {
    var p := s.holder.phase;
    assert p.todo + p.counted == p.counted;
    SubsetSize(RunningRegistered(s), p.counted);
    if |p.counted| >= MAX_RUNNING_SESSIONS {
      HolderStep(s, Free);
    } else {
      HolderStep(s, Create(s.holder.id, Admitted));
    }
  }

  lemma SpawnedIsNew(values: set<Sid>, running: set<Sid>, sid: Sid)
    requires sid !in values
    ensures values * (running + {sid}) == values * running
  {
  }

  lemma SortingStarts(s: State)
    requires SortingOk(s) && s.spawned !in s.sessions.Values
    ensures SortingOk(s.(running := s.running + {s.spawned}, spawned := s.spawned + 1))
  {
    assert forall id | id in s.sessions :: s.sessions[id] in s.sessions.Values;
  }

  lemma StartsInPhase(s: State)
    requires CreateOk(s) && s.spawned !in s.sessions.Values
    ensures CreateOk(s.(running := s.running + {s.spawned}, spawned := s.spawned + 1))
  {
    SpawnedIsNew(s.sessions.Values, s.running, s.spawned);
  }

  /** A new child is not registered yet, so nothing registered changes. */
  lemma ChildStarts(s: State)
    requires Inv(s)
    ensures Inv(s.(running := s.running + {s.spawned}, spawned := s.spawned + 1))
  {
    var t := s.(running := s.running + {s.spawned}, spawned := s.spawned + 1);
    assert s.spawned !in s.sessions.Values + s.running;
    SpawnedIsNew(s.sessions.Values, s.running, s.spawned);
    SortingStarts(s);
    StartsInPhase(s);
    assert RunningRegistered(t) == RunningRegistered(s) && PollOk(t);
  }

  lemma SpawnKeepsInv(s: State)
    requires Inv(s) && Enabled(s, SpawnPty)
    ensures Inv(Apply(s, SpawnPty))
  {
    SpawnedIsNew(s.sessions.Values, s.running, s.spawned);
    ChildStarts(s);
    var t := s.(running := s.running + {s.spawned}, spawned := s.spawned + 1);
    HolderStep(t, Create(s.holder.id, Spawned(s.spawned)));
  }

  lemma OneMore(m: map<Id, Sid>, running: set<Sid>, id: Id, sid: Sid)
    ensures |m[id := sid].Values * running| <= |m.Values * running| + 1
    ensures m[id := sid].Values <= m.Values + {sid}
  {
    assert m[id := sid].Values <= m.Values + {sid};
    SubsetSize(m[id := sid].Values * running, m.Values * running + {sid});
  }

  lemma RegisterKeepsInv(s: State)
    requires Inv(s) && Enabled(s, Register)
    ensures Inv(Apply(s, Register)) && s.holder.id !in s.sessions
  {
    var t := Apply(s, Register);
    OneMore(s.sessions, s.running, s.holder.id, s.holder.phase.sid);
    assert t == s.(holder := Free, sessions := s.sessions[s.holder.id := s.holder.phase.sid]);
    assert CreateOk(t) && Shut(t) && SortingOk(t) && PollOk(t);
  }

  /** Fewer sessions registered or running never breaks anything. */
  lemma FewerKeepsInv(s: State, a: Action)
    requires Inv(s) && Enabled(s, a) && (a.ChildExits? || a.Forget?)
    ensures Inv(Apply(s, a))
  {
    var t := Apply(s, a);
    assert t.sessions.Values <= s.sessions.Values;
    assert RunningRegistered(t) <= RunningRegistered(s);
    SubsetSize(RunningRegistered(t), RunningRegistered(s));
  }

  lemma RemoveKeepsInv(s: State, a: Action)
    requires Inv(s) && Enabled(s, a) && (a.RemoveStale? || a.ClearAll?)
    ensures Inv(Apply(s, a))
  {
    var t := Apply(s, a);
    assert t.sessions.Values <= s.sessions.Values;
    assert RunningRegistered(t) <= RunningRegistered(s);
    SubsetSize(RunningRegistered(t), RunningRegistered(s));
  }

  lemma MainKeepsInv(s: State, a: Action)
    requires Inv(s) && Enabled(s, a)
    requires a.Receive? || a.Timeout? || a.BeginShutdown? || a.ListForDrain? || a.SortOne?
          || a.ListForPoll? || a.PollOne? || a.EndPoll?
    ensures Inv(Apply(s, a))
  {
    assert RunningRegistered(Apply(s, a)) == RunningRegistered(s);
  }

  lemma NextKeepsInv(s: State, a: Action)
    requires Inv(s)
    ensures Inv(Next(s, a))
  {
    if Enabled(s, a) {
      if a.Admit? {
        AdmitKeepsInv(s);
      } else if a.SpawnPty? {
        SpawnKeepsInv(s);
      } else if a.Register? {
        RegisterKeepsInv(s);
      } else if a.ChildExits? || a.Forget? {
        FewerKeepsInv(s, a);
      } else if a.RemoveStale? || a.ClearAll? {
        RemoveKeepsInv(s, a);
      } else if a.Receive? || a.Timeout? || a.BeginShutdown? || a.ListForDrain? || a.SortOne? || a.ListForPoll?
             || a.PollOne? || a.EndPoll? {
        MainKeepsInv(s, a);
      } else {
        CreateKeepsInv(s, a);
      }
    }
  }

  lemma {:induction false} RunKeepsInv(s: State, actions: seq<Action>)
    requires Inv(s)
    ensures Inv(Run(s, actions))
    decreases |actions|
  {
    if actions != [] {
      NextKeepsInv(s, actions[0]);
      RunKeepsInv(Next(s, actions[0]), actions[1..]);
    }
  }

  // ---- What follows for every run --------------------------------------------------------------------------

  /** However creates, forgets, exits and shutdowns interleave, no more than 200 registered sessions
      run, and the branch for a duplicate after the spawn is never taken. */
  lemma AtMostTwoHundredRun(actions: seq<Action>)
    ensures var s := Run(START, actions); |RunningRegistered(s)| <= MAX_RUNNING_SESSIONS && s.duplicates == 0
  {
    RunKeepsInv(START, actions);
  }

  ghost predicate NothingNew(s: State, t: State) {
    t.shuttingDown && forall id | id in t.sessions :: id in s.sessions && t.sessions[id] == s.sessions[id]
  }

  lemma NothingNewInOneStep(s: State, a: Action)
    requires Inv(s) && s.shuttingDown
    ensures NothingNew(s, Next(s, a))
  {
  }

  /** From the moment shutting down is set, nothing is registered any more. */
  lemma {:induction false} NothingNewAfterShutdown(s: State, actions: seq<Action>)
    requires Inv(s) && s.shuttingDown
    ensures NothingNew(s, Run(s, actions))
    decreases |actions|
  {
    if actions != [] {
      NextKeepsInv(s, actions[0]);
      NothingNewInOneStep(s, actions[0]);
      NothingNewAfterShutdown(Next(s, actions[0]), actions[1..]);
    }
  }

  /** Draining removes no session that is running, whenever its child exits. */
  lemma DrainKeepsRunning(actions: seq<Action>)
    ensures var s := Run(START, actions);
            Enabled(s, RemoveStale) ==> RunningRegistered(Next(s, RemoveStale)) == RunningRegistered(s)
  {
    RunKeepsInv(START, actions);
    var s := Run(START, actions);
    if Enabled(s, RemoveStale) {
      var t := Next(s, RemoveStale);
      forall sid | sid in RunningRegistered(s) ensures sid in t.sessions.Values {
        var id :| id in s.sessions && s.sessions[id] == sid;
        assert id in t.sessions && t.sessions[id] == sid;
      }
    }
  }

  /** Sessions that had exited when draining began are on their way out: while the main thread sorts,
      each is still to be looked at or found stale, and after that none is registered. */
  ghost predicate OnTheirWayOut(s: State, exited: set<Sid>) {
    && s.shuttingDown && exited !! s.running && (forall sid | sid in exited :: sid < s.spawned)
    && match s.main
       case Sorting(todo, stale) =>
         forall id | id in s.sessions && s.sessions[id] in exited ::
           id in stale || (id in todo && todo[id] == s.sessions[id])
       case _ => s.main == Stopping(Drain) || forall id | id in s.sessions :: s.sessions[id] !in exited
  }

  lemma NotCreating(s: State)
    requires Shut(s) && s.shuttingDown
    ensures !Enabled(s, SpawnPty) && !Enabled(s, Register)
  {
  }

  lemma DrainStaysOnTheWay(s: State, a: Action, exited: set<Sid>)
    requires OnTheirWayOut(s, exited) && Enabled(s, a) && (a.ListForDrain? || a.SortOne? || a.RemoveStale?)
    ensures OnTheirWayOut(Apply(s, a), exited)
  {
  }

  lemma MainStaysOnTheWay(s: State, a: Action, exited: set<Sid>)
    requires MainOk(s) && OnTheirWayOut(s, exited) && Enabled(s, a)
    requires a.Receive? || a.Timeout? || a.BeginShutdown? || a.ClearAll? || a.ListForPoll? || a.PollOne? || a.EndPoll?
    ensures OnTheirWayOut(Apply(s, a), exited)
  {
  }

  /** With fewer registered and fewer running, it is no different. */
  lemma FewerStayOnTheWay(s: State, t: State, exited: set<Sid>)
    requires OnTheirWayOut(s, exited) && t.main == s.main && t.spawned == s.spawned && t.shuttingDown
    requires t.running <= s.running
    requires forall id | id in t.sessions :: id in s.sessions && t.sessions[id] == s.sessions[id]
    ensures OnTheirWayOut(t, exited)
  {
  }

  lemma OnTheirWayOutNext(s: State, a: Action, exited: set<Sid>)
    requires Inv(s) && OnTheirWayOut(s, exited)
    ensures OnTheirWayOut(Next(s, a), exited)
  {
    NotCreating(s);
    if Enabled(s, a) {
      if a.EnterCreate? || a.CheckShutting? || a.LookAgain? || a.Refuse? || a.ListForCount? || a.CountOne? || a.Admit?
         || a.ChildExits? || a.Forget? {
        FewerStayOnTheWay(s, Apply(s, a), exited);
      } else if a.ListForDrain? || a.SortOne? || a.RemoveStale? {
        DrainStaysOnTheWay(s, a, exited);
      } else {
        MainStaysOnTheWay(s, a, exited);
      }
    }
  }

  lemma {:induction false} StayOnTheirWayOut(s: State, actions: seq<Action>, exited: set<Sid>)
    requires Inv(s) && OnTheirWayOut(s, exited)
    ensures OnTheirWayOut(Run(s, actions), exited)
    decreases |actions|
  {
    if actions != [] {
      NextKeepsInv(s, actions[0]);
      OnTheirWayOutNext(s, actions[0], exited);
      StayOnTheirWayOut(Next(s, actions[0]), actions[1..], exited);
    }
  }

  predicate RegisteredAmong(t: State, running: set<Sid>) {
    forall id | id in t.sessions :: t.sessions[id] in running
  }

  lemma DrainFrom(s: State, later: seq<Action>)
    requires Inv(s) && s.main == Stopping(Drain)
    ensures var t := Run(s, later); !t.main.Stopping? && !t.main.Sorting? ==> RegisteredAmong(t, s.running)
  {
    var exited := set sid: Sid | sid < s.spawned && sid !in s.running;
    assert OnTheirWayOut(s, exited);
    StayOnTheirWayOut(s, later, exited);
    NothingNewAfterShutdown(s, later);
    var t := Run(s, later);
    assert forall id | id in t.sessions :: t.sessions[id] in s.sessions.Values;
  }

  /** Draining releases what has exited: once it has removed what it found stale, every session that is
      registered was running when draining began. */
  lemma DrainReleasesExited(actions: seq<Action>, later: seq<Action>)
    requires Run(START, actions).main == Stopping(Drain)
    ensures var s := Run(START, actions); var t := Run(s, later);
            !t.main.Stopping? && !t.main.Sorting? ==> RegisteredAmong(t, s.running)
  {
    RunKeepsInv(START, actions);
    DrainFrom(Run(START, actions), later);
  }

  /** When the shutdown loop returns Drain, no registered session runs, then or at any later time. */
  lemma DrainMeansNoneRuns(actions: seq<Action>, later: seq<Action>)
    requires Run(START, actions).main == Returned(Drain)
    ensures RunningRegistered(Run(Run(START, actions), later)) == {}
  {
    RunKeepsInv(START, actions);
    ReturnedStays(Run(START, actions), later);
  }

  lemma ReturnedInOneStep(s: State, a: Action)
    requires s.main == Returned(Drain)
    ensures Next(s, a).main == Returned(Drain)
  {
  }

  lemma {:induction false} ReturnedStays(s: State, actions: seq<Action>)
    requires Inv(s) && s.main == Returned(Drain)
    ensures RunningRegistered(Run(s, actions)) == {}
    decreases |actions|
  {
    if actions != [] {
      NextKeepsInv(s, actions[0]);
      ReturnedInOneStep(s, actions[0]);
      ReturnedStays(Next(s, actions[0]), actions[1..]);
    }
  }

  // ---- What is registered stays, until it is removed ----------------------------------------------------------

  /** The three ways in which the session of an id goes: it is forgotten, found stale, or cleared with all. */
  predicate Removes(s: State, a: Action, id: Id) {
    && Enabled(s, a) && id in s.sessions
    && (a == Forget(id) || (a.RemoveStale? && id in s.main.stale) || a.ClearAll?)
  }

  /** No step takes a session out of the registry, or puts another in its place, but these; and these do. */
  lemma OnlyRemovalRemoves(s: State, a: Action, id: Id)
    requires Inv(s) && id in s.sessions
    ensures if Removes(s, a, id) then id !in Next(s, a).sessions
            else id in Next(s, a).sessions && Next(s, a).sessions[id] == s.sessions[id]
  {
    if Enabled(s, a) && a.Register? {
      RegisterKeepsInv(s);
    }
  }

  /** Forgetting one session leaves every other as it was, and so it does all else. */
  lemma ForgetIsAlone(s: State, id: Id)
    ensures var t := Next(s, Forget(id));
            && t == s.(sessions := t.sessions) && id !in t.sessions
            && forall other | other != id ::
                 && (other in t.sessions <==> other in s.sessions)
                 && (other in s.sessions ==> t.sessions[other] == s.sessions[other])
  {
  }

  /** Along the way the session of this id is removed. */
  predicate RemovedOnTheWay(s: State, actions: seq<Action>, id: Id)
    decreases |actions|
  {
    actions != [] && (Removes(s, actions[0], id) || RemovedOnTheWay(Next(s, actions[0]), actions[1..], id))
  }

  /** The session is registered, or the thread that has spawned it is about to. */
  predicate Holds(s: State, id: Id, sid: Sid) {
    s.holder == Create(id, Spawned(sid)) || (id in s.sessions && s.sessions[id] == sid)
  }

  lemma AboutToRegister(s: State, a: Action, id: Id, sid: Sid)
    requires Inv(s) && s.holder == Create(id, Spawned(sid))
    ensures Holds(Next(s, a), id, sid)
  {
    if Enabled(s, a) && a.Register? {
      RegisterKeepsInv(s);
    }
  }

  lemma HoldsNext(s: State, a: Action, id: Id, sid: Sid)
    requires Inv(s) && Holds(s, id, sid)
    ensures Removes(s, a, id) || Holds(Next(s, a), id, sid)
  {
    if id in s.sessions && s.sessions[id] == sid {
      OnlyRemovalRemoves(s, a, id);
    } else {
      AboutToRegister(s, a, id, sid);
    }
  }

  lemma {:induction false} HoldsOn(s: State, actions: seq<Action>, id: Id, sid: Sid)
    requires Inv(s) && Holds(s, id, sid)
    ensures RemovedOnTheWay(s, actions, id) || Holds(Run(s, actions), id, sid)
    decreases |actions|
  {
    if actions != [] {
      NextKeepsInv(s, actions[0]);
      HoldsNext(s, actions[0], id, sid);
      if !Removes(s, actions[0], id) {
        HoldsOn(Next(s, actions[0]), actions[1..], id, sid);
      }
    }
  }

  /** Once a PTY has been spawned for an id, its session is registered under that id, or will be with the next step
      of the thread that holds the admission lock, until it is removed. */
  lemma SpawnedStays(actions: seq<Action>, later: seq<Action>)
    requires Enabled(Run(START, actions), SpawnPty)
    ensures var s := Run(START, actions); var t := Run(Next(s, SpawnPty), later);
            RemovedOnTheWay(Next(s, SpawnPty), later, s.holder.id) || Holds(t, s.holder.id, s.spawned)
  {
    var s := Run(START, actions);
    RunKeepsInv(START, actions);
    NextKeepsInv(s, SpawnPty);
    HoldsOn(Next(s, SpawnPty), later, s.holder.id, s.spawned);
  }

  /** That step registers it and changes nothing else. */
  lemma RegisterRegisters(actions: seq<Action>, id: Id, sid: Sid)
    requires Run(START, actions).holder == Create(id, Spawned(sid))
    ensures var s := Run(START, actions);
            id !in s.sessions && Next(s, Register) == s.(holder := Free, sessions := s.sessions[id := sid])
  {
    RunKeepsInv(START, actions);
    RegisterKeepsInv(Run(START, actions));
  }

  lemma SpawnsWhenAbsent(s: State, sid: Sid)
    requires Inv(s) && Enabled(s, SpawnPty)
    ensures !Holds(s, s.holder.id, sid)
  {
    assert CreateOk(s);
  }

  /** No second process for an id: a PTY is spawned for it again only after the session of the first has been
      removed. */
  lemma SpawnsAgainOnlyAfterRemoval(actions: seq<Action>, later: seq<Action>)
    requires Enabled(Run(START, actions), SpawnPty)
    requires var t := Run(Next(Run(START, actions), SpawnPty), later);
             Enabled(t, SpawnPty) && t.holder.id == Run(START, actions).holder.id
    ensures var s := Run(START, actions); RemovedOnTheWay(Next(s, SpawnPty), later, s.holder.id)
  {
    var s := Run(START, actions);
    SpawnedStays(actions, later);
    RunKeepsInv(START, actions);
    NextKeepsInv(s, SpawnPty);
    RunKeepsInv(Next(s, SpawnPty), later);
    SpawnsWhenAbsent(Run(Next(s, SpawnPty), later), s.spawned);
  }

  // ---- What is asked for is done ------------------------------------------------------------------------------

  lemma {:induction false} RunConcat(s: State, a: seq<Action>, b: seq<Action>)
    ensures Run(s, a + b) == Run(Run(s, a), b)
    decreases |a|
  {
    if a == [] {
      assert a + b == b;
    } else {
      assert (a + b)[1..] == a[1..] + b;
      RunConcat(Next(s, a[0]), a[1..], b);
    }
  }

  lemma RunOne(s: State, a: Action)
    ensures Run(s, [a]) == Next(s, a)
  {
    assert [a][1..] == [];
  }

  lemma RunMore(s: State, actions: seq<Action>, a: Action)
    ensures Run(s, actions + [a]) == Next(Run(s, actions), a)
  {
    RunConcat(s, actions, [a]);
    RunOne(Run(s, actions), a);
  }

  /** The thread that creates looks at every session. */
  lemma {:induction false} CountAll(s: State) returns (actions: seq<Action>)
    requires s.holder.Create? && s.holder.phase.Counting?
    ensures var p := s.holder.phase; Run(s, actions) == InPhase(s, Counting({}, p.counted + p.todo * s.running))
    decreases s.holder.phase.todo
  {
    var p := s.holder.phase;
    if p.todo == {} {
      actions := [];
      assert p.counted + p.todo * s.running == p.counted;
    } else {
      var sid :| sid in p.todo;
      var rest := CountAll(Next(s, CountOne(sid)));
      actions := [CountOne(sid)] + rest;
      assert actions[1..] == rest;
      var q := Next(s, CountOne(sid)).holder.phase;
      assert q.counted + q.todo * s.running == p.counted + p.todo * s.running;
    }
  }

  function WithSession(s: State, id: Id): State {
    s.(sessions := s.sessions[id := s.spawned], running := s.running + {s.spawned}, spawned := s.spawned + 1)
  }

  lemma AdmittedIsReached(s: State, id: Id) returns (actions: seq<Action>)
    requires s.holder.Free? && !s.shuttingDown && id !in s.sessions && |RunningRegistered(s)| < 200
    ensures Run(s, actions) == s.(holder := Create(id, Admitted))
  {
    RunOne(s, EnterCreate(id));
    RunMore(s, [EnterCreate(id)], CheckShutting);
    RunMore(s, [EnterCreate(id)] + [CheckShutting], LookAgain);
    var start := [EnterCreate(id)] + [CheckShutting] + [LookAgain];
    RunMore(s, start, ListForCount);
    var listed := Run(s, start + [ListForCount]);
    assert listed == s.(holder := Create(id, Counting(s.sessions.Values, {})));
    var counting := CountAll(listed);
    RunConcat(s, start + [ListForCount], counting);
    assert {} + s.sessions.Values * s.running == RunningRegistered(s);
    RunMore(s, start + [ListForCount] + counting, Admit);
    actions := start + [ListForCount] + counting + [Admit];
  }

  /** A create that nothing interrupts, while it is not shutting down, for an id that is not registered and with fewer
      than 200 sessions running, spawns a PTY and registers it. */
  lemma CreateSucceeds(s: State, id: Id) returns (actions: seq<Action>)
    requires s.holder.Free? && !s.shuttingDown && id !in s.sessions && |RunningRegistered(s)| < 200
    ensures Run(s, actions) == WithSession(s, id)
  {
    var before := AdmittedIsReached(s, id);
    RunMore(s, before, SpawnPty);
    RunMore(s, before + [SpawnPty], Register);
    actions := before + [SpawnPty] + [Register];
  }

  lemma {:induction false} PollAll(s: State) returns (actions: seq<Action>)
    requires s.main.Polling?
    ensures Run(s, actions) == s.(main := Polling({}, s.main.counted + |s.main.left * s.running|))
    decreases s.main.left
  {
    var m := s.main;
    if m.left == {} {
      actions := [];
      assert m.left * s.running == {};
    } else {
      var sid :| sid in m.left;
      var rest := PollAll(Next(s, PollOne(sid)));
      actions := [PollOne(sid)] + rest;
      assert actions[1..] == rest;
      OneLess(m.left, s.running, sid);
    }
  }

  lemma OneLess(left: set<Sid>, running: set<Sid>, sid: Sid)
    requires sid in left
    ensures |left * running| == |(left - {sid}) * running| + (if sid in running then 1 else 0)
  {
    if sid in running {
      assert left * running == (left - {sid}) * running + {sid};
    } else {
      assert left * running == (left - {sid}) * running;
    }
  }

  /** A poll that nothing interrupts ends the daemon if no registered session runs, and only then. */
  lemma PollDecides(s: State) returns (actions: seq<Action>)
    requires s.main.Waiting? && s.shuttingDown
    ensures Run(s, actions) == s.(main := if RunningRegistered(s) == {} then Returned(Drain) else Waiting)
  {
    RunOne(s, Timeout);
    RunMore(s, [Timeout], ListForPoll);
    var polls := PollAll(s.(main := Polling(s.sessions.Values, 0)));
    RunConcat(s, [Timeout] + [ListForPoll], polls);
    RunMore(s, [Timeout] + [ListForPoll] + polls, EndPoll);
    PollEnds(s, |RunningRegistered(s)|);
    actions := [Timeout] + [ListForPoll] + polls + [EndPoll];
  }

  lemma PollEnds(s: State, n: nat)
    ensures Next(s.(main := Polling({}, n)), EndPoll) == s.(main := if n == 0 then Returned(Drain) else Waiting)
  {
  }

  lemma {:induction false} SortAll(s: State) returns (actions: seq<Action>)
    requires s.main.Sorting?
    ensures var found := set id | id in s.main.todo && s.main.todo[id] !in s.running;
            Run(s, actions) == s.(main := Sorting(map[], s.main.stale + found))
    decreases |s.main.todo|
  {
    var m := s.main;
    var found := set id | id in m.todo && m.todo[id] !in s.running;
    if m.todo == map[] {
      actions := [];
      assert m.stale + found == m.stale;
    } else {
      var id :| id in m.todo;
      OneIdLess(m.todo, id);
      var next := Next(s, SortOne(id));
      var rest := SortAll(next);
      actions := [SortOne(id)] + rest;
      assert actions[1..] == rest;
      assert next.main.stale + (set d | d in next.main.todo && next.main.todo[d] !in s.running) == m.stale + found;
    }
  }

  lemma OneIdLess(m: map<Id, Sid>, id: Id)
    requires id in m
    ensures |m - {id}| < |m|
  {
    assert m == (m - {id})[id := m[id]];
  }

  /** The first request to drain, if nothing interrupts it: from then on only running sessions are registered. */
  lemma DrainKeepsTheRunning(s: State) returns (actions: seq<Action>)
    requires s.main.Waiting? && !s.shuttingDown && s.holder.Free?
    ensures var t := Run(s, actions);
            && t == s.(shuttingDown := true, main := StartPoll, sessions := t.sessions)
            && t.sessions == map id | id in s.sessions && s.sessions[id] in s.running :: s.sessions[id]
  {
    RunOne(s, Receive(Drain));
    RunMore(s, [Receive(Drain)], BeginShutdown);
    var start := [Receive(Drain)] + [BeginShutdown];
    RunMore(s, start, ListForDrain);
    var sorting := Run(s, start + [ListForDrain]);
    assert sorting == s.(shuttingDown := true, holder := Shutdown, main := Sorting(s.sessions, {}));
    var sorts := SortAll(sorting);
    RunConcat(s, start + [ListForDrain], sorts);
    RunMore(s, start + [ListForDrain] + sorts, RemoveStale);
    actions := start + [ListForDrain] + sorts + [RemoveStale];
  }

  /** A request to stop now, or a second one to drain, ends the daemon with nothing registered. */
  lemma NowStops(s: State, mode: Mode)
    requires s.main.Waiting? && s.holder.Free? && (mode == Now || s.shuttingDown)
    ensures Run(s, [Receive(mode), BeginShutdown, ClearAll])
         == s.(shuttingDown := true, sessions := map[], main := Returned(Now))
  {
    RunOne(s, Receive(mode));
    RunMore(s, [Receive(mode)], BeginShutdown);
    RunMore(s, [Receive(mode)] + [BeginShutdown], ClearAll);
    assert [Receive(mode), BeginShutdown, ClearAll] == [Receive(mode)] + [BeginShutdown] + [ClearAll];
  }

  /** Only its child's exit ends a session that runs. */
  lemma OnlyExitEnds(s: State, a: Action, sid: Sid)
    requires sid in s.running
    ensures sid in Next(s, a).running <==> a != ChildExits(sid)
  {
  }
}
