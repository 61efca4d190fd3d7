/** Broadcasts of the reader that nothing interrupts. */
module Broadcasts {
  // They do what the hub does on its own, and they show that the exit thread has to find the reader done if
  // nothing is to follow Exit.

  import opened Options
  import Utf8
  import opened Bounds
  import opened Resume
  import Hub

  // ---- Identifiers and counters stay within bounds -------------------------------------------------------

  predicate CastKnown(cast: Cast, conns: map<Id, Conn>) {
    forall c | c in cast.todo + cast.slow :: c in conns
  }

  /** Every client is a connection, and nothing has been taken that was not queued. */
  predicate Known(s: State) {
    && (forall c | c in s.clients :: c in s.conns)
    && (s.reader.Publishing? ==> CastKnown(s.reader.cast, s.conns))
    && (s.exit.Announcing? ==> CastKnown(s.exit.cast, s.conns))
    && (forall c | c in s.conns :: s.conns[c].taken <= |s.conns[c].sent|)
  }

  /** At most one connection is new or different. */
  lemma KnownStep(s: State, t: State, c: Id)
    requires Known(s) && c in t.conns && t.conns == s.conns[c := t.conns[c]] && t.clients <= s.clients + {c}
    requires t.conns[c].taken <= |t.conns[c].sent|
    requires t.reader.Publishing? ==> CastKnown(t.reader.cast, t.conns)
    requires t.exit.Announcing? ==> CastKnown(t.exit.cast, t.conns)
    ensures Known(t)
  {
  }

  lemma CastStepKeepsKnown(s: State, a: Action)
    requires Known(s) && Enabled(s, a) && (a.Offer? || a.OfferExit? || a.DropSlow? || a.DropSlowExit?)
    ensures Known(Apply(s, a))
  {
    var t := Apply(s, a);
    assert s.conns[a.c := s.conns[a.c]] == s.conns;
    KnownStep(s, t, a.c);
  }

  lemma ConnStepKeepsKnown(s: State, a: Action)
    requires Known(s) && Enabled(s, a)
    requires a.Connect? || a.Authenticate? || a.AttachRead? || a.Respond? || a.FailAnswer? || a.GiveUpAnswer?
          || a.QueueOther? || a.TakeFrame? || a.Close?
    ensures Known(Apply(s, a))
  {
    var t := Apply(s, a);
    if a.Authenticate? {
      assert s.conns[a.c := s.conns[a.c]] == s.conns;
    }
    KnownStep(s, t, a.c);
  }

  lemma NextKeepsKnown(s: State, a: Action)
    requires Known(s)
    ensures Known(Next(s, a))
  {
    if Enabled(s, a) {
      if a.Offer? || a.OfferExit? || a.DropSlow? || a.DropSlowExit? {
        CastStepKeepsKnown(s, a);
      } else if a.Connect? || a.Authenticate? || a.AttachRead? || a.Respond? || a.FailAnswer? || a.GiveUpAnswer?
             || a.QueueOther? || a.TakeFrame? || a.Close? {
        ConnStepKeepsKnown(s, a);
      }
    }
  }

  lemma {:induction false} RunKeepsKnown(s: State, actions: seq<Action>)
    requires Known(s)
    ensures Known(Run(s, actions))
    decreases |actions|
  {
    if actions != [] {
      NextKeepsKnown(s, actions[0]);
      RunKeepsKnown(Next(s, actions[0]), actions[1..]);
    }
  }

  lemma {:induction false} RunSplit(s: State, a: seq<Action>, b: seq<Action>)
    ensures Run(s, a + b) == Run(Run(s, a), b)
    decreases |a|
  {
    if a == [] {
      assert a + b == b;
    } else {
      assert (a + b)[1..] == a[1..] + b;
      RunSplit(Next(s, a[0]), a[1..], b);
    }
  }

  lemma RunFirst(s: State, a: Action, rest: seq<Action>)
    ensures Run(s, [a] + rest) == Run(Next(s, a), rest)
  {
    assert ([a] + rest)[1..] == rest;
  }

  lemma RunThen(s: State, actions: seq<Action>, a: Action)
    ensures Run(s, actions + [a]) == Next(Run(s, actions), a)
  {
    RunOn(s, actions, Run(s, actions), a);
  }

  // ---- A broadcast from its beginning to its end ---------------------------------------------------------

  predicate CanTake(conn: Conn) {
    !conn.closed && HasRoom(conn)
  }

  function OfferedTo(conn: Conn, f: Frame): Conn {
    if conn.authed && CanTake(conn) then conn.(sent := conn.sent + [f]) else conn
  }

  function ServedTo(conn: Conn, f: Frame): Conn {
    if !conn.authed then conn
    else if CanTake(conn) then conn.(sent := conn.sent + [f])
    else conn.(closed := true)
  }

  function Newest(journal: seq<Utf8.Text>): Frame
    requires |journal| > 0
  {
    DataFrame(Chunk(|journal|, journal[|journal| - 1]))
  }

  function OfferedAll(conns: map<Id, Conn>, todo: set<Id>, f: Frame): map<Id, Conn> {
    map c | c in conns :: if c in todo then OfferedTo(conns[c], f) else conns[c]
  }

  function ClosedAll(conns: map<Id, Conn>, slow: set<Id>): map<Id, Conn> {
    map c | c in conns :: if c in slow then conns[c].(closed := true) else conns[c]
  }

  function SlowIn(conns: map<Id, Conn>, ids: set<Id>): set<Id> {
    set c | c in ids && c in conns && conns[c].authed && !CanTake(conns[c])
  }

  lemma OffersCompose(conns: map<Id, Conn>, todo: set<Id>, slow: set<Id>, c: Id, f: Frame)
    requires c in todo && c in conns
    ensures var after := conns[c := OfferedTo(conns[c], f)];
            && OfferedAll(after, todo - {c}, f) == OfferedAll(conns, todo, f)
            && slow + SlowIn(conns, {c}) + SlowIn(after, todo - {c}) == slow + SlowIn(conns, todo)
  {
  }

  /** Every client on the list is offered the newest entry. */
  lemma {:induction false} OffersAll(s: State) returns (actions: seq<Action>)
    requires Known(s) && s.reader.Publishing? && |s.journal| > 0
    ensures var cast := s.reader.cast;
            Run(s, actions) == s.(reader := Publishing(Cast({}, cast.slow + SlowIn(s.conns, cast.todo))),
                                  conns := OfferedAll(s.conns, cast.todo, Newest(s.journal)))
    decreases |s.reader.cast.todo|
  {
    var todo, slow := s.reader.cast.todo, s.reader.cast.slow;
    if todo == {} {
      actions := [];
      assert OfferedAll(s.conns, {}, Newest(s.journal)) == s.conns;
      assert slow + SlowIn(s.conns, {}) == slow;
    } else {
      var c :| c in todo;
      assert c in todo + slow;
      var a := Offer(c, s.conns[c].authed && CanTake(s.conns[c]));
      OfferOne(s, c);
      OffersCompose(s.conns, todo, slow, c, Newest(s.journal));
      var rest := OffersAll(Next(s, a));
      actions := [a] + rest;
      RunFirst(s, a, rest);
    }
  }

  lemma OfferOne(s: State, c: Id)
    requires Known(s) && s.reader.Publishing? && |s.journal| > 0 && c in s.reader.cast.todo
    ensures var queued := s.conns[c].authed && CanTake(s.conns[c]);
            && Enabled(s, Offer(c, queued)) && Known(Next(s, Offer(c, queued)))
            && Next(s, Offer(c, queued)) == s.(
                 reader := Publishing(Cast(s.reader.cast.todo - {c}, s.reader.cast.slow + SlowIn(s.conns, {c}))),
                 conns := s.conns[c := OfferedTo(s.conns[c], Newest(s.journal))])
  {
    var queued := s.conns[c].authed && CanTake(s.conns[c]);
    NextKeepsKnown(s, Offer(c, queued));
    var t := Next(s, Offer(c, queued));
    assert SlowIn(s.conns, {c}) == if s.conns[c].authed && !queued then {c} else {};
    assert t.reader.cast.slow == s.reader.cast.slow + SlowIn(s.conns, {c});
    assert s.conns[c := s.conns[c]] == s.conns;
  }

  /** The slow are closed and taken out of the list. */
  lemma {:induction false} DropsAll(s: State) returns (actions: seq<Action>)
    requires Known(s) && s.reader.Publishing? && s.reader.cast.todo == {}
    ensures var slow := s.reader.cast.slow;
            Run(s, actions) == s.(reader := Publishing(Cast({}, {})), conns := ClosedAll(s.conns, slow),
                                  clients := s.clients - slow)
    decreases |s.reader.cast.slow|
  {
    var slow := s.reader.cast.slow;
    if slow == {} {
      actions := [];
      assert ClosedAll(s.conns, {}) == s.conns && s.clients - {} == s.clients;
    } else {
      var c :| c in slow;
      assert c in s.reader.cast.todo + slow;
      var t := Next(s, DropSlow(c));
      NextKeepsKnown(s, DropSlow(c));
      var rest := DropsAll(t);
      actions := [DropSlow(c)] + rest;
      RunFirst(s, DropSlow(c), rest);
      assert ClosedAll(t.conns, slow - {c}) == ClosedAll(s.conns, slow);
      assert t.clients - (slow - {c}) == s.clients - slow;
    }
  }

  /** A broadcast that has begun can be finished. */
  lemma Finishes(s: State) returns (actions: seq<Action>)
    requires Known(s) && s.reader.Publishing? && |s.journal| > 0
    ensures var cast := s.reader.cast; var slow := cast.slow + SlowIn(s.conns, cast.todo);
            Run(s, actions) == s.(reader := Idle, clients := s.clients - slow,
                                  conns := ClosedAll(OfferedAll(s.conns, cast.todo, Newest(s.journal)), slow))
  {
    var first := OffersAll(s);
    var t := Run(s, first);
    RunKeepsKnown(s, first);
    var second := DropsAll(t);
    RunSplit(s, first, second);
    RunThen(s, first + second, EndPublish);
    actions := first + second + [EndPublish];
  }

  function ServedAllTo(conns: map<Id, Conn>, clients: set<Id>, f: Frame): map<Id, Conn> {
    map c | c in conns :: if c in clients then ServedTo(conns[c], f) else conns[c]
  }

  lemma OfferedThenClosed(conns: map<Id, Conn>, clients: set<Id>, f: Frame)
    ensures ClosedAll(OfferedAll(conns, clients, f), SlowIn(conns, clients)) == ServedAllTo(conns, clients, f)
  {
  }

  /** A broadcast that nothing interrupts serves every client on the list as the hub does on its own. */
  lemma BroadcastRuns(s: State) returns (actions: seq<Action>)
    requires Known(s) && s.reader.Appended? && |s.journal| > 0
    ensures Run(s, actions) == s.(reader := Idle, clients := s.clients - SlowIn(s.conns, s.clients),
                                  conns := ServedAllTo(s.conns, s.clients, Newest(s.journal)))
  {
    var t := Next(s, BeginPublish);
    NextKeepsKnown(s, BeginPublish);
    var rest := Finishes(t);
    actions := [BeginPublish] + rest;
    RunFirst(s, BeginPublish, rest);
    assert {} + SlowIn(s.conns, s.clients) == SlowIn(s.conns, s.clients);
    OfferedThenClosed(s.conns, s.clients, Newest(s.journal));
  }

  /** A connection as the hub sees it. */
  function View(conn: Conn): Hub.Conn<Frame> {
    Hub.Conn(conn.authed, conn.closed, false,
             if conn.taken <= |conn.sent| then conn.sent[conn.taken..] else [])
  }

  function ViewAll(conns: map<Id, Conn>): map<Id, Hub.Conn<Frame>> {
    map c | c in conns :: View(conns[c])
  }

  lemma ServedAsInHub(conn: Conn, f: Frame)
    requires conn.taken <= |conn.sent|
    ensures View(ServedTo(conn, f)) == Hub.Served(View(conn), f, Hub.PTY_DAEMON)
    ensures conn.authed && !CanTake(conn) <==> Hub.Slow(View(conn), Hub.PTY_DAEMON)
  {
    assert (conn.sent + [f])[conn.taken..] == conn.sent[conn.taken..] + [f];
  }

  ghost predicate TakenOk(conns: map<Id, Conn>) {
    forall c | c in conns :: conns[c].taken <= |conns[c].sent|
  }

  lemma ServedAllAsInHub(conns: map<Id, Conn>, clients: set<Id>, ids: seq<Id>, f: Frame)
    requires TakenOk(conns) && forall c :: c in ids <==> c in clients
    ensures ViewAll(ServedAllTo(conns, clients, f)) == Hub.ServedAll(ViewAll(conns), ids, f, Hub.PTY_DAEMON)
  {
    forall c | c in conns ensures View(ServedTo(conns[c], f)) == Hub.Served(View(conns[c]), f, Hub.PTY_DAEMON) {
      ServedAsInHub(conns[c], f);
    }
  }

  lemma FastAsInHub(conns: map<Id, Conn>, clients: set<Id>, ids: seq<Id>, c: Id)
    requires TakenOk(conns) && (c in ids <==> c in clients) && (c in clients ==> c in conns)
    ensures c in clients - SlowIn(conns, clients) <==> c in Hub.Fast(ViewAll(conns), ids, Hub.PTY_DAEMON)
  {
    Hub.KeepsExactly(ids, |ids|, Hub.IsSlow(ViewAll(conns), Hub.PTY_DAEMON), c);
    assert ids[..|ids|] == ids;
    if c in clients {
      ServedAsInHub(conns[c], ExitFrame);
    }
  }

  /** The steps of a broadcast, one after the other, are the broadcast of the hub. */
  lemma BroadcastIsTheHubs(s: State, ids: seq<Id>) returns (actions: seq<Action>)
    requires Known(s) && s.reader.Appended? && |s.journal| > 0 && forall c :: c in ids <==> c in s.clients
    ensures var t := Run(s, actions);
            && t.reader.Idle?
            && ViewAll(t.conns) == Hub.ServedAll(ViewAll(s.conns), ids, Newest(s.journal), Hub.PTY_DAEMON)
            && forall c :: c in t.clients <==> c in Hub.Fast(ViewAll(s.conns), ids, Hub.PTY_DAEMON)
  {
    actions := BroadcastRuns(s);
    ServedAllAsInHub(s.conns, s.clients, ids, Newest(s.journal));
    forall c ensures c in Run(s, actions).clients <==> c in Hub.Fast(ViewAll(s.conns), ids, Hub.PTY_DAEMON) {
      FastAsInHub(s.conns, s.clients, ids, c);
    }
  }

  // ---- When Data can follow Exit -------------------------------------------------------------------------

  lemma {:induction false} SomeIdIsUnused(ids: set<Id>) returns (c: Id)
    ensures forall d | d in ids :: d < c
  {
    if ids == {} {
      c := 0;
    } else {
      var d :| d in ids;
      var e := SomeIdIsUnused(ids - {d});
      c := if d < e then e else d + 1;
      assert forall x | x in ids :: x == d || x in ids - {d};
    }
  }

  /** The reader can be brought to where it has appended and is about to publish. */
  lemma ReachesAppended(s: State) returns (actions: seq<Action>)
    requires Known(s) && ReaderOk(s) && !s.reader.ReaderDone? && !s.retired
    ensures var t := Run(s, actions);
            t.reader.Appended? && |t.journal| > 0 && t.exit == s.exit && t.retired == s.retired && Known(t)
  {
    actions := [];
    if s.reader.Publishing? {
      actions := Finishes(s);
    }
    if !s.reader.Appended? {
      if !s.reader.Checked? {
        RunThen(s, actions, CheckRetired);
        actions := actions + [CheckRetired];
      }
      RunThen(s, actions, AppendText([0x61]));
      actions := actions + [AppendText([0x61])];
    }
    RunKeepsKnown(s, actions);
  }

  /** Data after Exit, in the queue of some connection. */
  ghost predicate DataFollowsExit(s: State) {
    exists c :: c in s.conns && !NoDataAfterExit(s.conns[c].sent)
  }

  /** What a connection is after it has authenticated. */
  function Fresh(since: nat, sent: seq<Frame>): Conn {
    Conn(true, false, since, sent, 0, None)
  }

  lemma ClientConnects(s: State, c: Id)
    requires c !in s.conns
    ensures Run(s, [Connect(c), Authenticate(c)])
         == s.(conns := s.conns[c := Fresh(|s.journal|, [])], clients := s.clients + {c})
  {
    RunTwo(s, Connect(c), Authenticate(c));
    var t := Next(s, Connect(c));
    assert t.conns[c].answer.None? && Next(t, Authenticate(c)).conns == s.conns[c := Fresh(|s.journal|, [])];
  }

  lemma RunTwo(s: State, a: Action, b: Action)
    ensures Run(s, [a, b]) == Next(Next(s, a), b)
  {
    assert [a, b][1..] == [b] && [b][1..] == [];
    assert Run(s, [a, b]) == Run(Next(s, a), [b]);
    assert Run(Next(s, a), [b]) == Run(Next(Next(s, a), b), []);
  }

  lemma ClientGetsExit(s: State, c: Id)
    requires c in s.conns && c in s.clients && s.conns[c] == Fresh(|s.journal|, [])
    requires s.exit.ReaderAwaited? && !s.retired
    ensures var t := Run(s, [BeginExit, OfferExit(c, true)]);
            && t.journal == s.journal && t.reader == s.reader && t.clients == s.clients
            && c in t.conns && t.conns[c] == Fresh(|s.journal|, [ExitFrame])
  {
    RunTwo(s, BeginExit, OfferExit(c, true));
    assert [] + [ExitFrame] == [ExitFrame];
  }

  lemma ClientGetsData(s: State, c: Id)
    requires c in s.conns && c in s.clients && s.conns[c] == Fresh(|s.journal|, [ExitFrame])
    requires s.reader.Appended? && |s.journal| > 0
    ensures var t := Run(s, [BeginPublish, Offer(c, true)]);
            c in t.conns && t.conns[c].sent == [ExitFrame, Newest(s.journal)]
  {
    RunTwo(s, BeginPublish, Offer(c, true));
    assert [ExitFrame] + [Newest(s.journal)] == [ExitFrame, Newest(s.journal)];
  }

  /** A client that connects now gets Exit first, and then what the reader has yet to publish. */
  lemma NewClientGetsExitFirst(s: State) returns (actions: seq<Action>)
    requires s.reader.Appended? && |s.journal| > 0 && s.exit.ReaderAwaited? && !s.retired
    ensures DataFollowsExit(Run(s, actions))
  {
    var c := SomeIdIsUnused(s.conns.Keys);
    var a, b, d := [Connect(c), Authenticate(c)], [BeginExit, OfferExit(c, true)], [BeginPublish, Offer(c, true)];
    ClientConnects(s, c);
    ClientGetsExit(Run(s, a), c);
    RunSplit(s, a, b);
    ClientGetsData(Run(s, a + b), c);
    RunSplit(s, a + b, d);
    actions := a + b + d;
    var sent := Run(s, actions).conns[c].sent;
    assert sent[0].ExitFrame? && sent[1].DataFrame?;
  }

  /** Once the reader is done no Data event is queued any more. */
  ghost predicate Quiet(s: State) {
    s.reader.ReaderDone? && forall c | c in s.conns :: NoDataAfterExit(s.conns[c].sent)
  }

  lemma NoDataAfterMore(sent: seq<Frame>, f: Frame)
    requires NoDataAfterExit(sent) && !f.DataFrame?
    ensures NoDataAfterExit(sent + [f])
  {
  }

  /** One connection is new, or has been sent one frame more that is no Data. */
  lemma QuietStep(s: State, t: State, c: Id)
    requires Quiet(s) && t.reader.ReaderDone? && c in t.conns && t.conns == s.conns[c := t.conns[c]]
    requires NoDataAfterExit(t.conns[c].sent)
    ensures Quiet(t)
  {
  }

  lemma QueueingKeepsQuiet(s: State, a: Action)
    requires Quiet(s) && ExitInv(s) && Enabled(s, a)
    requires a.Respond? || a.FailAnswer? || a.QueueOther? || a.OfferExit?
    ensures Quiet(Apply(s, a))
  {
    var conn := s.conns[a.c];
    var f := if a.Respond? then conn.answer.value else if a.OfferExit? then ExitFrame else OtherFrame;
    NoDataAfterMore(conn.sent, f);
    assert s.conns[a.c := conn] == s.conns;
    QuietStep(s, Apply(s, a), a.c);
  }

  lemma NextKeepsQuiet(s: State, a: Action)
    requires Quiet(s) && ExitInv(s)
    ensures Quiet(Next(s, a))
  {
    if Enabled(s, a) {
      if a.Respond? || a.FailAnswer? || a.QueueOther? || a.OfferExit? {
        QueueingKeepsQuiet(s, a);
      } else if a.Connect? || a.Authenticate? || a.AttachRead? || a.GiveUpAnswer? || a.TakeFrame? || a.Close?
             || a.DropSlowExit? {
        assert s.conns == if a.c in s.conns then s.conns[a.c := s.conns[a.c]] else s.conns;
        QuietStep(s, Apply(s, a), a.c);
      }
    }
  }

  lemma {:induction false} RunKeepsQuiet(s: State, actions: seq<Action>)
    requires Quiet(s) && ExitInv(s)
    ensures Quiet(Run(s, actions))
    decreases |actions|
  {
    if actions != [] {
      NextKeepsQuiet(s, actions[0]);
      NextKeepsExitInv(s, actions[0]);
      RunKeepsQuiet(Next(s, actions[0]), actions[1..]);
    }
  }

  lemma NothingAfterExitYet(s: State)
    requires ExitInv(s) && s.exit.ReaderAwaited? && s.reader.ReaderDone?
    ensures Quiet(s)
  {
    forall c | c in s.conns ensures NoDataAfterExit(s.conns[c].sent) {
      assert ExitOk(ExitToCome(s, c), TimedOut(s), s.conns[c]);
    }
  }

  /** Whether the exit thread has stopped waiting because the reader was done or because its time was up:
      in every such state of a session that has not been retired, Data can still follow Exit if and only
      if the reader is not done. */
  lemma DataCanFollowExit(actions: seq<Action>)
    requires Run(START, actions).exit.ReaderAwaited? && !Run(START, actions).retired
    ensures var s := Run(START, actions);
            !s.reader.ReaderDone? <==> exists later: seq<Action> :: DataFollowsExit(Run(s, later))
  {
    var s := Run(START, actions);
    RunKeepsKnown(START, actions);
    RunKeepsInv(START, actions);
    RunKeepsExitInv(START, actions);
    if s.reader.ReaderDone? {
      NothingAfterExitYet(s);
      forall later: seq<Action> ensures !DataFollowsExit(Run(s, later)) {
        RunKeepsQuiet(s, later);
      }
    } else {
      var first := ReachesAppended(s);
      var second := NewClientGetsExitFirst(Run(s, first));
      RunSplit(s, first, second);
      assert DataFollowsExit(Run(s, first + second));
    }
  }
}
