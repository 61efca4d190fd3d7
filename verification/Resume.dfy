/** One session and its clients, over all interleavings. */
module Resume {
  // The steps of the threads: the reader appends under the session lock and then publishes; each connection
  // authenticates, attaches and answers; the exit thread publishes last.  A connection that cannot take an
  // event is dropped.

  import opened Options
  import opened Utf8
  import opened Windows
  import opened Bounds
  import opened Session

  const EVENT_QUEUE_DEPTH := 1024
  const LONGEST_APPEND := 64 * 1024 + 3

  type Id = nat

  datatype Frame =
    | DataFrame(chunk: Chunk)
    | ExitFrame
    | ReplyFrame(after: nat, upTo: nat, chunks: seq<Chunk>)
    | OtherFrame

  /** `since`: how long the journal was when the connection authenticated.  `taken`: how many of the
      frames queued so far the writer thread has taken. */
  datatype Conn = Conn(
    authed: bool, closed: bool, since: nat, sent: seq<Frame>, taken: nat, answer: Option<Frame>)

  /** A broadcast goes through a copy of the client list and then drops the slow. */
  datatype Cast = Cast(todo: set<Id>, slow: set<Id>)

  datatype Reader = Idle | Checked | Appended | Publishing(cast: Cast) | ReaderDone

  datatype Exit =
    | Waiting | StatusSet | ReaderAwaited(clean: bool) | Announcing(clean: bool, cast: Cast) | Finished(clean: bool)

  datatype State = State(
    journal: seq<Text>, reader: Reader, exit: Exit, retired: bool, conns: map<Id, Conn>, clients: set<Id>)

  const START := State([], Idle, Waiting, false, map[], {})

  datatype Action =
    | CheckRetired | AppendText(data: Text) | BeginPublish | Offer(c: Id, queued: bool) | DropSlow(c: Id) | EndPublish
    | FinishReading
    | Connect(c: Id) | Authenticate(c: Id) | AttachRead(c: Id, after: nat)
    | Respond(c: Id) | FailAnswer(c: Id) | GiveUpAnswer(c: Id)
    | QueueOther(c: Id) | TakeFrame(c: Id) | Close(c: Id) | Remove(c: Id)
    | Retire | SetStatus | StopWaiting | BeginExit | OfferExit(c: Id, queued: bool) | DropSlowExit(c: Id) | EndExit

  function WindowOf(journal: seq<Text>): seq<Chunk> {
    Fit(StoredAll(Numbered(0, journal), PTY_OUTPUT_MAX_CHARS), Chars, PTY_OUTPUT_MAX_CHARS)
  }

  predicate HasRoom(conn: Conn) {
    |conn.sent| < conn.taken + EVENT_QUEUE_DEPTH
  }

  /** An authenticated client is offered every event.  It is slow if its queue is full, or if it has
      been closed; one that closes during the attempt may still have been queued to. */
  predicate CanOffer(cast: Cast, conns: map<Id, Conn>, c: Id, queued: bool) {
    && c in cast.todo && c in conns
    && (if queued then conns[c].authed && HasRoom(conns[c])
        else conns[c].authed ==> conns[c].closed || !HasRoom(conns[c]))
  }

  function Offered(cast: Cast, conns: map<Id, Conn>, c: Id, queued: bool): Cast
    requires c in conns
  {
    Cast(cast.todo - {c}, if queued || !conns[c].authed then cast.slow else cast.slow + {c})
  }

  function Queue(conns: map<Id, Conn>, c: Id, frame: Frame): map<Id, Conn>
    requires c in conns
  {
    conns[c := conns[c].(sent := conns[c].sent + [frame])]
  }

  predicate Enabled(s: State, a: Action) {
    match a
    case CheckRetired => s.reader.Idle? && !s.retired
    case AppendText(data) => s.reader.Checked? && 0 < |data| <= LONGEST_APPEND
    case BeginPublish => s.reader.Appended?
    case Offer(c, queued) => s.reader.Publishing? && CanOffer(s.reader.cast, s.conns, c, queued)
    case DropSlow(c) => s.reader.Publishing? && s.reader.cast.todo == {} && c in s.reader.cast.slow && c in s.conns
    case EndPublish => s.reader.Publishing? && s.reader.cast == Cast({}, {})
    case FinishReading => s.reader.Idle?
    case Connect(c) => c !in s.conns
    case Authenticate(c) => c in s.conns && s.conns[c].answer.None?
    case AttachRead(c, after) => c in s.conns && s.conns[c].authed && s.conns[c].answer.None?
    case Respond(c) => c in s.conns && s.conns[c].answer.Some? && HasRoom(s.conns[c])
    // The answer cannot be encoded; an error frame takes its place.
    case FailAnswer(c) => c in s.conns && s.conns[c].answer.Some? && HasRoom(s.conns[c])
    // Not even the error frame can be encoded, or the connection is closed already.
    case GiveUpAnswer(c) => c in s.conns && s.conns[c].closed
    case QueueOther(c) => c in s.conns && HasRoom(s.conns[c])
    case TakeFrame(c) => c in s.conns && s.conns[c].taken < |s.conns[c].sent|
    case Close(c) => c in s.conns
    case Remove(c) => c in s.conns && s.conns[c].closed
    case Retire => true
    case SetStatus => s.exit.Waiting?
    case StopWaiting => s.exit.StatusSet?
    case BeginExit => s.exit.ReaderAwaited? && !s.retired
    case OfferExit(c, queued) => s.exit.Announcing? && CanOffer(s.exit.cast, s.conns, c, queued)
    case DropSlowExit(c) => s.exit.Announcing? && s.exit.cast.todo == {} && c in s.exit.cast.slow && c in s.conns
    case EndExit => s.exit.Announcing? && s.exit.cast == Cast({}, {})
  }

  function Apply(s: State, a: Action): State
    requires Enabled(s, a)
  {
    match a
    case CheckRetired => s.(reader := Checked)
    case AppendText(data) => s.(journal := s.journal + [data], reader := Appended)
    case BeginPublish => s.(reader := Publishing(Cast(s.clients, {})))
    case Offer(c, queued) =>
      s.(reader := Publishing(Offered(s.reader.cast, s.conns, c, queued)),
         conns := if queued && |s.journal| > 0
                  then Queue(s.conns, c, DataFrame(Chunk(|s.journal|, s.journal[|s.journal| - 1])))
                  else s.conns)
    case DropSlow(c) =>
      s.(reader := Publishing(Cast({}, s.reader.cast.slow - {c})),
         conns := s.conns[c := s.conns[c].(closed := true)], clients := s.clients - {c})
    case EndPublish => s.(reader := Idle)
    case FinishReading => s.(reader := ReaderDone)
    case Connect(c) => s.(conns := s.conns[c := Conn(false, false, 0, [], 0, None)], clients := s.clients + {c})
    case Authenticate(c) =>
      if s.conns[c].authed then s
      else s.(conns := s.conns[c := s.conns[c].(authed := true, since := |s.journal|)])
    case AttachRead(c, after) =>
      s.(conns := s.conns[c := s.conns[c].(
           answer := Some(ReplyFrame(after, |s.journal|, Newer(WindowOf(s.journal), after))))])
    case Respond(c) =>
      var conn := s.conns[c];
      s.(conns := s.conns[c := conn.(sent := conn.sent + [conn.answer.value], answer := None)])
    case FailAnswer(c) =>
      s.(conns := s.conns[c := s.conns[c].(sent := s.conns[c].sent + [OtherFrame], answer := None)])
    case GiveUpAnswer(c) => s.(conns := s.conns[c := s.conns[c].(answer := None)])
    case QueueOther(c) => s.(conns := Queue(s.conns, c, OtherFrame))
    case TakeFrame(c) => s.(conns := s.conns[c := s.conns[c].(taken := s.conns[c].taken + 1)])
    case Close(c) => s.(conns := s.conns[c := s.conns[c].(closed := true)])
    case Remove(c) => s.(clients := s.clients - {c})
    case Retire => s.(retired := true)
    case SetStatus => s.(exit := StatusSet)
    case StopWaiting => s.(exit := ReaderAwaited(s.reader.ReaderDone?))
    case BeginExit => s.(exit := Announcing(s.exit.clean, Cast(s.clients, {})))
    case OfferExit(c, queued) =>
      s.(exit := Announcing(s.exit.clean, Offered(s.exit.cast, s.conns, c, queued)),
         conns := if queued then Queue(s.conns, c, ExitFrame) else s.conns)
    case DropSlowExit(c) =>
      s.(exit := Announcing(s.exit.clean, Cast({}, s.exit.cast.slow - {c})),
         conns := s.conns[c := s.conns[c].(closed := true)], clients := s.clients - {c})
    case EndExit => s.(exit := Finished(s.exit.clean))
  }

  /** A step that cannot be taken does nothing, so every sequence of actions is a run. */
  function Next(s: State, a: Action): State {
    if Enabled(s, a) then Apply(s, a) else s
  }

  function Run(s: State, actions: seq<Action>): State
    decreases |actions|
  {
    if actions == [] then s else Run(Next(s, actions[0]), actions[1..])
  }

  // ---- What a connection has been sent -----------------------------------------------------------------

  /** The chunks of the Data events numbered above `since`, in the order they were queued. */
  function DataAfter(sent: seq<Frame>, since: nat): seq<Chunk> {
    if sent == [] then []
    else
      var last := sent[|sent| - 1];
      DataAfter(sent[..|sent| - 1], since) + (if last.DataFrame? && last.chunk.number > since then [last.chunk] else [])
  }

  /** Entries a + 1 to b of the journal. */
  function Slice(journal: seq<Text>, a: nat, b: nat): seq<Chunk>
    requires b <= |journal|
  {
    if b <= a then [] else Slice(journal, a, b - 1) + [Chunk(b, journal[b - 1])]
  }

  /** How far the publishing of the journal has passed a connection. */
  function Passed(s: State, c: Id): nat {
    if |s.journal| > 0 && (s.reader.Appended? || (s.reader.Publishing? && c in s.reader.cast.todo + s.reader.cast.slow))
    then |s.journal| - 1 else |s.journal|
  }

  /** The answer to an attach: the part of the window above `after`, when the journal had `upTo` entries. */
  predicate IsAnswer(journal: seq<Text>, since: nat, f: Frame) {
    f.ReplyFrame? ==>
      since <= f.upTo <= |journal| && f.chunks == Newer(WindowOf(journal[..f.upTo]), f.after)
  }

  predicate IsEntry(journal: seq<Text>, bound: nat, f: Frame)
    requires bound <= |journal|
  {
    f.DataFrame? ==> 1 <= f.chunk.number <= bound && f.chunk.data == journal[f.chunk.number - 1]
  }

  /** All events in a queue are entries of the journal, each at most once and in order. */
  ghost predicate Ascends(journal: seq<Text>, bound: nat, sent: seq<Frame>)
    requires bound <= |journal|
  {
    && (forall i | 0 <= i < |sent| :: IsEntry(journal, bound, sent[i]))
    && (forall i, j | 0 <= i < j < |sent| && sent[i].DataFrame? && sent[j].DataFrame? ::
          sent[i].chunk.number < sent[j].chunk.number)
  }

  /** Whether broadcasts still reach a connection: it is in the list, or in the copy of a broadcast. */
  predicate Reached(s: State, c: Id) {
    c in s.clients || (s.reader.Publishing? && c in s.reader.cast.todo + s.reader.cast.slow)
  }

  /** These are the entries that follow number a, without a gap. */
  predicate IsRun(journal: seq<Text>, a: nat, cs: seq<Chunk>) {
    a + |cs| <= |journal| && cs == Slice(journal, a, a + |cs|)
  }

  /** From its authentication on, a connection has been sent a run of entries; if broadcasts still
      reach it, the run goes as far as publishing has passed it. */
  ghost predicate ConnOk(journal: seq<Text>, passed: nat, reached: bool, conn: Conn) {
    && passed <= |journal| && conn.since <= |journal|
    && Ascends(journal, passed, conn.sent)
    && (conn.authed ==> IsRun(journal, conn.since, DataAfter(conn.sent, conn.since)))
    && (conn.authed && reached ==> DataAfter(conn.sent, conn.since) == Slice(journal, conn.since, passed))
    && (forall f | f in conn.sent :: IsAnswer(journal, conn.since, f))
    && (conn.answer.Some? ==> conn.answer.value.ReplyFrame? && IsAnswer(journal, conn.since, conn.answer.value))
    && (!conn.authed ==> conn.answer.None? && forall f | f in conn.sent :: f.OtherFrame?)
  }

  predicate ReaderOk(s: State) {
    && (s.reader.Appended? || s.reader.Publishing? ==> |s.journal| > 0)
    && (s.reader.Publishing? ==> s.reader.cast.todo !! s.reader.cast.slow)
    && (forall d | d in s.journal :: |d| <= LONGEST_APPEND)
  }

  ghost predicate Inv(s: State) {
    && ReaderOk(s)
    && (forall c | c in s.conns :: ConnOk(s.journal, Passed(s, c), Reached(s, c), s.conns[c]))
    && (forall c | c in s.conns && !s.conns[c].closed :: c in s.clients)
  }

  lemma {:induction false} SliceOfLonger(journal: seq<Text>, data: Text, a: nat, b: nat)
    requires b <= |journal|
    ensures Slice(journal + [data], a, b) == Slice(journal, a, b)
    decreases b
  {
    if b > a {
      SliceOfLonger(journal, data, a, b - 1);
    }
  }

  lemma SentSnoc(sent: seq<Frame>, f: Frame, since: nat)
    ensures DataAfter(sent + [f], since)
         == DataAfter(sent, since) + (if f.DataFrame? && f.chunk.number > since then [f.chunk] else [])
  {
    assert (sent + [f])[..|sent|] == sent;
  }

  lemma {:induction false} NothingAfter(sent: seq<Frame>, since: nat)
    requires forall f | f in sent && f.DataFrame? :: f.chunk.number <= since
    ensures DataAfter(sent, since) == []
  {
    if sent != [] {
      NothingAfter(sent[..|sent| - 1], since);
    }
  }

  lemma {:induction false} SliceLength(journal: seq<Text>, a: nat, b: nat)
    requires b <= |journal|
    ensures |Slice(journal, a, b)| == if a < b then b - a else 0
    decreases b
  {
    if a < b {
      SliceLength(journal, a, b - 1);
    }
  }

  lemma SliceIsRun(journal: seq<Text>, a: nat, b: nat)
    requires a <= |journal| && b <= |journal|
    ensures IsRun(journal, a, Slice(journal, a, b))
  {
    SliceLength(journal, a, b);
  }

  lemma ConnOkLonger(journal: seq<Text>, data: Text, passed: nat, reached: bool, conn: Conn)
    requires ConnOk(journal, passed, reached, conn)
    ensures ConnOk(journal + [data], passed, reached, conn)
  {
    var run := DataAfter(conn.sent, conn.since);
    SliceOfLonger(journal, data, conn.since, passed);
    if conn.authed {
      SliceOfLonger(journal, data, conn.since, conn.since + |run|);
    }
    var longer := journal + [data];
    forall f: Frame | IsAnswer(journal, conn.since, f) ensures IsAnswer(longer, conn.since, f) {
      if f.ReplyFrame? {
        assert longer[..f.upTo] == journal[..f.upTo];
      }
    }
  }

  /** Publishing may pass a connection that gets nothing, if nothing reaches it or it has not
      authenticated. */
  lemma ConnOkPassed(journal: seq<Text>, passed: nat, reached: bool, conn: Conn, still: bool)
    requires ConnOk(journal, passed, reached, conn) && passed < |journal| && (!still || !conn.authed)
    ensures ConnOk(journal, passed + 1, still, conn)
  {
  }

  lemma AscendsMore(journal: seq<Text>, sent: seq<Frame>)
    requires |journal| > 0 && Ascends(journal, |journal| - 1, sent)
    ensures Ascends(journal, |journal|, sent + [DataFrame(Chunk(|journal|, journal[|journal| - 1]))])
  {
    var more := sent + [DataFrame(Chunk(|journal|, journal[|journal| - 1]))];
    forall i | 0 <= i < |more| ensures IsEntry(journal, |journal|, more[i]) {
      if i < |sent| {
        assert IsEntry(journal, |journal| - 1, sent[i]);
      }
    }
  }

  lemma ConnOkData(journal: seq<Text>, conn: Conn, still: bool)
    requires |journal| > 0 && ConnOk(journal, |journal| - 1, true, conn) && conn.authed
    ensures var f := DataFrame(Chunk(|journal|, journal[|journal| - 1]));
            ConnOk(journal, |journal|, still, conn.(sent := conn.sent + [f]))
  {
    var f := DataFrame(Chunk(|journal|, journal[|journal| - 1]));
    AscendsMore(journal, conn.sent);
    SentSnoc(conn.sent, f, conn.since);
    SliceIsRun(journal, conn.since, |journal|);
    assert DataAfter(conn.sent + [f], conn.since) == Slice(journal, conn.since, |journal|);
  }

  lemma ConnOkFrame(journal: seq<Text>, passed: nat, reached: bool, conn: Conn, f: Frame)
    requires ConnOk(journal, passed, reached, conn) && !f.DataFrame? && IsAnswer(journal, conn.since, f)
    requires conn.authed || f.OtherFrame?
    ensures ConnOk(journal, passed, reached, conn.(sent := conn.sent + [f]))
  {
    SentSnoc(conn.sent, f, conn.since);
  }

  lemma ConnOkAuthenticated(journal: seq<Text>, passed: nat, reached: bool, conn: Conn)
    requires ConnOk(journal, passed, reached, conn) && !conn.authed
    ensures ConnOk(journal, passed, reached, conn.(authed := true, since := |journal|))
  {
    NothingAfter(conn.sent, |journal|);
  }

  /** Only connection c has changed, and publishing has passed the others no further. */
  lemma OnlyOneChanged(s: State, t: State, c: Id)
    requires Inv(s) && t.journal == s.journal && ReaderOk(t)
    requires c in t.conns && t.conns == s.conns[c := t.conns[c]]
    requires ConnOk(t.journal, Passed(t, c), Reached(t, c), t.conns[c])
    requires forall d | d in s.conns && d != c :: Passed(t, d) == Passed(s, d) && (Reached(t, d) ==> Reached(s, d))
    requires s.clients - {c} <= t.clients && (!t.conns[c].closed ==> c in t.clients)
    ensures Inv(t)
  {
  }

  lemma AppendKeepsInv(s: State, data: Text)
    requires Inv(s) && Enabled(s, AppendText(data))
    ensures Inv(Apply(s, AppendText(data)))
  {
    var t := Apply(s, AppendText(data));
    forall c | c in s.conns ensures ConnOk(t.journal, Passed(t, c), Reached(t, c), t.conns[c]) {
      ConnOkLonger(s.journal, data, Passed(s, c), Reached(s, c), s.conns[c]);
    }
  }

  lemma ReaderKeepsInv(s: State, a: Action)
    requires Inv(s) && Enabled(s, a)
    requires a.CheckRetired? || a.BeginPublish? || a.EndPublish? || a.FinishReading?
    ensures Inv(Apply(s, a))
  {
    var t := Apply(s, a);
    forall c | c in s.conns ensures ConnOk(t.journal, Passed(t, c), Reached(t, c), t.conns[c]) {
      if a.BeginPublish? && c !in s.clients {
        ConnOkPassed(s.journal, Passed(s, c), Reached(s, c), s.conns[c], false);
      }
    }
  }

  lemma OfferQueuedKeepsInv(s: State, c: Id)
    requires Inv(s) && Enabled(s, Offer(c, true))
    ensures Inv(Apply(s, Offer(c, true)))
  {
    var t := Apply(s, Offer(c, true));
    assert ConnOk(s.journal, |s.journal| - 1, true, s.conns[c]);
    ConnOkData(s.journal, s.conns[c], Reached(t, c));
    assert Passed(t, c) == |s.journal|;
    OnlyOneChanged(s, t, c);
  }

  lemma OfferSkippedKeepsInv(s: State, c: Id)
    requires Inv(s) && Enabled(s, Offer(c, false))
    ensures Inv(Apply(s, Offer(c, false)))
  {
    var t := Apply(s, Offer(c, false));
    assert ConnOk(s.journal, |s.journal| - 1, true, s.conns[c]);
    if !s.conns[c].authed {
      ConnOkPassed(s.journal, |s.journal| - 1, true, s.conns[c], Reached(t, c));
    }
    OnlyOneChanged(s, t, c);
  }

  lemma DropKeepsInv(s: State, a: Action)
    requires Inv(s) && Enabled(s, a) && (a.DropSlow? || a.DropSlowExit?)
    ensures Inv(Apply(s, a))
  {
    if a.DropSlow? {
      ConnOkPassed(s.journal, Passed(s, a.c), Reached(s, a.c), s.conns[a.c].(closed := true), false);
    }
    OnlyOneChanged(s, Apply(s, a), a.c);
  }

  /** What a connection has been sent does not depend on what has been taken, or on its end. */
  lemma ConnOkSent(journal: seq<Text>, passed: nat, reached: bool, conn: Conn, taken: nat, closed: bool)
    requires ConnOk(journal, passed, reached, conn)
    ensures ConnOk(journal, passed, reached, conn.(taken := taken, closed := closed))
    ensures ConnOk(journal, passed, reached, conn.(answer := None))
  {
  }

  lemma ConnStep(s: State, c: Id, conn: Conn)
    requires Inv(s) && c in s.conns && (s.conns[c].closed ==> conn.closed)
    requires ConnOk(s.journal, Passed(s, c), Reached(s, c), conn)
    ensures Inv(s.(conns := s.conns[c := conn]))
  {
    OnlyOneChanged(s, s.(conns := s.conns[c := conn]), c);
  }

  lemma RespondKeepsInv(s: State, c: Id)
    requires Inv(s) && Enabled(s, Respond(c))
    ensures Inv(Apply(s, Respond(c)))
  {
    var conn := s.conns[c];
    var sent := conn.sent + [conn.answer.value];
    ConnOkFrame(s.journal, Passed(s, c), Reached(s, c), conn, conn.answer.value);
    ConnStep(s, c, conn.(sent := sent, answer := None));
  }

  lemma FailKeepsInv(s: State, c: Id)
    requires Inv(s) && Enabled(s, FailAnswer(c))
    ensures Inv(Apply(s, FailAnswer(c)))
  {
    ConnOkFrame(s.journal, Passed(s, c), Reached(s, c), s.conns[c], OtherFrame);
    ConnStep(s, c, s.conns[c].(sent := s.conns[c].sent + [OtherFrame], answer := None));
  }

  lemma OtherKeepsInv(s: State, c: Id)
    requires Inv(s) && Enabled(s, QueueOther(c))
    ensures Inv(Apply(s, QueueOther(c)))
  {
    ConnOkFrame(s.journal, Passed(s, c), Reached(s, c), s.conns[c], OtherFrame);
    ConnStep(s, c, s.conns[c].(sent := s.conns[c].sent + [OtherFrame]));
  }

  lemma ExitFieldKeepsInv(s: State, exit: Exit)
    requires Inv(s)
    ensures Inv(s.(exit := exit))
  {
    var t := s.(exit := exit);
    assert forall c | c in s.conns :: Passed(t, c) == Passed(s, c) && Reached(t, c) == Reached(s, c);
  }

  lemma OfferExitKeepsInv(s: State, c: Id, queued: bool)
    requires Inv(s) && Enabled(s, OfferExit(c, queued))
    ensures Inv(Apply(s, OfferExit(c, queued)))
  {
    var exit := Apply(s, OfferExit(c, queued)).exit;
    if queued {
      var conn := s.conns[c].(sent := s.conns[c].sent + [ExitFrame]);
      ConnOkFrame(s.journal, Passed(s, c), Reached(s, c), s.conns[c], ExitFrame);
      ConnStep(s, c, conn);
      ExitFieldKeepsInv(s.(conns := s.conns[c := conn]), exit);
    } else {
      ExitFieldKeepsInv(s, exit);
    }
  }

  lemma AuthenticateKeepsInv(s: State, c: Id)
    requires Inv(s) && Enabled(s, Authenticate(c))
    ensures Inv(Apply(s, Authenticate(c)))
  {
    if !s.conns[c].authed {
      ConnOkAuthenticated(s.journal, Passed(s, c), Reached(s, c), s.conns[c]);
      ConnStep(s, c, s.conns[c].(authed := true, since := |s.journal|));
    }
  }

  lemma AttachKeepsInv(s: State, c: Id, after: nat)
    requires Inv(s) && Enabled(s, AttachRead(c, after))
    ensures Inv(Apply(s, AttachRead(c, after)))
  {
    assert s.journal[..|s.journal|] == s.journal;
    var answer := ReplyFrame(after, |s.journal|, Newer(WindowOf(s.journal), after));
    ConnStep(s, c, s.conns[c].(answer := Some(answer)));
  }

  lemma GiveUpKeepsInv(s: State, c: Id)
    requires Inv(s) && Enabled(s, GiveUpAnswer(c))
    ensures Inv(Apply(s, GiveUpAnswer(c)))
  {
    ConnOkSent(s.journal, Passed(s, c), Reached(s, c), s.conns[c], 0, true);
    ConnStep(s, c, s.conns[c].(answer := None));
  }

  lemma TakeKeepsInv(s: State, c: Id)
    requires Inv(s) && Enabled(s, TakeFrame(c))
    ensures Inv(Apply(s, TakeFrame(c)))
  {
    var conn := s.conns[c];
    ConnOkSent(s.journal, Passed(s, c), Reached(s, c), conn, conn.taken + 1, conn.closed);
    ConnStep(s, c, conn.(taken := conn.taken + 1));
    assert Apply(s, TakeFrame(c)) == s.(conns := s.conns[c := conn.(taken := conn.taken + 1)]);
  }

  lemma CloseKeepsInv(s: State, c: Id)
    requires Inv(s) && Enabled(s, Close(c))
    ensures Inv(Apply(s, Close(c)))
  {
    ConnOkSent(s.journal, Passed(s, c), Reached(s, c), s.conns[c], s.conns[c].taken, true);
    ConnStep(s, c, s.conns[c].(closed := true));
  }

  lemma ConnectKeepsInv(s: State, c: Id)
    requires Inv(s) && Enabled(s, Connect(c))
    ensures Inv(Apply(s, Connect(c)))
  {
    OnlyOneChanged(s, Apply(s, Connect(c)), c);
  }

  lemma RemoveKeepsInv(s: State, c: Id)
    requires Inv(s) && Enabled(s, Remove(c))
    ensures Inv(Apply(s, Remove(c)))
  {
    var t := Apply(s, Remove(c));
    forall d | d in s.conns ensures ConnOk(t.journal, Passed(t, d), Reached(t, d), t.conns[d]) {
      assert Passed(t, d) == Passed(s, d);
      if d == c {
        ConnOkPassedBy(s.journal, Passed(s, c), Reached(s, c), s.conns[c]);
      } else {
        assert Reached(t, d) == Reached(s, d);
      }
    }
  }

  lemma ConnOkPassedBy(journal: seq<Text>, passed: nat, reached: bool, conn: Conn)
    requires ConnOk(journal, passed, reached, conn)
    ensures ConnOk(journal, passed, false, conn)
  {
  }

  lemma RetireKeepsInv(s: State)
    requires Inv(s)
    ensures Inv(s.(retired := true))
  {
    var t := s.(retired := true);
    assert forall c | c in s.conns :: Passed(t, c) == Passed(s, c) && Reached(t, c) == Reached(s, c);
  }

  lemma NoConnKeepsInv(s: State, a: Action)
    requires Inv(s) && Enabled(s, a)
    requires a.Retire? || a.SetStatus? || a.StopWaiting? || a.BeginExit? || a.EndExit? || a.Remove?
    ensures Inv(Apply(s, a))
  {
    if a.Retire? {
      RetireKeepsInv(s);
    } else if a.Remove? {
      RemoveKeepsInv(s, a.c);
    } else {
      ExitFieldKeepsInv(s, Apply(s, a).exit);
    }
  }

  lemma ConnActionKeepsInv(s: State, a: Action)
    requires Inv(s) && Enabled(s, a)
    requires a.Connect? || a.Authenticate? || a.AttachRead? || a.Respond? || a.FailAnswer? || a.GiveUpAnswer?
          || a.QueueOther? || a.TakeFrame? || a.Close?
    ensures Inv(Apply(s, a))
  {
    match a
    case Connect(c) => ConnectKeepsInv(s, c);
    case Respond(c) => RespondKeepsInv(s, c);
    case FailAnswer(c) => FailKeepsInv(s, c);
    case QueueOther(c) => OtherKeepsInv(s, c);
    case Authenticate(c) => AuthenticateKeepsInv(s, c);
    case AttachRead(c, after) => AttachKeepsInv(s, c, after);
    case GiveUpAnswer(c) => GiveUpKeepsInv(s, c);
    case TakeFrame(c) => TakeKeepsInv(s, c);
    case Close(c) => CloseKeepsInv(s, c);
  }

  lemma CastActionKeepsInv(s: State, a: Action)
    requires Inv(s) && Enabled(s, a)
    requires a.Offer? || a.OfferExit? || a.DropSlow? || a.DropSlowExit?
    ensures Inv(Apply(s, a))
  {
    if a.OfferExit? {
      OfferExitKeepsInv(s, a.c, a.queued);
    } else if a.Offer? && a.queued {
      OfferQueuedKeepsInv(s, a.c);
    } else if a.Offer? {
      OfferSkippedKeepsInv(s, a.c);
    } else {
      DropKeepsInv(s, a);
    }
  }

  lemma NextKeepsInv(s: State, a: Action)
    requires Inv(s)
    ensures Inv(Next(s, a))
  {
    if Enabled(s, a) {
      if a.Offer? || a.OfferExit? || a.DropSlow? || a.DropSlowExit? {
        CastActionKeepsInv(s, a);
      } else if a.AppendText? {
        AppendKeepsInv(s, a.data);
      } else if a.CheckRetired? || a.BeginPublish? || a.EndPublish? || a.FinishReading? {
        ReaderKeepsInv(s, a);
      } else if a.Retire? || a.SetStatus? || a.StopWaiting? || a.BeginExit? || a.EndExit? || a.Remove? {
        NoConnKeepsInv(s, a);
      } else {
        ConnActionKeepsInv(s, a);
      }
    }
  }

  lemma {:induction false} RunKeepsInv(s: State, actions: seq<Action>)
    requires Inv(s)
    ensures Inv(Run(s, actions))
    decreases |actions|
  {
    if actions != [] {
      NextKeepsInv(s, actions[0]);
      RunKeepsInv(Next(s, actions[0]), actions[1..]);
    }
  }

  // ---- No gap ----------------------------------------------------------------------------------------------

  function Max(a: nat, b: nat): nat {
    if a < b then b else a
  }

  lemma {:induction false} NewerConcat(a: seq<Chunk>, b: seq<Chunk>, after: nat)
    ensures Newer(a + b, after) == Newer(a, after) + Newer(b, after)
  {
    if a == [] {
      assert a + b == b;
    } else {
      assert (a + b)[1..] == a[1..] + b;
      NewerConcat(a[1..], b, after);
    }
  }

  lemma {:induction false} NewerOfSlice(journal: seq<Text>, a: nat, b: nat, after: nat)
    requires b <= |journal|
    ensures Newer(Slice(journal, a, b), after) == Slice(journal, Max(a, after), b)
    decreases b
  {
    if b > a {
      NewerOfSlice(journal, a, b - 1, after);
      var last := [Chunk(b, journal[b - 1])];
      NewerConcat(Slice(journal, a, b - 1), last, after);
      assert last[1..] == [];
    }
  }

  lemma {:induction false} DataAfterLater(sent: seq<Frame>, since: nat, later: nat)
    requires since <= later
    ensures DataAfter(sent, later) == Newer(DataAfter(sent, since), later)
  {
    if sent != [] {
      var front, f := sent[..|sent| - 1], sent[|sent| - 1];
      DataAfterLater(front, since, later);
      var here := if f.DataFrame? && f.chunk.number > since then [f.chunk] else [];
      NewerConcat(DataAfter(front, since), here, later);
      assert here != [] ==> here[1..] == [];
    }
  }

  lemma {:induction false} SliceConcat(journal: seq<Text>, a: nat, b: nat, c: nat)
    requires a <= b && c <= |journal| && b <= |journal|
    ensures Slice(journal, a, b) + Slice(journal, b, c) == Slice(journal, a, Max(b, c))
    decreases c
  {
    if c > b {
      SliceConcat(journal, a, b, c - 1);
    }
  }

  lemma {:induction false} SliceAt(journal: seq<Text>, a: nat, b: nat, i: nat)
    requires a <= b <= |journal| && i < b - a
    ensures |Slice(journal, a, b)| == b - a && Slice(journal, a, b)[i] == Chunk(a + i + 1, journal[a + i])
    decreases b
  {
    SliceLength(journal, a, b - 1);
    if i < b - 1 - a {
      SliceAt(journal, a, b - 1, i);
    }
  }

  /** How many entries the window no longer has. */
  function Dropped(journal: seq<Text>): nat {
    |journal| - |WindowOf(journal)|
  }

  lemma StoredEntry(journal: seq<Text>, i: nat)
    requires i < |journal| && |journal[i]| <= LONGEST_APPEND
    ensures var all := StoredAll(Numbered(0, journal), PTY_OUTPUT_MAX_CHARS);
            |all| == |journal| && all[i] == Chunk(i + 1, journal[i])
  {
    NumberedAt(0, journal, i);
  }

  lemma SuffixIsSlice(journal: seq<Text>, all: seq<Chunk>, k: nat)
    requires k <= |journal| == |all| && forall i | 0 <= i < |journal| :: all[i] == Chunk(i + 1, journal[i])
    ensures all[k..] == Slice(journal, k, |journal|)
  {
    SliceLength(journal, k, |journal|);
    forall i: nat | i < |journal| - k ensures all[k..][i] == Slice(journal, k, |journal|)[i] {
      SliceAt(journal, k, |journal|, i);
    }
  }

  /** The window is a run of the newest entries, whole. */
  lemma WindowIsSlice(journal: seq<Text>)
    requires forall d | d in journal :: |d| <= LONGEST_APPEND
    ensures Dropped(journal) <= |journal| && WindowOf(journal) == Slice(journal, Dropped(journal), |journal|)
  {
    var all := StoredAll(Numbered(0, journal), PTY_OUTPUT_MAX_CHARS);
    FitIsLongest(all, Chars, PTY_OUTPUT_MAX_CHARS);
    forall i: nat | i < |journal| ensures all[i] == Chunk(i + 1, journal[i]) {
      assert journal[i] in journal;
      StoredEntry(journal, i);
    }
    SuffixIsSlice(journal, all, Dropped(journal));
  }

  /** Where an answer starts: after `after`, or where the window started if it had moved on. */
  function StartOf(journal: seq<Text>, f: Frame): nat
    requires f.ReplyFrame? && f.upTo <= |journal|
  {
    Max(Dropped(journal[..f.upTo]), f.after)
  }

  /** What an answer brings: everything above `after` that the window still had. */
  lemma AnswerIsSlice(journal: seq<Text>, since: nat, f: Frame)
    requires IsAnswer(journal, since, f) && f.ReplyFrame? && forall d | d in journal :: |d| <= LONGEST_APPEND
    ensures f.chunks == Slice(journal, StartOf(journal, f), f.upTo)
    ensures f.after <= f.upTo ==> StartOf(journal, f) <= f.upTo
  {
    var before := journal[..f.upTo];
    WindowIsSlice(before);
    NewerOfSlice(before, Dropped(before), f.upTo, f.after);
    SliceOfPrefix(journal, f.upTo, Max(Dropped(before), f.after), f.upTo);
  }

  lemma {:induction false} SliceOfPrefix(journal: seq<Text>, n: nat, a: nat, b: nat)
    requires b <= n <= |journal|
    ensures Slice(journal[..n], a, b) == Slice(journal, a, b)
    decreases b
  {
    if b > a {
      SliceOfPrefix(journal, n, a, b - 1);
    }
  }

  lemma {:induction false} DataOfPrefix(sent: seq<Frame>, t: nat, since: nat)
    requires t <= |sent|
    ensures DataAfter(sent[..t], since) <= DataAfter(sent, since)
    decreases |sent|
  {
    if t == |sent| {
      assert sent[..t] == sent;
    } else {
      var front := sent[..|sent| - 1];
      assert front[..t] == sent[..t];
      DataOfPrefix(front, t, since);
    }
  }

  lemma {:induction false} SlicePrefix(journal: seq<Text>, a: nat, b: nat, cs: seq<Chunk>)
    requires a <= b <= |journal| && cs <= Slice(journal, a, b)
    ensures a + |cs| <= b && cs == Slice(journal, a, a + |cs|)
    decreases b
  {
    SliceLength(journal, a, b);
    if |cs| < b - a {
      SliceLength(journal, a, b - 1);
      SlicePrefix(journal, a, b - 1, cs);
    }
  }

  /** The events above `upTo` in a run that starts no later. */
  lemma RunAbove(journal: seq<Text>, since: nat, run: seq<Chunk>, upTo: nat)
    requires IsRun(journal, since, run) && since <= upTo <= |journal|
    ensures var got := Newer(run, upTo);
            IsRun(journal, upTo, got) && upTo + |got| == Max(upTo, since + |run|)
  {
    var m := since + |run|;
    NewerOfSlice(journal, since, m, upTo);
    assert Newer(run, upTo) == Slice(journal, upTo, m);
    SliceIsRun(journal, upTo, m);
    SliceLength(journal, upTo, m);
  }

  /** A connection has been sent this answer, or is about to be. */
  predicate Answered(s: State, c: Id, f: Frame) {
    c in s.conns && s.conns[c].authed && (f in s.conns[c].sent || s.conns[c].answer == Some(f)) && f.ReplyFrame?
  }

  /** What a client has after it has read t frames from this connection, the answer taken first. */
  function Got(s: State, c: Id, f: Frame, t: nat): seq<Chunk>
    requires Answered(s, c, f) && t <= |s.conns[c].sent|
  {
    f.chunks + DataAfter(s.conns[c].sent[..t], f.upTo)
  }

  function GotUpTo(s: State, c: Id, f: Frame, t: nat): nat
    requires Answered(s, c, f) && t <= |s.conns[c].sent|
  {
    f.upTo + |DataAfter(s.conns[c].sent[..t], f.upTo)|
  }

  lemma PrefixIsARun(journal: seq<Text>, passed: nat, reached: bool, conn: Conn, t: nat)
    requires ConnOk(journal, passed, reached, conn) && conn.authed && t <= |conn.sent|
    ensures IsRun(journal, conn.since, DataAfter(conn.sent[..t], conn.since))
  {
    var all, run := DataAfter(conn.sent, conn.since), DataAfter(conn.sent[..t], conn.since);
    DataOfPrefix(conn.sent, t, conn.since);
    SlicePrefix(journal, conn.since, conn.since + |all|, run);
  }

  lemma EventsAreARun(journal: seq<Text>, passed: nat, reached: bool, conn: Conn, upTo: nat, t: nat)
    requires ConnOk(journal, passed, reached, conn) && conn.authed
    requires conn.since <= upTo <= |journal| && t <= |conn.sent|
    ensures var run := DataAfter(conn.sent[..t], conn.since); var later := DataAfter(conn.sent[..t], upTo);
            IsRun(journal, upTo, later) && upTo + |later| == Max(upTo, conn.since + |run|)
  {
    var run := DataAfter(conn.sent[..t], conn.since);
    PrefixIsARun(journal, passed, reached, conn, t);
    LaterIsARun(journal, conn.since, conn.sent[..t], run, upTo);
  }

  lemma LaterIsARun(journal: seq<Text>, since: nat, sent: seq<Frame>, run: seq<Chunk>, upTo: nat)
    requires IsRun(journal, since, run) && run == DataAfter(sent, since) && since <= upTo <= |journal|
    ensures var later := DataAfter(sent, upTo);
            IsRun(journal, upTo, later) && upTo + |later| == Max(upTo, since + |run|)
  {
    DataAfterLater(sent, since, upTo);
    RunAbove(journal, since, run, upTo);
  }

  /** All that has been queued goes as far as publishing has passed the connection. */
  lemma EventsReach(journal: seq<Text>, passed: nat, conn: Conn, upTo: nat)
    requires ConnOk(journal, passed, true, conn) && conn.authed && conn.since <= upTo <= |journal|
    ensures var all := conn.sent[..|conn.sent|];
            upTo + |DataAfter(all, upTo)| == Max(upTo, passed)
  {
    EventsAreARun(journal, passed, true, conn, upTo, |conn.sent|);
    assert conn.sent[..|conn.sent|] == conn.sent;
    SliceLength(journal, conn.since, passed);
  }

  ghost predicate NoGap(s: State, c: Id, f: Frame, t: nat)
    requires Answered(s, c, f) && t <= |s.conns[c].sent|
  {
    && f.upTo <= |s.journal| && StartOf(s.journal, f) <= f.upTo <= GotUpTo(s, c, f, t) <= |s.journal|
    && Got(s, c, f, t) == Slice(s.journal, StartOf(s.journal, f), GotUpTo(s, c, f, t))
    && (t == |s.conns[c].sent| && !s.conns[c].closed ==> GotUpTo(s, c, f, t) == Max(f.upTo, Passed(s, c)))
  }

  /** What the invariant says about an answer and the events after it. */
  lemma AnswerAndEvents(s: State, c: Id, f: Frame, t: nat)
    requires Inv(s) && Answered(s, c, f) && t <= |s.conns[c].sent|
    ensures f.upTo <= |s.journal| && IsRun(s.journal, f.upTo, DataAfter(s.conns[c].sent[..t], f.upTo))
    ensures f.chunks == Slice(s.journal, StartOf(s.journal, f), f.upTo)
    ensures f.after <= f.upTo ==> StartOf(s.journal, f) <= f.upTo
    ensures t == |s.conns[c].sent| && !s.conns[c].closed ==> GotUpTo(s, c, f, t) == Max(f.upTo, Passed(s, c))
  {
    assert ConnOk(s.journal, Passed(s, c), Reached(s, c), s.conns[c]);
    AnswerIsSlice(s.journal, s.conns[c].since, f);
    EventsAreARun(s.journal, Passed(s, c), Reached(s, c), s.conns[c], f.upTo, t);
    if t == |s.conns[c].sent| && Reached(s, c) {
      EventsReach(s.journal, Passed(s, c), s.conns[c], f.upTo);
    }
  }

  lemma PartsJoin(journal: seq<Text>, start: nat, upTo: nat, got: seq<Chunk>)
    requires start <= upTo && IsRun(journal, upTo, got)
    ensures upTo <= |journal| && Slice(journal, start, upTo) + got == Slice(journal, start, upTo + |got|)
  {
    SliceConcat(journal, start, upTo, upTo + |got|);
  }

  lemma AnswerAndEventsJoin(s: State, c: Id, f: Frame, t: nat)
    requires Answered(s, c, f) && t <= |s.conns[c].sent| && f.upTo <= |s.journal|
    requires IsRun(s.journal, f.upTo, DataAfter(s.conns[c].sent[..t], f.upTo))
    requires f.chunks == Slice(s.journal, StartOf(s.journal, f), f.upTo) && StartOf(s.journal, f) <= f.upTo
    requires t == |s.conns[c].sent| && !s.conns[c].closed ==> GotUpTo(s, c, f, t) == Max(f.upTo, Passed(s, c))
    ensures NoGap(s, c, f, t)
  {
    PartsJoin(s.journal, StartOf(s.journal, f), f.upTo, DataAfter(s.conns[c].sent[..t], f.upTo));
  }

  /** Whatever part of its queue a client has read, and even if the connection was closed meanwhile: the
      answer and the events beyond it are the journal without a gap, from `after`, or from where the
      window started if it had moved on, as far as they go.  On a connection that is still open, all that
      has been queued goes as far as publishing has passed the connection. */
  lemma NoGapAfterAttach(actions: seq<Action>, c: Id, f: Frame, t: nat)
    requires var s := Run(START, actions);
             Answered(s, c, f) && t <= |s.conns[c].sent| && f.after <= f.upTo
    ensures NoGap(Run(START, actions), c, f, t)
  {
    RunKeepsInv(START, actions);
    AnswerAndEvents(Run(START, actions), c, f, t);
    AnswerAndEventsJoin(Run(START, actions), c, f, t);
  }

  /** A client that loses a connection after it has read t frames, and attaches on another from where it
      got to, has missed nothing, as long as the window still reaches back to there. */
  lemma ReconnectMissesNothing(actions: seq<Action>, c: Id, f: Frame, t: nat, d: Id, g: Frame, u: nat)
    requires var s := Run(START, actions);
             && Answered(s, c, f) && t <= |s.conns[c].sent| && f.after <= f.upTo
             && Answered(s, d, g) && u <= |s.conns[d].sent| && g.after == GotUpTo(s, c, f, t) <= g.upTo <= |s.journal|
             && Dropped(s.journal[..g.upTo]) <= g.after
    ensures var s := Run(START, actions);
            && f.upTo <= |s.journal| && GotUpTo(s, d, g, u) <= |s.journal|
            && Got(s, c, f, t) + Got(s, d, g, u) == Slice(s.journal, StartOf(s.journal, f), GotUpTo(s, d, g, u))
  {
    NoGapAfterAttach(actions, c, f, t);
    NoGapAfterAttach(actions, d, g, u);
    var s := Run(START, actions);
    assert StartOf(s.journal, g) == g.after;
    SliceConcat(s.journal, StartOf(s.journal, f), g.after, GotUpTo(s, d, g, u));
  }

  /** Events reach every queue in the order of the journal, and are its entries. */
  lemma EventsAscend(actions: seq<Action>, c: Id)
    requires c in Run(START, actions).conns
    ensures var s := Run(START, actions); Ascends(s.journal, |s.journal|, s.conns[c].sent)
  {
    RunKeepsInv(START, actions);
    var s := Run(START, actions);
    assert ConnOk(s.journal, Passed(s, c), Reached(s, c), s.conns[c]);
  }

  // ---- Exit comes once, and last -----------------------------------------------------------------------

  /** Whether this connection may still be offered the Exit event. */
  predicate ExitToCome(s: State, c: Id) {
    match s.exit
    case Announcing(_, cast) => c in cast.todo
    case Finished(_) => false
    case _ => true
  }

  /** The exit thread has given up on a reader that was not done. */
  predicate TimedOut(s: State) {
    match s.exit
    case ReaderAwaited(clean) => !clean
    case Announcing(clean, _) => !clean
    case Finished(clean) => !clean
    case _ => false
  }

  ghost predicate AtMostOneExit(sent: seq<Frame>) {
    forall i, j | 0 <= i < j < |sent| && sent[i].ExitFrame? :: !sent[j].ExitFrame?
  }

  ghost predicate NoDataAfterExit(sent: seq<Frame>) {
    forall i, j | 0 <= i < j < |sent| && sent[i].ExitFrame? :: !sent[j].DataFrame?
  }

  ghost predicate ExitOk(toCome: bool, timedOut: bool, conn: Conn) {
    && (toCome ==> ExitFrame !in conn.sent)
    && AtMostOneExit(conn.sent)
    && (!timedOut ==> NoDataAfterExit(conn.sent))
    && (conn.answer.Some? ==> conn.answer.value.ReplyFrame?)
  }

  ghost predicate ExitInv(s: State) {
    && (s.exit.ReaderAwaited? || s.exit.Announcing? || s.exit.Finished? ==> TimedOut(s) || s.reader.ReaderDone?)
    && (forall c | c in s.conns :: ExitOk(ExitToCome(s, c), TimedOut(s), s.conns[c]))
  }

  /** Only connection c has changed, and no connection can expect Exit that could not before. */
  lemma ExitOnlyOneChanged(s: State, t: State, c: Id)
    requires ExitInv(s) && c in t.conns && t.conns == s.conns[c := t.conns[c]]
    requires TimedOut(s) ==> TimedOut(t)
    requires t.exit.ReaderAwaited? || t.exit.Announcing? || t.exit.Finished? ==> TimedOut(t) || t.reader.ReaderDone?
    requires forall d | d in s.conns && d != c :: ExitToCome(t, d) ==> ExitToCome(s, d)
    requires ExitOk(ExitToCome(t, c), TimedOut(t), t.conns[c])
    ensures ExitInv(t)
  {
  }

  lemma ExitConnStep(s: State, c: Id, conn: Conn)
    requires ExitInv(s) && c in s.conns && ExitOk(ExitToCome(s, c), TimedOut(s), conn)
    ensures ExitInv(s.(conns := s.conns[c := conn]))
  {
    ExitOnlyOneChanged(s, s.(conns := s.conns[c := conn]), c);
  }

  /** Queueing something else changes nothing; a Data event may be queued while Exit is to come, or
      once there has been a timeout. */
  lemma ExitOkFrame(toCome: bool, timedOut: bool, conn: Conn, f: Frame)
    requires ExitOk(toCome, timedOut, conn) && !f.ExitFrame? && (f.DataFrame? ==> timedOut || ExitFrame !in conn.sent)
    ensures ExitOk(toCome, timedOut, conn.(sent := conn.sent + [f]))
  {
  }

  lemma ExitOkExit(timedOut: bool, conn: Conn)
    requires ExitOk(true, timedOut, conn)
    ensures ExitOk(false, timedOut, conn.(sent := conn.sent + [ExitFrame]))
  {
  }

  lemma ExitAfterConn(s: State, a: Action)
    requires ExitInv(s) && Enabled(s, a)
    requires a.Connect? || a.Authenticate? || a.AttachRead? || a.GiveUpAnswer? || a.TakeFrame? || a.Close?
          || a.DropSlow?
    ensures ExitInv(Apply(s, a))
  {
    ExitOnlyOneChanged(s, Apply(s, a), a.c);
  }

  lemma ExitAfterQueue(s: State, a: Action)
    requires ExitInv(s) && Enabled(s, a) && (a.Respond? || a.FailAnswer? || a.QueueOther?)
    ensures ExitInv(Apply(s, a))
  {
    var conn := s.conns[a.c];
    var f := if a.Respond? then conn.answer.value else OtherFrame;
    ExitOkFrame(ExitToCome(s, a.c), TimedOut(s), conn, f);
    ExitConnStep(s, a.c, conn.(sent := conn.sent + [f], answer := if a.QueueOther? then conn.answer else None));
  }

  /** The reader publishes only while it is not done: before Exit, or after a timeout. */
  lemma ExitAfterOffer(s: State, c: Id, queued: bool)
    requires ExitInv(s) && Enabled(s, Offer(c, queued))
    ensures ExitInv(Apply(s, Offer(c, queued)))
  {
    var t := Apply(s, Offer(c, queued));
    if queued && |s.journal| > 0 {
      ExitOkFrame(ExitToCome(s, c), TimedOut(s), s.conns[c], DataFrame(Chunk(|s.journal|, s.journal[|s.journal| - 1])));
    }
    ExitOnlyOneChanged(s, t, c);
  }

  lemma ExitAfterOfferExit(s: State, c: Id, queued: bool)
    requires ExitInv(s) && Enabled(s, OfferExit(c, queued))
    ensures ExitInv(Apply(s, OfferExit(c, queued)))
  {
    if queued {
      ExitOkExit(TimedOut(s), s.conns[c]);
    }
    ExitOnlyOneChanged(s, Apply(s, OfferExit(c, queued)), c);
  }

  lemma ExitAfterReader(s: State, a: Action)
    requires ExitInv(s) && Enabled(s, a)
    requires a.CheckRetired? || a.AppendText? || a.BeginPublish? || a.EndPublish? || a.FinishReading? || a.Retire?
          || a.Remove?
    ensures ExitInv(Apply(s, a))
  {
    var t := Apply(s, a);
    assert t.conns == s.conns && t.exit == s.exit;
    assert forall c | c in s.conns :: ExitToCome(t, c) == ExitToCome(s, c);
  }

  lemma ExitAfterExit(s: State, a: Action)
    requires ExitInv(s) && Enabled(s, a)
    requires a.SetStatus? || a.StopWaiting? || a.BeginExit? || a.EndExit? || a.DropSlowExit?
    ensures ExitInv(Apply(s, a))
  {
    var t := Apply(s, a);
    forall c | c in s.conns ensures ExitOk(ExitToCome(t, c), TimedOut(t), t.conns[c]) {
      assert ExitOk(ExitToCome(s, c), TimedOut(s), s.conns[c]);
    }
  }

  lemma NextKeepsExitInv(s: State, a: Action)
    requires ExitInv(s)
    ensures ExitInv(Next(s, a))
  {
    if Enabled(s, a) {
      if a.Offer? {
        ExitAfterOffer(s, a.c, a.queued);
      } else if a.OfferExit? {
        ExitAfterOfferExit(s, a.c, a.queued);
      } else if a.Respond? || a.FailAnswer? || a.QueueOther? {
        ExitAfterQueue(s, a);
      } else if a.SetStatus? || a.StopWaiting? || a.BeginExit? || a.EndExit? || a.DropSlowExit? {
        ExitAfterExit(s, a);
      } else if a.CheckRetired? || a.AppendText? || a.BeginPublish? || a.EndPublish? || a.FinishReading? || a.Retire?
             || a.Remove? {
        ExitAfterReader(s, a);
      } else {
        ExitAfterConn(s, a);
      }
    }
  }

  lemma {:induction false} RunKeepsExitInv(s: State, actions: seq<Action>)
    requires ExitInv(s)
    ensures ExitInv(Run(s, actions))
    decreases |actions|
  {
    if actions != [] {
      NextKeepsExitInv(s, actions[0]);
      RunKeepsExitInv(Next(s, actions[0]), actions[1..]);
    }
  }

  /** Every queue gets Exit at most once, and no Data event after it unless the exit thread stopped
      waiting before the reader was done. */
  lemma ExitIsLast(actions: seq<Action>, c: Id)
    requires c in Run(START, actions).conns
    ensures var s := Run(START, actions);
            AtMostOneExit(s.conns[c].sent) && (!TimedOut(s) ==> NoDataAfterExit(s.conns[c].sent))
  {
    RunKeepsExitInv(START, actions);
    var s := Run(START, actions);
    assert ExitOk(ExitToCome(s, c), TimedOut(s), s.conns[c]);
  }

  lemma RunOn(start: State, actions: seq<Action>, s: State, a: Action)
    requires Run(start, actions) == s
    ensures Run(start, actions + [a]) == Next(s, a)
    decreases |actions|
  {
    if actions == [] {
      assert [a][1..] == [];
    } else {
      assert (actions + [a])[1..] == actions[1..] + [a];
      RunOn(Next(start, actions[0]), actions[1..], s, a);
    }
  }

  /** A client is connected, and the reader has appended but not published. */
  function AppendedState(data: Text, exit: Exit, sent: seq<Frame>): State {
    State([data], Appended, exit, false, map[0 := Conn(true, false, 0, sent, 0, None)], {0})
  }

  lemma AppendedIsReached(data: Text) returns (actions: seq<Action>)
    requires 0 < |data| <= LONGEST_APPEND
    ensures Run(START, actions) == AppendedState(data, Waiting, [])
  {
    var conn := Conn(true, false, 0, [], 0, None);
    RunOn(START, [], START, Connect(0));
    RunOn(START, [] + [Connect(0)], Next(START, Connect(0)), Authenticate(0));
    var s := State([], Idle, Waiting, false, map[0 := conn], {0});
    actions := [] + [Connect(0)] + [Authenticate(0)];
    assert Run(START, actions) == s;
    RunOn(START, actions, s, CheckRetired);
    RunOn(START, actions + [CheckRetired], s.(reader := Checked), AppendText(data));
    actions := actions + [CheckRetired] + [AppendText(data)];
  }

  lemma ExitIsQueued(data: Text)
    ensures Next(AppendedState(data, Announcing(false, Cast({0}, {})), []), OfferExit(0, true))
         == AppendedState(data, Announcing(false, Cast({}, {})), [ExitFrame])
  {
    var s := AppendedState(data, Announcing(false, Cast({0}, {})), []);
    assert {0} - {0} == {};
    assert [] + [ExitFrame] == [ExitFrame];
    assert Queue(s.conns, 0, ExitFrame) == map[0 := Conn(true, false, 0, [ExitFrame], 0, None)];
  }

  lemma ExitGoesFirst(data: Text, before: seq<Action>) returns (actions: seq<Action>)
    requires Run(START, before) == AppendedState(data, Waiting, [])
    ensures Run(START, actions) == AppendedState(data, Finished(false), [ExitFrame])
  {
    actions := before;
    RunOn(START, actions, AppendedState(data, Waiting, []), SetStatus);
    actions := actions + [SetStatus];
    RunOn(START, actions, AppendedState(data, StatusSet, []), StopWaiting);
    actions := actions + [StopWaiting];
    RunOn(START, actions, AppendedState(data, ReaderAwaited(false), []), BeginExit);
    actions := actions + [BeginExit];
    RunOn(START, actions, AppendedState(data, Announcing(false, Cast({0}, {})), []), OfferExit(0, true));
    actions := actions + [OfferExit(0, true)];
    ExitIsQueued(data);
    RunOn(START, actions, AppendedState(data, Announcing(false, Cast({}, {})), [ExitFrame]), EndExit);
    actions := actions + [EndExit];
  }

  /** The exit thread waits 200 ms for the reader and no longer.  If the reader takes longer, a Data
      event can follow Exit. */
  lemma DataAfterATimeout(data: Text) returns (actions: seq<Action>)
    requires 0 < |data| <= LONGEST_APPEND
    ensures 0 in Run(START, actions).conns
    ensures Run(START, actions).conns[0].sent == [ExitFrame, DataFrame(Chunk(1, data))]
  {
    var before := AppendedIsReached(data);
    actions := ExitGoesFirst(data, before);
    var s := AppendedState(data, Finished(false), [ExitFrame]);
    RunOn(START, actions, s, BeginPublish);
    actions := actions + [BeginPublish];
    RunOn(START, actions, s.(reader := Publishing(Cast({0}, {}))), Offer(0, true));
    actions := actions + [Offer(0, true)];
  }
}
