/** One structured run and its clients, over all interleavings. */
module StructuredResume {
  // The steps of the threads: the readers append under the lock of the run and then publish; publishing
  // serves every client at once, under the lock on the client list.  A client reads the logs page by page and
  // gets events meanwhile.

  import opened Options
  import opened Scanner
  import opened Utf8
  import opened Windows
  import opened Bounds
  import opened StructuredLog
  import opened StructuredRuns
  import Hub

  type ConnId = nat

  datatype Frame =
    | EventFrame(event: Event)
    | ReplyFrame(afterOut: nat, afterErr: nat, maxBytes: Option<nat>, upToOut: nat, upToErr: nat, pages: Attached)
    | OtherFrame

  /** `since`: how many events had been published when the connection authenticated; a connection that has
      ended no longer is `authed`.  `taken`: how many of the frames queued so far the writer has taken. */
  datatype Conn = Conn(
    authed: bool, closed: bool, gone: bool, since: Option<nat>, sent: seq<Frame>, taken: nat, answer: Option<Frame>)

  datatype Daemon = Daemon(run: Run, conns: map<ConnId, Conn>, clients: set<ConnId>)

  /** Connections made before the run are taken to be made right after; nothing of the run is published. */
  function Opened(run: Run): Daemon {
    Daemon(run, map[], {})
  }

  datatype Step =
    | OfRun(act: RunAction)
    | Connect(c: ConnId) | Authenticate(c: ConnId)
    | AttachRead(c: ConnId, afterOut: nat, afterErr: nat, maxBytes: Option<nat>)
    | Respond(c: ConnId) | QueueOther(c: ConnId) | TakeFrame(c: ConnId) | WriterEnds(c: ConnId)
    | Drop(c: ConnId) | End(c: ConnId) | Leave(c: ConnId)

  /** What a stream retains of the texts appended to it. */
  function LogOf(texts: seq<Text>): (l: LogState)
    ensures LogOk(l) && l.number == |texts|
  {
    LogIsFit(texts);
    AppendedAll(EMPTY, texts)
  }

  /** A connection as the hub sees it. */
  function View(conn: Conn): Hub.Conn<Frame> {
    Hub.Conn(conn.authed, conn.closed, conn.gone, if conn.taken <= |conn.sent| then conn.sent[conn.taken..] else [])
  }

  predicate Takes(conn: Conn) {
    Hub.Takes(View(conn), Hub.STRUCTURED_DAEMON)
  }

  function Delivered(conn: Conn, f: Frame): Conn {
    if !conn.authed then conn
    else if Takes(conn) then conn.(sent := conn.sent + [f])
    else conn.(closed := true)
  }

  function DeliveredAll(conns: map<ConnId, Conn>, clients: set<ConnId>, f: Frame): map<ConnId, Conn> {
    map c | c in conns :: if c in clients then Delivered(conns[c], f) else conns[c]
  }

  predicate CanStep(s: Daemon, a: Step) {
    match a
    case OfRun(act) => RunEnabled(s.run, act)
    case Connect(c) => c !in s.conns
    case Authenticate(c) => c in s.conns && (s.conns[c].authed || (s.conns[c].since.None? && !s.conns[c].closed))
    case AttachRead(c, _, _, _) => c in s.conns && s.conns[c].authed && s.conns[c].answer.None?
    case Respond(c) => c in s.conns && s.conns[c].answer.Some? && Takes(s.conns[c])
    case QueueOther(c) => c in s.conns && Takes(s.conns[c])
    case TakeFrame(c) => c in s.conns && s.conns[c].taken < |s.conns[c].sent|
    case WriterEnds(c) => c in s.conns
    // An event of another run finds the queue full.
    case Drop(c) => c in s.conns && c in s.clients && s.conns[c].authed && !Takes(s.conns[c])
    case End(c) => c in s.conns
    case Leave(c) => c in s.conns && s.conns[c].closed && !s.conns[c].authed
  }

  function Stepped(s: Daemon, a: Step): Daemon
    requires CanStep(s, a)
  {
    match a
    case OfRun(act) =>
      var r := RunApply(s.run, act);
      if |r.published| <= |s.run.published| then s.(run := r)
      else
        var f := EventFrame(r.published[|r.published| - 1]);
        Daemon(r, DeliveredAll(s.conns, s.clients, f),
             set c | c in s.clients && c in s.conns && !(s.conns[c].authed && !Takes(s.conns[c])))
    case Connect(c) =>
      s.(conns := s.conns[c := Conn(false, false, false, None, [], 0, None)], clients := s.clients + {c})
    case Authenticate(c) =>
      if s.conns[c].authed then s
      else s.(conns := s.conns[c := s.conns[c].(authed := true, since := Some(|s.run.published|))])
    case AttachRead(c, afterOut, afterErr, maxBytes) =>
      var out, err := s.run.stdout.texts, s.run.stderr.texts;
      var pages := AttachTo(LogOf(out), LogOf(err), afterOut, afterErr, maxBytes);
      var f := ReplyFrame(afterOut, afterErr, maxBytes, |out|, |err|, pages);
      s.(conns := s.conns[c := s.conns[c].(answer := Some(f))])
    case Respond(c) =>
      s.(conns := s.conns[c := s.conns[c].(sent := s.conns[c].sent + [s.conns[c].answer.value], answer := None)])
    case QueueOther(c) => s.(conns := s.conns[c := s.conns[c].(sent := s.conns[c].sent + [OtherFrame])])
    case TakeFrame(c) => s.(conns := s.conns[c := s.conns[c].(taken := s.conns[c].taken + 1)])
    case WriterEnds(c) => s.(conns := s.conns[c := s.conns[c].(gone := true)])
    case Drop(c) => s.(conns := s.conns[c := s.conns[c].(closed := true)], clients := s.clients - {c})
    case End(c) => s.(conns := s.conns[c := s.conns[c].(authed := false, closed := true, answer := None)])
    case Leave(c) => s.(clients := s.clients - {c})
  }

  /** A step that cannot be taken does nothing. */
  function NextDaemon(s: Daemon, a: Step): Daemon {
    if CanStep(s, a) then Stepped(s, a) else s
  }

  function Walk(s: Daemon, steps: seq<Step>): Daemon
    decreases |steps|
  {
    if steps == [] then s else Walk(NextDaemon(s, steps[0]), steps[1..])
  }

  // ---- What a connection has been sent --------------------------------------------------------------------

  function EventsIn(sent: seq<Frame>): seq<Event> {
    if sent == [] then []
    else
      var last := sent[|sent| - 1];
      EventsIn(sent[..|sent| - 1]) + (if last.EventFrame? then [last.event] else [])
  }

  /** How many events of a stream had been published before the connection authenticated. */
  function Before(run: Run, since: nat, isOut: bool): nat
    requires since <= |run.published|
  {
    |EventsOf(run.published[..since], isOut)|
  }

  function UpTo(f: Frame, isOut: bool): nat
    requires f.ReplyFrame?
  {
    if isOut then f.upToOut else f.upToErr
  }

  /** An answer was read when the logs had grown to `upToOut` and `upToErr`; whatever had been published before
      the connection authenticated had been appended by then. */
  predicate AnswerOk(run: Run, since: nat, f: Frame)
    requires since <= |run.published|
  {
    f.ReplyFrame? ==>
      && Before(run, since, true) <= f.upToOut <= |run.stdout.texts|
      && Before(run, since, false) <= f.upToErr <= |run.stderr.texts|
      && f.pages == AttachTo(LogOf(run.stdout.texts[..f.upToOut]), LogOf(run.stderr.texts[..f.upToErr]),
                             f.afterOut, f.afterErr, f.maxBytes)
  }

  /** From its authentication on, a connection has been sent the events in order; as long as it is served, all
      of them. */
  ghost predicate ConnOk(run: Run, served: bool, conn: Conn) {
    match conn.since
    case None =>
      !conn.authed && EventsIn(conn.sent) == [] && conn.answer.None? && forall f | f in conn.sent :: !f.ReplyFrame?
    case Some(since) =>
      && since <= |run.published|
      && EventsIn(conn.sent) <= run.published[since..]
      && (served ==> EventsIn(conn.sent) == run.published[since..])
      && (forall f | f in conn.sent :: AnswerOk(run, since, f))
      && (conn.answer.Some? ==> conn.answer.value.ReplyFrame? && AnswerOk(run, since, conn.answer.value))
  }

  predicate Served(s: Daemon, c: ConnId) {
    c in s.clients && c in s.conns && s.conns[c].authed
  }

  ghost predicate Inv(s: Daemon) {
    && RunOk(s.run)
    && (forall c | c in s.conns :: ConnOk(s.run, Served(s, c), s.conns[c]))
    && (forall c | c in s.conns && !s.conns[c].closed :: c in s.clients)
  }

  lemma EventsInSnoc(sent: seq<Frame>, f: Frame)
    ensures EventsIn(sent + [f]) == EventsIn(sent) + (if f.EventFrame? then [f.event] else [])
  {
    assert (sent + [f])[..|sent|] == sent;
  }

  lemma ConnOkFrame(run: Run, served: bool, conn: Conn, f: Frame)
    requires ConnOk(run, served, conn) && !f.EventFrame?
    requires f.ReplyFrame? ==> conn.since.Some? && AnswerOk(run, conn.since.value, f)
    ensures ConnOk(run, served, conn.(sent := conn.sent + [f]))
  {
    EventsInSnoc(conn.sent, f);
    assert EventsIn(conn.sent) + [] == EventsIn(conn.sent);
  }

  /** Only connection c is different. */
  lemma OneChanged(s: Daemon, t: Daemon, c: ConnId)
    requires Inv(s) && t.run == s.run && c in t.conns && t.conns == s.conns[c := t.conns[c]]
    requires ConnOk(t.run, Served(t, c), t.conns[c])
    requires s.clients - {c} <= t.clients <= s.clients + {c} && (!t.conns[c].closed ==> c in t.clients)
    ensures Inv(t)
  {
    forall d | d in t.conns && d != c ensures ConnOk(t.run, Served(t, d), t.conns[d]) {
      assert Served(t, d) == Served(s, d);
    }
  }

  // ---- Steps of the run -------------------------------------------------------------------------------------

  lemma PublishedGrows(r: Run, act: RunAction)
    requires RunEnabled(r, act)
    ensures r.published <= RunApply(r, act).published && |RunApply(r, act).published| <= |r.published| + 1
    ensures r.stdout.texts <= RunApply(r, act).stdout.texts && r.stderr.texts <= RunApply(r, act).stderr.texts
  {
  }

  lemma AnswerOkLater(run: Run, later: Run, since: nat, f: Frame)
    requires since <= |run.published| && run.published <= later.published
    requires run.stdout.texts <= later.stdout.texts && run.stderr.texts <= later.stderr.texts
    requires AnswerOk(run, since, f)
    ensures AnswerOk(later, since, f)
  {
    assert later.published[..since] == run.published[..since];
    if f.ReplyFrame? {
      assert later.stdout.texts[..f.upToOut] == run.stdout.texts[..f.upToOut];
      assert later.stderr.texts[..f.upToErr] == run.stderr.texts[..f.upToErr];
    }
  }

  lemma ConnOkLater(run: Run, later: Run, served: bool, conn: Conn)
    requires ConnOk(run, served, conn) && run.published <= later.published
    requires run.stdout.texts <= later.stdout.texts && run.stderr.texts <= later.stderr.texts
    ensures ConnOk(later, served && later.published == run.published, conn)
  {
    if conn.since.Some? {
      var since := conn.since.value;
      assert run.published[since..] <= later.published[since..];
      forall f: Frame | AnswerOk(run, since, f) ensures AnswerOk(later, since, f) {
        AnswerOkLater(run, later, since, f);
      }
    }
  }

  /** A served connection that takes the new event has them all again. */
  lemma ConnOkEvent(run: Run, later: Run, e: Event, conn: Conn)
    requires ConnOk(run, true, conn) && conn.since.Some? && later.published == run.published + [e]
    requires ConnOk(later, false, conn)
    ensures ConnOk(later, true, conn.(sent := conn.sent + [EventFrame(e)]))
  {
    var since := conn.since.value;
    EventsInSnoc(conn.sent, EventFrame(e));
    assert later.published[since..] == run.published[since..] + [e];
  }

  lemma SilentStepKeepsInv(s: Daemon, r: Run)
    requires Inv(s) && RunOk(r) && r.published == s.run.published
    requires s.run.stdout.texts <= r.stdout.texts && s.run.stderr.texts <= r.stderr.texts
    ensures Inv(s.(run := r))
  {
    var t := s.(run := r);
    forall c | c in t.conns ensures ConnOk(r, Served(t, c), t.conns[c]) {
      ConnOkLater(s.run, r, Served(s, c), s.conns[c]);
    }
  }

  function AfterEvent(s: Daemon, r: Run, e: Event): Daemon {
    Daemon(r, DeliveredAll(s.conns, s.clients, EventFrame(e)),
         set c | c in s.clients && c in s.conns && !(s.conns[c].authed && !Takes(s.conns[c])))
  }

  lemma EventForOne(s: Daemon, r: Run, e: Event, c: ConnId)
    requires Inv(s) && r.published == s.run.published + [e] && c in s.conns
    requires s.run.stdout.texts <= r.stdout.texts && s.run.stderr.texts <= r.stderr.texts
    ensures ConnOk(r, Served(AfterEvent(s, r, e), c), AfterEvent(s, r, e).conns[c])
  {
    var conn := s.conns[c];
    assert ConnOk(s.run, Served(s, c), conn);
    ConnOkLater(s.run, r, Served(s, c), conn);
    if Served(s, c) && Takes(conn) {
      ConnOkEvent(s.run, r, e, conn);
    }
  }

  lemma EventKeepsInv(s: Daemon, r: Run, e: Event)
    requires Inv(s) && RunOk(r) && r.published == s.run.published + [e]
    requires s.run.stdout.texts <= r.stdout.texts && s.run.stderr.texts <= r.stderr.texts
    ensures Inv(AfterEvent(s, r, e))
  {
    forall c | c in s.conns
      ensures ConnOk(r, Served(AfterEvent(s, r, e), c), AfterEvent(s, r, e).conns[c])
    {
      EventForOne(s, r, e, c);
    }
  }

  lemma OfRunKeepsInv(s: Daemon, act: RunAction)
    requires Inv(s) && RunEnabled(s.run, act)
    ensures Inv(Stepped(s, OfRun(act)))
  {
    var r := RunApply(s.run, act);
    RunNextKeepsRunOk(s.run, act);
    PublishedGrows(s.run, act);
    if |r.published| <= |s.run.published| {
      assert r.published == s.run.published;
      SilentStepKeepsInv(s, r);
    } else {
      var e := r.published[|r.published| - 1];
      assert r.published == s.run.published + [e];
      EventKeepsInv(s, r, e);
    }
  }

  // ---- Steps of a connection --------------------------------------------------------------------------------

  lemma {:induction false} EventsOfConcat(a: seq<Event>, b: seq<Event>, isOut: bool)
    ensures EventsOf(a + b, isOut) == EventsOf(a, isOut) + EventsOf(b, isOut)
    decreases |b|
  {
    if b == [] {
      assert a + b == a && EventsOf(a, isOut) + [] == EventsOf(a, isOut);
    } else {
      var front, last := b[..|b| - 1], b[|b| - 1];
      assert a + b == (a + front) + [last] && b == front + [last];
      EventsOfConcat(a, front, isOut);
      EventsSnoc(a + front, last, isOut);
      EventsSnoc(front, last, isOut);
    }
  }

  /** What has been published has been appended before. */
  lemma BeforeIsWithin(run: Run, since: nat, isOut: bool)
    requires RunOk(run) && since <= |run.published|
    ensures Before(run, since, isOut) <= |StreamOf(run, isOut).texts|
  {
    assert run.published == run.published[..since] + run.published[since..];
    EventsOfConcat(run.published[..since], run.published[since..], isOut);
  }

  lemma AttachKeepsInv(s: Daemon, a: Step)
    requires Inv(s) && CanStep(s, a) && a.AttachRead?
    ensures Inv(Stepped(s, a))
  {
    var conn := s.conns[a.c];
    assert ConnOk(s.run, Served(s, a.c), conn);
    BeforeIsWithin(s.run, conn.since.value, true);
    BeforeIsWithin(s.run, conn.since.value, false);
    assert s.run.stdout.texts[..|s.run.stdout.texts|] == s.run.stdout.texts;
    assert s.run.stderr.texts[..|s.run.stderr.texts|] == s.run.stderr.texts;
    OneChanged(s, Stepped(s, a), a.c);
  }

  lemma AuthenticateKeepsInv(s: Daemon, c: ConnId)
    requires Inv(s) && CanStep(s, Authenticate(c))
    ensures Inv(Stepped(s, Authenticate(c)))
  {
    if !s.conns[c].authed {
      assert ConnOk(s.run, Served(s, c), s.conns[c]);
      assert s.run.published[|s.run.published|..] == [];
      OneChanged(s, Stepped(s, Authenticate(c)), c);
    }
  }

  lemma QueueKeepsInv(s: Daemon, a: Step)
    requires Inv(s) && CanStep(s, a) && (a.Respond? || a.QueueOther?)
    ensures Inv(Stepped(s, a))
  {
    var conn := s.conns[a.c];
    assert ConnOk(s.run, Served(s, a.c), conn);
    ConnOkFrame(s.run, Served(s, a.c), conn, if a.Respond? then conn.answer.value else OtherFrame);
    OneChanged(s, Stepped(s, a), a.c);
  }

  lemma OtherStepKeepsInv(s: Daemon, a: Step)
    requires Inv(s) && CanStep(s, a)
    requires a.Connect? || a.TakeFrame? || a.WriterEnds? || a.End?
    ensures Inv(Stepped(s, a))
  {
    if !a.Connect? {
      assert ConnOk(s.run, Served(s, a.c), s.conns[a.c]);
    }
    OneChanged(s, Stepped(s, a), a.c);
  }

  lemma GoingKeepsInv(s: Daemon, a: Step)
    requires Inv(s) && CanStep(s, a) && (a.Drop? || a.Leave?)
    ensures Inv(Stepped(s, a))
  {
    assert ConnOk(s.run, Served(s, a.c), s.conns[a.c]);
    assert s.conns[a.c := s.conns[a.c]] == s.conns;
    OneChanged(s, Stepped(s, a), a.c);
  }

  lemma NextKeepsInv(s: Daemon, a: Step)
    requires Inv(s)
    ensures Inv(NextDaemon(s, a))
  {
    if CanStep(s, a) {
      if a.OfRun? {
        OfRunKeepsInv(s, a.act);
      } else if a.AttachRead? {
        AttachKeepsInv(s, a);
      } else if a.Authenticate? {
        AuthenticateKeepsInv(s, a.c);
      } else if a.Respond? || a.QueueOther? {
        QueueKeepsInv(s, a);
      } else if a.Drop? || a.Leave? {
        GoingKeepsInv(s, a);
      } else {
        OtherStepKeepsInv(s, a);
      }
    }
  }

  lemma {:induction false} WalkKeepsInv(s: Daemon, steps: seq<Step>)
    requires Inv(s)
    ensures Inv(Walk(s, steps))
    decreases |steps|
  {
    if steps != [] {
      NextKeepsInv(s, steps[0]);
      WalkKeepsInv(NextDaemon(s, steps[0]), steps[1..]);
    }
  }

  // ---- No gap -------------------------------------------------------------------------------------------------

  lemma {:induction false} NumberedOfPrefix(number: nat, texts: seq<Text>, n: nat)
    requires n <= |texts|
    ensures Numbered(number, texts[..n]) == Numbered(number, texts)[..n]
    decreases n
  {
    if n > 0 {
      assert texts[..n][1..] == texts[1..][..n - 1];
      NumberedOfPrefix(number + 1, texts[1..], n - 1);
    }
  }

  lemma NumberedIsConsecutive(texts: seq<Text>)
    ensures Consecutive(Numbered(0, texts), |texts|)
  {
    forall i | 0 <= i < |texts| ensures Numbered(0, texts)[i].number == i + 1 {
      NumberedAt(0, texts, i);
    }
  }

  /** A log holds the end of `whole`. */
  predicate EndsLog(l: LogState, whole: seq<Chunk>) {
    l.number == |whole| && |l.chunks| <= |whole| && l.chunks == whole[|whole| - |l.chunks|..]
  }

  lemma LogIsEnd(texts: seq<Text>)
    ensures EndsLog(LogOf(texts), Numbered(0, texts))
  {
    LogIsFit(texts);
    FitIsLongest(Numbered(0, texts), Bytes, RUN_LOG_MAX_BYTES);
  }

  lemma EndOfEnd<T>(s: seq<T>, k: nat, c: nat)
    requires k <= c <= |s|
    ensures s[k..][|s| - k - (|s| - c)..] == s[c..|s|]
  {
  }

  /** What a log holds above a cursor within it is the end of what has been appended. */
  lemma LogAbove(l: LogState, whole: seq<Chunk>, c: nat)
    requires LogOk(l) && EndsLog(l, whole) && Dropped(l) <= c <= |whole|
    ensures Newer(l.chunks, c) == whole[c..|whole|]
  {
    EndOfEnd(whole, |whole| - |l.chunks|, c);
    NewerIsSuffix(l.chunks, |whole|, c);
  }

  lemma FirstPart<T>(whole: seq<T>, c: nat, first: seq<T>, rest: seq<T>, next: nat)
    requires c <= |whole| && whole[c..|whole|] == first + rest && next == c + |first|
    ensures next <= |whole| && first == whole[c..next]
  {
    assert first == (first + rest)[..|first|];
    assert whole[c..|whole|][..|first|] == whole[c..next];
  }

  lemma PageReaches(l: LogState, after: nat, room: nat)
    requires LogOk(l)
    ensures var c, p := Cursor(l, after), PageOf(l, after, room);
            && Dropped(l) <= c <= l.number && p.next == c + |p.chunks|
            && Newer(l.chunks, c) == p.chunks + Newer(l.chunks, p.next)
            && (p.complete <==> p.next == l.number) && (!p.resetRequired ==> c == after)
  {
    PageMeaning(l, after, room);
    CursorIsWithin(l, after);
  }

  lemma PartIsPart(l: LogState, whole: seq<Chunk>, c: nat, chunks: seq<Chunk>, next: nat)
    requires LogOk(l) && EndsLog(l, whole) && Dropped(l) <= c <= |whole| && next == c + |chunks|
    requires Newer(l.chunks, c) == chunks + Newer(l.chunks, next)
    ensures next <= |whole| && chunks == whole[c..next]
  {
    LogAbove(l, whole, c);
    FirstPart(whole, c, chunks, Newer(l.chunks, next), next);
  }

  /** A page holds what is between its cursor and the next, and is complete when that is the end. */
  lemma PageIsPart(l: LogState, whole: seq<Chunk>, after: nat, room: nat)
    requires LogOk(l) && EndsLog(l, whole)
    ensures var c, p := Cursor(l, after), PageOf(l, after, room);
            && c <= p.next <= |whole| && p.chunks == whole[c..p.next]
            && (p.complete <==> p.next == |whole|) && (!p.resetRequired ==> c == after)
  {
    var p := PageOf(l, after, room);
    PageReaches(l, after, room);
    PartIsPart(l, whole, Cursor(l, after), p.chunks, p.next);
  }

  /** The entries of a stream, from the first on. */
  function Entries(stream: Stream): seq<Chunk> {
    Numbered(0, stream.texts)
  }

  lemma PageOfPrefix(texts: seq<Text>, upTo: nat, after: nat, room: nat)
    requires upTo <= |texts|
    ensures var l := LogOf(texts[..upTo]); var c, p := Cursor(l, after), PageOf(l, after, room);
            && c <= p.next <= upTo && p.chunks == Numbered(0, texts)[c..p.next]
            && (p.complete <==> p.next == upTo) && (!p.resetRequired ==> c == after)
  {
    var l, whole := LogOf(texts[..upTo]), Numbered(0, texts);
    LogIsEnd(texts[..upTo]);
    NumberedOfPrefix(0, texts, upTo);
    PageOfEnd(l, whole, upTo, after, room);
  }

  lemma PageOfEnd(l: LogState, whole: seq<Chunk>, upTo: nat, after: nat, room: nat)
    requires upTo <= |whole| && LogOk(l) && EndsLog(l, whole[..upTo])
    ensures var c, p := Cursor(l, after), PageOf(l, after, room);
            && c <= p.next <= upTo && p.chunks == whole[c..p.next]
            && (p.complete <==> p.next == upTo) && (!p.resetRequired ==> c == after)
  {
    PageIsPart(l, whole[..upTo], after, room);
    PartOfPrefix(whole, upTo, Cursor(l, after), PageOf(l, after, room).next);
  }

  lemma PartOfPrefix<T>(s: seq<T>, n: nat, a: nat, b: nat)
    requires a <= b <= n <= |s|
    ensures s[..n][a..b] == s[a..b]
  {
  }

  lemma EndOfPart<T>(s: seq<T>, a: nat, c: nat, b: nat)
    requires a <= c <= b <= |s|
    ensures s[a..b][|s[a..b]| - (b - c)..] == s[c..b]
  {
  }

  lemma PartIsConsecutive(whole: seq<Chunk>, a: nat, b: nat)
    requires Consecutive(whole, |whole|) && a <= b <= |whole|
    ensures Consecutive(whole[a..b], b) && forall i | 0 <= i < b - a :: whole[a..b][i].number <= b
  {
  }

  /** Of a part of consecutive entries, what is numbered above `after`. */
  lemma NewerOfPart(whole: seq<Chunk>, a: nat, b: nat, after: nat)
    requires Consecutive(whole, |whole|) && a <= after && a <= b <= |whole|
    ensures Newer(whole[a..b], after) == if after <= b then whole[after..b] else []
  {
    PartIsConsecutive(whole, a, b);
    if after <= b {
      NewerIsSuffix(whole[a..b], b, after);
      EndOfPart(whole, a, after, b);
    } else {
      NothingNewer(whole[a..b], after);
    }
  }

  lemma {:induction false} NothingNewer(cs: seq<Chunk>, after: nat)
    requires forall i | 0 <= i < |cs| :: cs[i].number <= after
    ensures Newer(cs, after) == []
  {
    if cs != [] {
      NothingNewer(cs[1..], after);
    }
  }

  lemma {:induction false} EventsInPrefix(sent: seq<Frame>, t: nat)
    requires t <= |sent|
    ensures EventsIn(sent[..t]) <= EventsIn(sent)
    decreases |sent|
  {
    if t < |sent| {
      EventsInPrefix(sent[..|sent| - 1], t);
      assert sent[..|sent| - 1][..t] == sent[..t];
    } else {
      assert sent[..t] == sent;
    }
  }

  lemma Middle<T>(whole: seq<T>, a: seq<T>, b: seq<T>, c: seq<T>)
    requires whole == a + b + c
    ensures |a| + |b| <= |whole| && whole[|a|..|a| + |b|] == b && (c == [] ==> |a| + |b| == |whole|)
  {
  }

  lemma EventsInThree(a: seq<Event>, b: seq<Event>, c: seq<Event>, isOut: bool)
    ensures EventsOf(a + b + c, isOut) == EventsOf(a, isOut) + EventsOf(b, isOut) + EventsOf(c, isOut)
  {
    EventsOfConcat(a + b, c, isOut);
    EventsOfConcat(a, b, isOut);
  }

  lemma Thirds<T>(s: seq<T>, n: nat, b: seq<T>)
    requires n <= |s| && b <= s[n..]
    ensures s == s[..n] + b + s[n..][|b|..] && (b == s[n..] ==> s[n..][|b|..] == [])
  {
  }

  /** The entries that follow `from`, no further than the stream has been published; all of them, if so said. */
  ghost predicate IsPart(whole: seq<Chunk>, published: nat, from: nat, events: seq<Chunk>, all: bool) {
    && from + |events| <= published <= |whole| && events == whole[from..from + |events|]
    && (all ==> from + |events| == published)
  }

  /** The events that a connection has been sent for one stream are a part of what has been published. */
  lemma SentIsPart(published: seq<Event>, since: nat, events: seq<Event>, isOut: bool, all: bool)
    requires since <= |published| && events <= published[since..] && (all ==> events == published[since..])
    ensures var whole := EventsOf(published, isOut);
            IsPart(whole, |whole|, |EventsOf(published[..since], isOut)|, EventsOf(events, isOut), all)
  {
    var first, last := published[..since], published[since..][|events|..];
    Thirds(published, since, events);
    EventsInThree(first, events, last, isOut);
    Middle(EventsOf(published, isOut), EventsOf(first, isOut), EventsOf(events, isOut), EventsOf(last, isOut));
  }

  lemma PartOfMore(first: seq<Chunk>, whole: seq<Chunk>, from: nat, events: seq<Chunk>, all: bool)
    requires first <= whole && IsPart(first, |first|, from, events, all)
    ensures IsPart(whole, |first|, from, events, all)
  {
    PartOfPrefix(whole, |first|, from, from + |events|);
  }

  lemma PublishedIsPrefix(run: Run, isOut: bool)
    requires RunOk(run)
    ensures var stream := StreamOf(run, isOut); var published := EventsOf(run.published, isOut);
            |published| == |PublishedTexts(stream)| && published <= Entries(stream)
  {
    var stream := StreamOf(run, isOut);
    NumberedOfPrefix(0, stream.texts, |PublishedTexts(stream)|);
    assert stream.texts[..|PublishedTexts(stream)|] == PublishedTexts(stream);
  }

  lemma EventsArePart(run: Run, since: nat, events: seq<Event>, isOut: bool, all: bool)
    requires RunOk(run) && since <= |run.published| && events <= run.published[since..]
    requires all ==> events == run.published[since..]
    ensures IsPart(Entries(StreamOf(run, isOut)), |PublishedTexts(StreamOf(run, isOut))|, Before(run, since, isOut),
                   EventsOf(events, isOut), all)
  {
    SentIsPart(run.published, since, events, isOut, all);
    PublishedIsPrefix(run, isOut);
    PartOfMore(EventsOf(run.published, isOut), Entries(StreamOf(run, isOut)), Before(run, since, isOut),
               EventsOf(events, isOut), all);
  }

  function PageIn(f: Frame, isOut: bool): ReplayStream
    requires f.ReplyFrame?
  {
    if isOut then f.pages.stdout else f.pages.stderr
  }

  /** A connection has been sent this answer, or is about to be. */
  predicate Answered(s: Daemon, c: ConnId, f: Frame) {
    c in s.conns && f.ReplyFrame? && (f in s.conns[c].sent || s.conns[c].answer == Some(f))
  }

  /** What a client has of a stream after it has read t frames: the page, and the events beyond it. */
  function Got(s: Daemon, c: ConnId, f: Frame, t: nat, isOut: bool): seq<Chunk>
    requires Answered(s, c, f) && t <= |s.conns[c].sent|
  {
    PageIn(f, isOut).chunks + Newer(EventsOf(EventsIn(s.conns[c].sent[..t]), isOut), UpTo(f, isOut))
  }

  /** This is a part of the stream, from `a` to the end of the page at least; and as far as the stream has been
      published, if the connection is served and all of its frames have been read. */
  ghost predicate NoGap(whole: seq<Chunk>, published: nat, a: nat, upTo: nat, got: seq<Chunk>, allOfServed: bool) {
    && a <= upTo <= a + |got| <= |whole| && got == whole[a..a + |got|]
    && (allOfServed ==> a + |got| == if upTo < published then published else upTo)
  }

  lemma Glue<T>(whole: seq<T>, a: nat, b: nat, c: nat)
    requires a <= b <= c <= |whole|
    ensures whole[a..b] + whole[b..c] == whole[a..c]
  {
  }

  lemma NoGapTo(whole: seq<Chunk>, published: nat, a: nat, upTo: nat, to: nat, all: bool)
    requires a <= upTo <= to <= published <= |whole| && (all ==> to == published)
    ensures NoGap(whole, published, a, upTo, whole[a..upTo] + whole[upTo..to], all)
  {
    Glue(whole, a, upTo, to);
  }

  lemma NoGapAtAll(whole: seq<Chunk>, published: nat, a: nat, upTo: nat, all: bool)
    requires a <= upTo <= |whole| && (all ==> published <= upTo)
    ensures NoGap(whole, published, a, upTo, whole[a..upTo] + [], all)
  {
    assert whole[a..upTo] + [] == whole[a..upTo];
  }

  /** The page and the events beyond it. */
  lemma PageAndEvents(whole: seq<Chunk>, published: nat, a: nat, upTo: nat, from: nat, to: nat, all: bool)
    requires Consecutive(whole, |whole|) && a <= upTo <= |whole| && from <= upTo
    requires from <= to <= published <= |whole| && (all ==> to == published)
    ensures NoGap(whole, published, a, upTo, whole[a..upTo] + Newer(whole[from..to], upTo), all)
  {
    NewerOfPart(whole, from, to, upTo);
    if upTo <= to {
      NoGapTo(whole, published, a, upTo, to, all);
    } else {
      NoGapAtAll(whole, published, a, upTo, all);
    }
  }

  lemma PartsAreNoGap(whole: seq<Chunk>, published: nat, a: nat, upTo: nat, page: seq<Chunk>, from: nat,
      events: seq<Chunk>, all: bool)
    requires Consecutive(whole, |whole|) && a <= upTo <= |whole| && page == whole[a..upTo] && from <= upTo
    requires IsPart(whole, published, from, events, all)
    ensures NoGap(whole, published, a, upTo, page + Newer(events, upTo), all)
  {
    PageAndEvents(whole, published, a, upTo, from, from + |events|, all);
  }

  function AskedAfter(f: Frame, isOut: bool): nat
    requires f.ReplyFrame?
  {
    if isOut then f.afterOut else f.afterErr
  }

  /** Where a page starts: at the cursor asked for, or at the oldest chunk there was. */
  function StartOf(run: Run, f: Frame, isOut: bool): nat
    requires f.ReplyFrame?
  {
    var texts, upTo := StreamOf(run, isOut).texts, UpTo(f, isOut);
    if upTo > |texts| then 0 else Cursor(LogOf(texts[..upTo]), AskedAfter(f, isOut))
  }

  /** The page of an answer is a part of the stream. */
  ghost predicate HoldsPage(run: Run, f: Frame, isOut: bool) {
    && f.ReplyFrame? && UpTo(f, isOut) <= |StreamOf(run, isOut).texts|
    && var p, start := PageIn(f, isOut), StartOf(run, f, isOut);
    && start <= p.next <= UpTo(f, isOut) && p.chunks == Entries(StreamOf(run, isOut))[start..p.next]
    && (p.complete <==> p.next == UpTo(f, isOut)) && (!p.resetRequired ==> start == AskedAfter(f, isOut))
  }

  lemma AnswerHoldsPage(run: Run, since: nat, f: Frame, isOut: bool)
    requires since <= |run.published| && AnswerOk(run, since, f) && f.ReplyFrame?
    ensures HoldsPage(run, f, isOut)
  {
    var room := Room(f.maxBytes);
    if isOut {
      PageOfPrefix(run.stdout.texts, f.upToOut, f.afterOut, room);
    } else {
      PageOfPrefix(run.stderr.texts, f.upToErr, f.afterErr,
                   LeftOf(LogOf(run.stdout.texts[..f.upToOut]), f.afterOut, room));
    }
  }

  lemma AnswerIsPart(run: Run, since: nat, f: Frame, isOut: bool)
    requires since <= |run.published| && AnswerOk(run, since, f) && f.ReplyFrame? && PageIn(f, isOut).complete
    ensures var whole, upTo := Entries(StreamOf(run, isOut)), UpTo(f, isOut);
            && Before(run, since, isOut) <= upTo <= |whole| && StartOf(run, f, isOut) <= upTo
            && PageIn(f, isOut).chunks == whole[StartOf(run, f, isOut)..upTo]
  {
    AnswerHoldsPage(run, since, f, isOut);
  }

  /** The events among the first t frames of a connection. */
  lemma FirstEvents(run: Run, conn: Conn, served: bool, t: nat)
    requires ConnOk(run, served, conn) && conn.since.Some? && t <= |conn.sent|
    ensures var events, due := EventsIn(conn.sent[..t]), run.published[conn.since.value..];
            events <= due && (served && t == |conn.sent| ==> events == due)
  {
    EventsInPrefix(conn.sent, t);
    assert conn.sent[..|conn.sent|] == conn.sent;
  }

  lemma AnswerIsOk(run: Run, served: bool, conn: Conn, f: Frame)
    requires ConnOk(run, served, conn) && f.ReplyFrame? && (f in conn.sent || conn.answer == Some(f))
    ensures conn.since.Some? && conn.since.value <= |run.published| && AnswerOk(run, conn.since.value, f)
  {
  }

  lemma GotIsPart(run: Run, since: nat, f: Frame, events: seq<Event>, isOut: bool, all: bool)
    requires RunOk(run) && since <= |run.published|
    requires AnswerOk(run, since, f) && f.ReplyFrame? && PageIn(f, isOut).complete
    requires events <= run.published[since..] && (all ==> events == run.published[since..])
    ensures UpTo(f, isOut) <= |StreamOf(run, isOut).texts|
    ensures NoGap(Entries(StreamOf(run, isOut)), |PublishedTexts(StreamOf(run, isOut))|, StartOf(run, f, isOut),
                  UpTo(f, isOut), PageIn(f, isOut).chunks + Newer(EventsOf(events, isOut), UpTo(f, isOut)), all)
  {
    var stream := StreamOf(run, isOut);
    AnswerIsPart(run, since, f, isOut);
    EventsArePart(run, since, events, isOut, all);
    NumberedIsConsecutive(stream.texts);
    PartsAreNoGap(Entries(stream), |PublishedTexts(stream)|, StartOf(run, f, isOut), UpTo(f, isOut),
                  PageIn(f, isOut).chunks, Before(run, since, isOut), EventsOf(events, isOut), all);
  }

  lemma GotHasNoGap(s: Daemon, c: ConnId, f: Frame, t: nat, isOut: bool)
    requires Inv(s) && Answered(s, c, f) && t <= |s.conns[c].sent| && PageIn(f, isOut).complete
    ensures UpTo(f, isOut) <= |StreamOf(s.run, isOut).texts|
    ensures NoGap(Entries(StreamOf(s.run, isOut)), |PublishedTexts(StreamOf(s.run, isOut))|, StartOf(s.run, f, isOut),
                  UpTo(f, isOut), Got(s, c, f, t, isOut), Served(s, c) && t == |s.conns[c].sent|)
  {
    assert ConnOk(s.run, Served(s, c), s.conns[c]);
    AnswerIsOk(s.run, Served(s, c), s.conns[c], f);
    FirstEvents(s.run, s.conns[c], Served(s, c), t);
    GotIsPart(s.run, s.conns[c].since.value, f, EventsIn(s.conns[c].sent[..t]), isOut,
              Served(s, c) && t == |s.conns[c].sent|);
  }

  /** However the readers, the connections and the hub interleave, for each of the two streams: a page that is
      complete and the events beyond it are the stream without a gap, as far as they go, from the cursor
      asked for or from the oldest chunk there was; and a connection that is still served and has read all
      its frames has got everything that has been published. */
  lemma NoGapAfterAttach(run: Run, steps: seq<Step>, c: ConnId, f: Frame, t: nat, isOut: bool)
    requires run == NEW_RUN || run == FAILED_RUN
    requires var s := Walk(Opened(run), steps);
             Answered(s, c, f) && t <= |s.conns[c].sent| && PageIn(f, isOut).complete
    ensures var s := Walk(Opened(run), steps); var stream := StreamOf(s.run, isOut);
            && UpTo(f, isOut) <= |stream.texts|
            && NoGap(Entries(stream), |PublishedTexts(stream)|, StartOf(s.run, f, isOut), UpTo(f, isOut),
                     Got(s, c, f, t, isOut), Served(s, c) && t == |s.conns[c].sent|)
  {
    NewRunsAreOrderly([]);
    WalkKeepsInv(Opened(run), steps);
    GotHasNoGap(Walk(Opened(run), steps), c, f, t, isOut);
  }

  // ---- Many pages, and many connections ------------------------------------------------------------------------

  /** An answer, and the connection it has come on. */
  datatype Link = Link(c: ConnId, f: Frame)

  /** Answers that a client has asked for one after the other, each from where the page before had got to, and
      without a reset after the first. */
  predicate IsChain(s: Daemon, chain: seq<Link>, isOut: bool) {
    && chain != [] && (forall i | 0 <= i < |chain| :: Answered(s, chain[i].c, chain[i].f))
    && forall i | 0 < i < |chain| ::
         && AskedAfter(chain[i].f, isOut) == PageIn(chain[i - 1].f, isOut).next
         && !PageIn(chain[i].f, isOut).resetRequired
  }

  function PagesIn(isOut: bool): Link -> seq<Chunk> {
    (l: Link) => if l.f.ReplyFrame? then PageIn(l.f, isOut).chunks else []
  }

  function StartsIn(run: Run, isOut: bool): Link -> nat {
    (l: Link) => if l.f.ReplyFrame? then StartOf(run, l.f, isOut) else 0
  }

  /** All that a client has of a stream: the pages, and the events beyond the last of them, as far as it has read
      the connection that this came on. */
  function AllGot(s: Daemon, chain: seq<Link>, t: nat, isOut: bool): seq<Chunk>
    requires IsChain(s, chain, isOut) && t <= |s.conns[chain[|chain| - 1].c].sent|
  {
    Written(PagesIn(isOut), chain[..|chain| - 1]) + Got(s, chain[|chain| - 1].c, chain[|chain| - 1].f, t, isOut)
  }

  lemma AnsweredHoldsPage(s: Daemon, c: ConnId, f: Frame, isOut: bool)
    requires Inv(s) && Answered(s, c, f)
    ensures HoldsPage(s.run, f, isOut)
  {
    AnswerIsOk(s.run, Served(s, c), s.conns[c], f);
    AnswerHoldsPage(s.run, s.conns[c].since.value, f, isOut);
  }

  /** The last page is complete, and t frames of its connection have been read. */
  predicate IsReadChain(s: Daemon, chain: seq<Link>, t: nat, isOut: bool) {
    && IsChain(s, chain, isOut) && t <= |s.conns[chain[|chain| - 1].c].sent|
    && PageIn(chain[|chain| - 1].f, isOut).complete
  }

  /** These are the entries that follow `start`. */
  predicate Follow(whole: seq<Chunk>, start: nat, got: seq<Chunk>) {
    start + |got| <= |whole| && got == whole[start..start + |got|]
  }

  lemma FollowOn(whole: seq<Chunk>, start: nat, a: seq<Chunk>, b: seq<Chunk>)
    requires Follow(whole, start, a) && Follow(whole, start + |a|, b)
    ensures Follow(whole, start, a + b)
  {
    Glue(whole, start, start + |a|, start + |a| + |b|);
  }

  /** Each page is a part of the stream, and starts where the one before has got to. */
  ghost predicate IsLinked<T>(whole: seq<Chunk>, start: T -> nat, pages: T -> seq<Chunk>, chain: seq<T>) {
    && (forall i | 0 <= i < |chain| :: Follow(whole, start(chain[i]), pages(chain[i])))
    && forall i | 0 < i < |chain| :: start(chain[i]) == start(chain[i - 1]) + |pages(chain[i - 1])|
  }

  lemma {:induction false} LinkedPagesFollow<T>(
      whole: seq<Chunk>, start: T -> nat, pages: T -> seq<Chunk>, chain: seq<T>)
    requires IsLinked(whole, start, pages, chain) && chain != []
    ensures Follow(whole, start(chain[0]), Written(pages, chain))
    ensures var last := chain[|chain| - 1]; start(chain[0]) + |Written(pages, chain)| == start(last) + |pages(last)|
    decreases |chain|
  {
    if |chain| == 1 {
      assert Written(pages, chain[1..]) == [];
      assert pages(chain[0]) + [] == pages(chain[0]);
    } else {
      var rest := chain[1..];
      assert rest[0] == chain[1] && rest[|rest| - 1] == chain[|chain| - 1];
      RestIsLinked(whole, start, pages, chain);
      LinkedPagesFollow(whole, start, pages, rest);
      FollowOn(whole, start(chain[0]), pages(chain[0]), Written(pages, rest));
    }
  }

  lemma RestIsLinked<T>(whole: seq<Chunk>, start: T -> nat, pages: T -> seq<Chunk>, chain: seq<T>)
    requires IsLinked(whole, start, pages, chain) && chain != []
    ensures IsLinked(whole, start, pages, chain[1..])
  {
    var rest := chain[1..];
    assert forall i | 0 <= i < |rest| :: rest[i] == chain[i + 1];
  }

  lemma FrontIsLinked<T>(whole: seq<Chunk>, start: T -> nat, pages: T -> seq<Chunk>, chain: seq<T>)
    requires IsLinked(whole, start, pages, chain) && chain != []
    ensures IsLinked(whole, start, pages, chain[..|chain| - 1])
  {
  }

  /** All but the last page of a chain bring the client to where the last one starts. */
  lemma PagesJoin<T>(whole: seq<Chunk>, start: T -> nat, pages: T -> seq<Chunk>, chain: seq<T>)
    requires IsLinked(whole, start, pages, chain) && chain != []
    ensures var front, last := chain[..|chain| - 1], chain[|chain| - 1];
            && Follow(whole, start(chain[0]), Written(pages, front))
            && start(chain[0]) + |Written(pages, front)| == start(last)
  {
    var n := |chain| - 1;
    if n > 0 {
      FrontIsLinked(whole, start, pages, chain);
      LinkedPagesFollow(whole, start, pages, chain[..n]);
    } else {
      assert Written(pages, chain[..0]) == [];
    }
  }

  lemma PageFollows(run: Run, f: Frame, isOut: bool)
    requires HoldsPage(run, f, isOut)
    ensures Follow(Entries(StreamOf(run, isOut)), StartOf(run, f, isOut), PageIn(f, isOut).chunks)
    ensures PageIn(f, isOut).next == StartOf(run, f, isOut) + |PageIn(f, isOut).chunks|
  {
  }

  lemma ChainIsLinked(s: Daemon, chain: seq<Link>, isOut: bool)
    requires Inv(s) && IsChain(s, chain, isOut)
    ensures IsLinked(Entries(StreamOf(s.run, isOut)), StartsIn(s.run, isOut), PagesIn(isOut), chain)
  {
    forall i | 0 <= i < |chain|
      ensures HoldsPage(s.run, chain[i].f, isOut)
      ensures Follow(Entries(StreamOf(s.run, isOut)), StartOf(s.run, chain[i].f, isOut),
                     PageIn(chain[i].f, isOut).chunks)
      ensures PageIn(chain[i].f, isOut).next
           == StartOf(s.run, chain[i].f, isOut) + |PageIn(chain[i].f, isOut).chunks|
    {
      AnsweredHoldsPage(s, chain[i].c, chain[i].f, isOut);
      PageFollows(s.run, chain[i].f, isOut);
    }
  }

  lemma NoGapFurther(whole: seq<Chunk>, published: nat, start: nat, pages: seq<Chunk>,
      a: nat, upTo: nat, got: seq<Chunk>, all: bool)
    requires Follow(whole, start, pages) && a == start + |pages| && NoGap(whole, published, a, upTo, got, all)
    ensures NoGap(whole, published, start, upTo, pages + got, all)
  {
    FollowOn(whole, start, pages, got);
  }

  /** All that the client has is the stream without a gap. */
  ghost predicate ChainNoGap(s: Daemon, chain: seq<Link>, t: nat, isOut: bool)
    requires IsReadChain(s, chain, t, isOut)
  {
    var first, last, stream := chain[0], chain[|chain| - 1], StreamOf(s.run, isOut);
    NoGap(Entries(stream), |PublishedTexts(stream)|, StartOf(s.run, first.f, isOut), UpTo(last.f, isOut),
          AllGot(s, chain, t, isOut), Served(s, last.c) && t == |s.conns[last.c].sent|)
  }

  lemma ChainPages(s: Daemon, chain: seq<Link>, isOut: bool)
    requires Inv(s) && IsChain(s, chain, isOut)
    ensures var front, first, last := chain[..|chain| - 1], chain[0].f, chain[|chain| - 1].f;
            && Follow(Entries(StreamOf(s.run, isOut)), StartOf(s.run, first, isOut), Written(PagesIn(isOut), front))
            && StartOf(s.run, first, isOut) + |Written(PagesIn(isOut), front)| == StartOf(s.run, last, isOut)
  {
    ChainIsLinked(s, chain, isOut);
    PagesJoin(Entries(StreamOf(s.run, isOut)), StartsIn(s.run, isOut), PagesIn(isOut), chain);
  }

  lemma LastIsAnswered(s: Daemon, chain: seq<Link>, t: nat, isOut: bool)
    requires IsReadChain(s, chain, t, isOut)
    ensures var last := chain[|chain| - 1];
            Answered(s, last.c, last.f) && t <= |s.conns[last.c].sent| && PageIn(last.f, isOut).complete
  {
  }

  lemma ChainHasNoGap(s: Daemon, chain: seq<Link>, t: nat, isOut: bool)
    requires Inv(s) && IsReadChain(s, chain, t, isOut)
    ensures ChainNoGap(s, chain, t, isOut)
  {
    ChainPages(s, chain, isOut);
    LastIsAnswered(s, chain, t, isOut);
    GotHasNoGap(s, chain[|chain| - 1].c, chain[|chain| - 1].f, t, isOut);
    PagesAndRest(s, chain, t, isOut);
  }

  lemma PagesAndRest(s: Daemon, chain: seq<Link>, t: nat, isOut: bool)
    requires IsReadChain(s, chain, t, isOut)
    requires var front, first, last := chain[..|chain| - 1], chain[0].f, chain[|chain| - 1].f;
             && Follow(Entries(StreamOf(s.run, isOut)), StartOf(s.run, first, isOut), Written(PagesIn(isOut), front))
             && StartOf(s.run, first, isOut) + |Written(PagesIn(isOut), front)| == StartOf(s.run, last, isOut)
    requires var last, stream := chain[|chain| - 1], StreamOf(s.run, isOut);
             NoGap(Entries(stream), |PublishedTexts(stream)|, StartOf(s.run, last.f, isOut), UpTo(last.f, isOut),
                   Got(s, last.c, last.f, t, isOut), Served(s, last.c) && t == |s.conns[last.c].sent|)
    ensures ChainNoGap(s, chain, t, isOut)
  {
    var last, stream := chain[|chain| - 1], StreamOf(s.run, isOut);
    NoGapFurther(Entries(stream), |PublishedTexts(stream)|, StartOf(s.run, chain[0].f, isOut),
                 Written(PagesIn(isOut), chain[..|chain| - 1]), StartOf(s.run, last.f, isOut), UpTo(last.f, isOut),
                 Got(s, last.c, last.f, t, isOut), Served(s, last.c) && t == |s.conns[last.c].sent|);
  }

  /** However many pages it takes, and on however many connections: all pages and the events beyond the last of
      them are the stream without a gap. */
  lemma NoGapOverPages(run: Run, steps: seq<Step>, chain: seq<Link>, t: nat, isOut: bool)
    requires run == NEW_RUN || run == FAILED_RUN
    requires IsReadChain(Walk(Opened(run), steps), chain, t, isOut)
    ensures ChainNoGap(Walk(Opened(run), steps), chain, t, isOut)
  {
    NewRunsAreOrderly([]);
    WalkKeepsInv(Opened(run), steps);
    ChainHasNoGap(Walk(Opened(run), steps), chain, t, isOut);
  }

  /** The first answer of `next` was asked for from where `chain` had got to, and needs no reset. */
  predicate GoesOnFrom(s: Daemon, chain: seq<Link>, t: nat, next: seq<Link>, isOut: bool)
    requires IsReadChain(s, chain, t, isOut) && next != [] && next[0].f.ReplyFrame?
  {
    && AskedAfter(next[0].f, isOut) == StartOf(s.run, chain[0].f, isOut) + |AllGot(s, chain, t, isOut)|
    && !PageIn(next[0].f, isOut).resetRequired
  }

  lemma ChainFollows(s: Daemon, chain: seq<Link>, t: nat, isOut: bool)
    requires Inv(s) && IsReadChain(s, chain, t, isOut)
    ensures Follow(Entries(StreamOf(s.run, isOut)), StartOf(s.run, chain[0].f, isOut), AllGot(s, chain, t, isOut))
    ensures !PageIn(chain[0].f, isOut).resetRequired ==>
            StartOf(s.run, chain[0].f, isOut) == AskedAfter(chain[0].f, isOut)
  {
    ChainHasNoGap(s, chain, t, isOut);
    AnsweredHoldsPage(s, chain[0].c, chain[0].f, isOut);
  }

  lemma ChainsJoin(s: Daemon, chain: seq<Link>, t: nat, next: seq<Link>, u: nat, isOut: bool)
    requires IsReadChain(s, chain, t, isOut) && IsReadChain(s, next, u, isOut)
    requires GoesOnFrom(s, chain, t, next, isOut)
    requires var whole := Entries(StreamOf(s.run, isOut));
             && Follow(whole, StartOf(s.run, chain[0].f, isOut), AllGot(s, chain, t, isOut))
             && Follow(whole, StartOf(s.run, next[0].f, isOut), AllGot(s, next, u, isOut))
             && StartOf(s.run, next[0].f, isOut) == AskedAfter(next[0].f, isOut)
    ensures Follow(Entries(StreamOf(s.run, isOut)), StartOf(s.run, chain[0].f, isOut),
                   AllGot(s, chain, t, isOut) + AllGot(s, next, u, isOut))
  {
    FollowOn(Entries(StreamOf(s.run, isOut)), StartOf(s.run, chain[0].f, isOut), AllGot(s, chain, t, isOut),
             AllGot(s, next, u, isOut));
  }

  /** A client that loses its connections and attaches on others from where it had got to has missed nothing, unless
      a reset tells it so. */
  lemma ReconnectMissesNothing(run: Run, steps: seq<Step>, chain: seq<Link>, t: nat, next: seq<Link>, u: nat,
      isOut: bool)
    requires run == NEW_RUN || run == FAILED_RUN
    requires var s := Walk(Opened(run), steps);
             && IsReadChain(s, chain, t, isOut) && IsReadChain(s, next, u, isOut)
             && GoesOnFrom(s, chain, t, next, isOut)
    ensures var s := Walk(Opened(run), steps);
            Follow(Entries(StreamOf(s.run, isOut)), StartOf(s.run, chain[0].f, isOut),
                   AllGot(s, chain, t, isOut) + AllGot(s, next, u, isOut))
  {
    NewRunsAreOrderly([]);
    WalkKeepsInv(Opened(run), steps);
    ChainFollows(Walk(Opened(run), steps), chain, t, isOut);
    ChainFollows(Walk(Opened(run), steps), next, u, isOut);
    ChainsJoin(Walk(Opened(run), steps), chain, t, next, u, isOut);
  }

  /** A client gets the events of a run in the order they were published, from its authentication on, and all of
      them while it is served: numbered without a gap for each stream, and Exit once and last. */
  lemma EventsInOrder(run: Run, steps: seq<Step>, c: ConnId)
    requires run == NEW_RUN || run == FAILED_RUN
    requires c in Walk(Opened(run), steps).conns && Walk(Opened(run), steps).conns[c].since.Some?
    ensures var s := Walk(Opened(run), steps); var since, sent := s.conns[c].since.value, s.conns[c].sent;
            && RunOk(s.run) && since <= |s.run.published| && EventsIn(sent) <= s.run.published[since..]
            && (Served(s, c) ==> EventsIn(sent) == s.run.published[since..])
  {
    NewRunsAreOrderly([]);
    WalkKeepsInv(Opened(run), steps);
    var s := Walk(Opened(run), steps);
    assert ConnOk(s.run, Served(s, c), s.conns[c]);
  }

  // ---- The hub, and answers -------------------------------------------------------------------------------------

  /** Every client is a connection, and nothing has been taken that was not queued. */
  predicate Known(s: Daemon) {
    (forall c | c in s.clients :: c in s.conns) && forall c | c in s.conns :: s.conns[c].taken <= |s.conns[c].sent|
  }

  lemma {:induction false} WalkKeepsKnown(s: Daemon, steps: seq<Step>)
    requires Known(s)
    ensures Known(Walk(s, steps))
    decreases |steps|
  {
    if steps != [] {
      StepKeepsKnown(s, steps[0]);
      WalkKeepsKnown(NextDaemon(s, steps[0]), steps[1..]);
    }
  }

  lemma StepKeepsKnown(s: Daemon, a: Step)
    requires Known(s)
    ensures Known(NextDaemon(s, a))
  {
  }

  function ViewAll(conns: map<ConnId, Conn>): map<ConnId, Hub.Conn<Frame>> {
    map c | c in conns :: View(conns[c])
  }

  lemma DeliveredAsInHub(conn: Conn, f: Frame)
    requires conn.taken <= |conn.sent|
    ensures View(Delivered(conn, f)) == Hub.Served(View(conn), f, Hub.STRUCTURED_DAEMON)
  {
    assert (conn.sent + [f])[conn.taken..] == conn.sent[conn.taken..] + [f];
  }

  lemma DeliveredAllAsInHub(conns: map<ConnId, Conn>, ids: seq<ConnId>, clients: set<ConnId>, f: Frame)
    requires (forall c :: c in ids <==> c in clients) && forall c | c in conns :: conns[c].taken <= |conns[c].sent|
    ensures ViewAll(DeliveredAll(conns, clients, f))
         == Hub.ServedAll(ViewAll(conns), ids, f, Hub.STRUCTURED_DAEMON)
  {
    forall c | c in conns ensures View(Delivered(conns[c], f)) == Hub.Served(View(conns[c]), f, Hub.STRUCTURED_DAEMON) {
      DeliveredAsInHub(conns[c], f);
    }
  }

  lemma PublishStep(s: Daemon, act: RunAction)
    requires RunEnabled(s.run, act) && |RunApply(s.run, act).published| > |s.run.published|
    ensures var t, r := NextDaemon(s, OfRun(act)), RunApply(s.run, act);
            && t.run == r && t.conns == DeliveredAll(s.conns, s.clients, EventFrame(r.published[|r.published| - 1]))
            && t.clients == set c | c in s.clients && c in s.conns && !(s.conns[c].authed && !Takes(s.conns[c]))
  {
  }

  lemma PublishesFrom(s: Daemon, act: RunAction, ids: seq<ConnId>)
    requires Known(s) && RunEnabled(s.run, act) && |RunApply(s.run, act).published| > |s.run.published|
    requires forall c :: c in ids <==> c in s.clients
    ensures var t := NextDaemon(s, OfRun(act));
            && t.run == RunApply(s.run, act)
            && ViewAll(t.conns) == Hub.ServedAll(ViewAll(s.conns), ids,
                                                 EventFrame(t.run.published[|t.run.published| - 1]),
                                                 Hub.STRUCTURED_DAEMON)
            && forall c :: c in t.clients <==> c in Hub.Fast(ViewAll(s.conns), ids, Hub.STRUCTURED_DAEMON)
  {
    var t := NextDaemon(s, OfRun(act));
    PublishStep(s, act);
    DeliveredAllAsInHub(s.conns, ids, s.clients, EventFrame(t.run.published[|t.run.published| - 1]));
    forall c ensures c in t.clients <==> c in Hub.Fast(ViewAll(s.conns), ids, Hub.STRUCTURED_DAEMON) {
      StaysAsInHub(s, ids, c);
    }
  }

  /** Publishing serves and drops every client as the one pass of the hub does on its own. */
  lemma PublishIsTheHubs(run: Run, steps: seq<Step>, act: RunAction, ids: seq<ConnId>)
    requires var s := Walk(Opened(run), steps);
             && RunEnabled(s.run, act) && |RunApply(s.run, act).published| > |s.run.published|
             && forall c :: c in ids <==> c in s.clients
    ensures var s := Walk(Opened(run), steps); var t := NextDaemon(s, OfRun(act));
            && t.run == RunApply(s.run, act)
            && ViewAll(t.conns) == Hub.ServedAll(ViewAll(s.conns), ids,
                                                 EventFrame(t.run.published[|t.run.published| - 1]),
                                                 Hub.STRUCTURED_DAEMON)
            && forall c :: c in t.clients <==> c in Hub.Fast(ViewAll(s.conns), ids, Hub.STRUCTURED_DAEMON)
  {
    WalkKeepsKnown(Opened(run), steps);
    PublishesFrom(Walk(Opened(run), steps), act, ids);
  }

  lemma StaysAsInHub(s: Daemon, ids: seq<ConnId>, c: ConnId)
    requires Known(s) && (c in ids <==> c in s.clients)
    ensures c in Hub.Fast(ViewAll(s.conns), ids, Hub.STRUCTURED_DAEMON) <==>
            c in s.clients && !(s.conns[c].authed && !Takes(s.conns[c]))
  {
    Hub.KeepsExactly(ids, |ids|, Hub.IsSlow(ViewAll(s.conns), Hub.STRUCTURED_DAEMON), c);
    assert ids[..|ids|] == ids;
  }

  /** What is in a queue stays there, in its place. */
  lemma QueueGrows(s: Daemon, a: Step, c: ConnId)
    requires c in s.conns
    ensures c in NextDaemon(s, a).conns && s.conns[c].sent <= NextDaemon(s, a).conns[c].sent
  {
  }

  /** An answer waits for its connection unless that ends, whatever else happens. */
  lemma AnswerWaits(s: Daemon, a: Step, c: ConnId, f: Frame)
    requires c in s.conns && s.conns[c].answer == Some(f) && a != Respond(c) && a != End(c)
    ensures c in NextDaemon(s, a).conns && NextDaemon(s, a).conns[c].answer == Some(f)
  {
  }

  /** It is queued as it was read. */
  lemma AnswerIsQueued(s: Daemon, c: ConnId, f: Frame)
    requires c in s.conns && s.conns[c].answer == Some(f)
    ensures CanStep(s, Respond(c)) <==> Takes(s.conns[c])
    ensures CanStep(s, Respond(c)) ==>
              NextDaemon(s, Respond(c))
              == s.(conns := s.conns[c := s.conns[c].(sent := s.conns[c].sent + [f], answer := None)])
  {
  }

  /** The logs of the run as they are. */
  function ReplyNow(run: Run, afterOut: nat, afterErr: nat, maxBytes: Option<nat>): Frame {
    var out, err := run.stdout.texts, run.stderr.texts;
    ReplyFrame(afterOut, afterErr, maxBytes, |out|, |err|,
               AttachTo(LogOf(out), LogOf(err), afterOut, afterErr, maxBytes))
  }

  lemma WalkTwo(s: Daemon, a: Step, b: Step)
    ensures Walk(s, [a, b]) == NextDaemon(NextDaemon(s, a), b)
  {
    assert [a, b][1..] == [b] && [b][1..] == [];
    assert Walk(s, [a, b]) == Walk(NextDaemon(s, a), [b]);
    assert Walk(NextDaemon(s, a), [b]) == Walk(NextDaemon(NextDaemon(s, a), b), []);
  }

  function FreshConn(run: Run): Conn {
    Conn(true, false, false, Some(|run.published|), [], 0, None)
  }

  lemma ClientConnects(s: Daemon, c: ConnId)
    requires c !in s.conns
    ensures Walk(s, [Connect(c), Authenticate(c)])
         == s.(conns := s.conns[c := FreshConn(s.run)], clients := s.clients + {c})
  {
    WalkTwo(s, Connect(c), Authenticate(c));
  }

  /** A client that has connected, authenticated and attaches is answered with the logs of that moment. */
  lemma AttachIsAnswered(s: Daemon, c: ConnId, afterOut: nat, afterErr: nat, maxBytes: Option<nat>)
    requires c in s.conns && s.conns[c] == FreshConn(s.run)
    ensures Walk(s, [AttachRead(c, afterOut, afterErr, maxBytes), Respond(c)])
         == s.(conns := s.conns[c := FreshConn(s.run).(sent := [ReplyNow(s.run, afterOut, afterErr, maxBytes)])])
  {
    var f := ReplyNow(s.run, afterOut, afterErr, maxBytes);
    WalkTwo(s, AttachRead(c, afterOut, afterErr, maxBytes), Respond(c));
    var t := NextDaemon(s, AttachRead(c, afterOut, afterErr, maxBytes));
    assert t == s.(conns := s.conns[c := FreshConn(s.run).(answer := Some(f))]);
    AnswerIsQueued(t, c, f);
    assert [] + [f] == [f];
  }

  /** All along the way the client's queue is read and has room for one more frame, and the connection does not end. */
  predicate RoomAlong(s: Daemon, steps: seq<Step>, c: ConnId)
    decreases |steps|
  {
    && c in s.conns && !s.conns[c].gone && |View(s.conns[c]).queue| < 256
    && (steps != [] ==> steps[0] != End(c) && RoomAlong(NextDaemon(s, steps[0]), steps[1..], c))
  }

  lemma StaysOpen(s: Daemon, a: Step, c: ConnId)
    requires c in s.conns && c in s.clients && !s.conns[c].closed && Takes(s.conns[c]) && a != End(c)
    ensures var t := NextDaemon(s, a); c in t.conns && c in t.clients && !t.conns[c].closed
  {
  }

  /** Such a client is never dropped. */
  lemma {:induction false} OnlySlowAreDropped(s: Daemon, steps: seq<Step>, c: ConnId)
    requires c in s.conns && c in s.clients && !s.conns[c].closed && RoomAlong(s, steps, c)
    ensures var t := Walk(s, steps); c in t.conns && c in t.clients && !t.conns[c].closed
    decreases |steps|
  {
    if steps != [] {
      StaysOpen(s, steps[0], c);
      OnlySlowAreDropped(NextDaemon(s, steps[0]), steps[1..], c);
    }
  }
}
