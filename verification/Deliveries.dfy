/** What clients of a session are sure to get. */
module Deliveries {
  import opened Options
  import Scanner
  import Utf8
  import opened Bounds
  import opened Resume
  import opened Broadcasts

  // ---- Nothing that is appended or queued is lost ------------------------------------------------------------

  function AppendIn(s: State, a: Action): seq<Utf8.Text> {
    if Enabled(s, a) && a.AppendText? then [a.data] else []
  }

  /** The texts that the reader appends along the way. */
  function AppendsIn(s: State, actions: seq<Action>): seq<Utf8.Text>
    decreases |actions|
  {
    if actions == [] then [] else AppendIn(s, actions[0]) + AppendsIn(Next(s, actions[0]), actions[1..])
  }

  lemma JournalStep(s: State, a: Action)
    ensures Next(s, a).journal == s.journal + AppendIn(s, a)
  {
  }

  /** The journal is what has been appended, in order. */
  lemma {:induction false} JournalIsAppends(s: State, actions: seq<Action>)
    ensures Run(s, actions).journal == s.journal + AppendsIn(s, actions)
    decreases |actions|
  {
    if actions == [] {
      assert s.journal + [] == s.journal;
    } else {
      var next := Next(s, actions[0]);
      JournalStep(s, actions[0]);
      JournalIsAppends(next, actions[1..]);
      Scanner.Associates(s.journal, AppendIn(s, actions[0]), AppendsIn(next, actions[1..]));
    }
  }

  lemma QueueGrows(s: State, a: Action, c: Id)
    requires c in s.conns
    ensures c in Next(s, a).conns && s.conns[c].sent <= Next(s, a).conns[c].sent
  {
  }

  /** What is in a queue stays there, in its place. */
  lemma {:induction false} QueuesOnlyGrow(s: State, actions: seq<Action>, c: Id)
    requires c in s.conns
    ensures c in Run(s, actions).conns && s.conns[c].sent <= Run(s, actions).conns[c].sent
    decreases |actions|
  {
    if actions != [] {
      QueueGrows(s, actions[0], c);
      QueuesOnlyGrow(Next(s, actions[0]), actions[1..], c);
    }
  }

  // ---- An attach is answered ------------------------------------------------------------------------------------

  /** What makes an answer go: it is queued, or an error is in its place, or the connection is closed. */
  predicate AnswerGoes(s: State, a: Action, c: Id) {
    Enabled(s, a) && (a == Respond(c) || a == FailAnswer(c) || (a == GiveUpAnswer(c) && s.conns[c].closed))
  }

  /** An answer waits for its connection, whatever else happens; `AnswerIsQueued` says what becomes of it. */
  lemma AnswerWaits(s: State, a: Action, c: Id, f: Frame)
    requires c in s.conns && s.conns[c].answer == Some(f)
    ensures !AnswerGoes(s, a, c) ==> c in Next(s, a).conns && Next(s, a).conns[c].answer == Some(f)
  {
  }

  lemma AnswerIsQueued(s: State, c: Id, f: Frame)
    requires c in s.conns && s.conns[c].answer == Some(f)
    ensures Enabled(s, Respond(c)) <==> |s.conns[c].sent| < s.conns[c].taken + 1024
    ensures Enabled(s, Respond(c)) ==>
              Next(s, Respond(c))
              == s.(conns := s.conns[c := s.conns[c].(sent := s.conns[c].sent + [f], answer := None)])
  {
  }

  lemma AnswerIsRead(s: State, c: Id, after: nat)
    requires c in s.conns && s.conns[c] == Fresh(|s.journal|, [])
    ensures var f := ReplyFrame(after, |s.journal|, Newer(WindowOf(s.journal), after));
            Next(s, AttachRead(c, after)) == s.(conns := s.conns[c := Fresh(|s.journal|, []).(answer := Some(f))])
  {
  }

  /** A client that connects, authenticates and attaches is answered with the state of that moment. */
  lemma AttachIsAnswered(s: State, c: Id, after: nat)
    requires c !in s.conns
    ensures var t := Run(s, [Connect(c), Authenticate(c), AttachRead(c, after), Respond(c)]);
            var f := ReplyFrame(after, |s.journal|, Newer(WindowOf(s.journal), after));
            && t.journal == s.journal && c in t.clients && c in t.conns
            && t.conns[c] == Conn(true, false, |s.journal|, [f], 0, None)
  {
    var f := ReplyFrame(after, |s.journal|, Newer(WindowOf(s.journal), after));
    ClientConnects(s, c);
    var t := Run(s, [Connect(c), Authenticate(c)]);
    RunTwo(t, AttachRead(c, after), Respond(c));
    AnswerIsRead(t, c, after);
    AnswerIsQueued(Next(t, AttachRead(c, after)), c, f);
    RunSplit(s, [Connect(c), Authenticate(c)], [AttachRead(c, after), Respond(c)]);
    assert [Connect(c), Authenticate(c)] + [AttachRead(c, after), Respond(c)]
        == [Connect(c), Authenticate(c), AttachRead(c, after), Respond(c)];
    assert [] + [f] == [f];
  }

  // ---- Exit reaches everybody ------------------------------------------------------------------------------------

  /** The client has Exit in its queue, or is closed, or the exit thread is not past it. */
  predicate ExitSeen(s: State, c: Id) {
    && c in s.conns && s.conns[c].authed
    && match s.exit
       case Announcing(_, cast) => ExitFrame in s.conns[c].sent || s.conns[c].closed || c in cast.todo + cast.slow
       case Finished(_) => ExitFrame in s.conns[c].sent || s.conns[c].closed
       case _ => false
  }

  lemma OfferKeepsSeen(s: State, d: Id, queued: bool, c: Id)
    requires ExitSeen(s, c) && Enabled(s, OfferExit(d, queued))
    ensures ExitSeen(Apply(s, OfferExit(d, queued)), c)
  {
    if d == c && queued {
      assert (s.conns[c].sent + [ExitFrame])[|s.conns[c].sent|] == ExitFrame;
    }
  }

  lemma CastEndKeepsSeen(s: State, a: Action, c: Id)
    requires ExitSeen(s, c) && Enabled(s, a) && (a.DropSlowExit? || a.EndExit?)
    ensures ExitSeen(Apply(s, a), c)
  {
  }

  lemma OtherKeepsSeen(s: State, a: Action, c: Id)
    requires ExitSeen(s, c) && Enabled(s, a) && !a.OfferExit? && !a.DropSlowExit? && !a.EndExit?
    ensures ExitSeen(Apply(s, a), c)
  {
    var t := Apply(s, a);
    QueueGrows(s, a, c);
    assert t.exit == s.exit && t.conns[c].authed && (s.conns[c].closed ==> t.conns[c].closed);
  }

  lemma {:induction false} SeenStays(s: State, actions: seq<Action>, c: Id)
    requires ExitSeen(s, c)
    ensures ExitSeen(Run(s, actions), c)
    decreases |actions|
  {
    if actions != [] {
      var a := actions[0];
      if Enabled(s, a) {
        if a.OfferExit? {
          OfferKeepsSeen(s, a.c, a.queued, c);
        } else if a.DropSlowExit? || a.EndExit? {
          CastEndKeepsSeen(s, a, c);
        } else {
          OtherKeepsSeen(s, a, c);
        }
      }
      SeenStays(Next(s, a), actions[1..], c);
    }
  }

  /** Once the exit thread is finished, every client that had authenticated when it began to announce the exit has
      got Exit, or has been closed. */
  lemma ExitReachesAll(actions: seq<Action>, later: seq<Action>, c: Id)
    requires var s := Run(START, actions);
             Enabled(s, BeginExit) && c in s.clients && c in s.conns && s.conns[c].authed
    ensures var t := Run(Next(Run(START, actions), BeginExit), later);
            t.exit.Finished? ==> c in t.conns && (ExitFrame in t.conns[c].sent || t.conns[c].closed)
  {
    var s := Run(START, actions);
    assert ExitSeen(Next(s, BeginExit), c);
    SeenStays(Next(s, BeginExit), later, c);
  }

  // ---- A retired session is silent -------------------------------------------------------------------------------

  lemma RetiredStep(s: State, a: Action)
    requires s.retired
    ensures var t := Next(s, a);
            && t.retired && (t.reader.Checked? ==> s.reader.Checked? && AppendIn(s, a) == [])
            && (AppendIn(s, a) != [] ==> s.reader.Checked? && |AppendIn(s, a)| == 1)
  {
  }

  /** Once a session is retired its reader appends nothing any more, but for a text whose check has come before. */
  lemma {:induction false} RetiredAppendsNoMore(s: State, actions: seq<Action>)
    requires s.retired
    ensures |AppendsIn(s, actions)| <= if s.reader.Checked? then 1 else 0
    decreases |actions|
  {
    if actions != [] {
      RetiredStep(s, actions[0]);
      RetiredAppendsNoMore(Next(s, actions[0]), actions[1..]);
    }
  }

  predicate ExitNotBegun(s: State) {
    s.exit.Waiting? || s.exit.StatusSet? || s.exit.ReaderAwaited?
  }

  lemma {:induction false} NeverBegins(s: State, actions: seq<Action>)
    requires s.retired && ExitNotBegun(s)
    ensures ExitNotBegun(Run(s, actions))
    decreases |actions|
  {
    if actions != [] {
      NeverBegins(Next(s, actions[0]), actions[1..]);
    }
  }

  /** A session that is retired before its exit is announced appends no more than one text, and nobody ever gets
      Exit. */
  lemma RetiredIsSilent(actions: seq<Action>, later: seq<Action>)
    ensures var s := Next(Run(START, actions), Retire); var t := Run(s, later);
            && s.retired && |t.journal| <= |s.journal| + (if s.reader.Checked? then 1 else 0)
            && (ExitNotBegun(s) ==> forall c | c in t.conns :: ExitFrame !in t.conns[c].sent)
  {
    var s := Next(Run(START, actions), Retire);
    JournalIsAppends(s, later);
    RetiredAppendsNoMore(s, later);
    StartHasNoExit();
    RunKeepsExitInv(START, actions);
    NextKeepsExitInv(Run(START, actions), Retire);
    RunKeepsExitInv(s, later);
    if ExitNotBegun(s) {
      NeverBegins(s, later);
      NobodyGotExit(Run(s, later));
    }
  }

  lemma NobodyGotExit(s: State)
    requires ExitInv(s) && ExitNotBegun(s)
    ensures forall c | c in s.conns :: ExitFrame !in s.conns[c].sent
  {
    forall c | c in s.conns ensures ExitFrame !in s.conns[c].sent {
      assert ExitOk(ExitToCome(s, c), TimedOut(s), s.conns[c]);
    }
  }

  lemma StartHasNoExit()
    ensures ExitInv(START)
  {
  }

  // ---- Only the slow are dropped -----------------------------------------------------------------------------------

  /** All along the way the client's queue has room for one more frame, and nobody closes the connection. */
  predicate RoomAlong(s: State, actions: seq<Action>, c: Id)
    decreases |actions|
  {
    && c in s.conns && |s.conns[c].sent| < s.conns[c].taken + 1024
    && (actions != [] ==> actions[0] != Close(c) && RoomAlong(Next(s, actions[0]), actions[1..], c))
  }

  /** The client is open, and no broadcast has found it slow. */
  predicate Unharmed(s: State, c: Id) {
    && c in s.conns && !s.conns[c].closed
    && (s.reader.Publishing? ==> c !in s.reader.cast.slow) && (s.exit.Announcing? ==> c !in s.exit.cast.slow)
  }

  lemma UnharmedNext(s: State, a: Action, c: Id)
    requires Unharmed(s, c) && HasRoom(s.conns[c]) && a != Close(c)
    ensures Unharmed(Next(s, a), c)
  {
    if Enabled(s, a) {
      if a.Offer? || a.OfferExit? || a.DropSlow? || a.DropSlowExit? {
        UnharmedByCast(s, a, c);
      } else {
        UnharmedByOthers(s, a, c);
      }
    }
  }

  lemma UnharmedByCast(s: State, a: Action, c: Id)
    requires Unharmed(s, c) && HasRoom(s.conns[c]) && Enabled(s, a)
    requires a.Offer? || a.OfferExit? || a.DropSlow? || a.DropSlowExit?
    ensures Unharmed(Apply(s, a), c)
  {
  }

  lemma UnharmedByOthers(s: State, a: Action, c: Id)
    requires Unharmed(s, c) && a != Close(c) && Enabled(s, a)
    requires !a.Offer? && !a.OfferExit? && !a.DropSlow? && !a.DropSlowExit?
    ensures Unharmed(Apply(s, a), c)
  {
  }

  /** A client whose queue always has room is never dropped by a broadcast. */
  lemma {:induction false} OnlySlowAreDropped(s: State, actions: seq<Action>, c: Id)
    requires Unharmed(s, c) && RoomAlong(s, actions, c)
    ensures Unharmed(Run(s, actions), c)
    decreases |actions|
  {
    if actions != [] {
      UnharmedNext(s, actions[0], c);
      OnlySlowAreDropped(Next(s, actions[0]), actions[1..], c);
    }
  }
}
