/** When a session takes a checkpoint, and when it gives its screen up. */
module CacheSteps {
  import opened Options
  import opened Scanner
  import opened Utf8
  import opened ListSnapshot
  import opened Terminal
  import opened Session
  import opened SnapshotCache

  // ---- The timer ------------------------------------------------------------------------------------------

  /** When the last text that shows anything arrived, from the inputs alone. */
  ghost function LastShown<S>(m: Option<Marking>, inputs: seq<Input<S>>): Option<nat>
    requires MarkingOk(m)
    decreases |inputs|
  {
    if inputs == [] then None
    else
      var input := inputs[0];
      var later := LastShown(if input.Append? then MarkedAfter(m, input.data) else m, inputs[1..]);
      if later.Some? then later
      else if input.Append? && VisibleOf(m, input.data) != [] then Some(input.now)
      else None
  }

  lemma WrittenWhenShown<S>(vt: Vt<S>, c: Core<S>, input: Input<S>)
    requires MarkingOk(c.journal.marking) && Good(vt, c.cache) && Transition(vt, c, input).cache.valid
    ensures Transition(vt, c, input).cache.lastWriteAt
         == if input.Append? && VisibleOf(c.journal.marking, input.data) != [] then Some(input.now)
            else c.cache.lastWriteAt
  {
  }

  lemma LastShownFromNext<S>(vt: Vt<S>, c: Core<S>, inputs: seq<Input<S>>)
    requires MarkingOk(c.journal.marking) && inputs != []
    ensures var later := LastShown(Transition(vt, c, inputs[0]).journal.marking, inputs[1..]);
            LastShown(c.journal.marking, inputs)
            == if later.Some? then later
               else if inputs[0].Append? && VisibleOf(c.journal.marking, inputs[0].data) != [] then Some(inputs[0].now)
               else None
  {
  }

  lemma {:induction false} LastWriteIsLastShown<S>(vt: Vt<S>, c: Core<S>, inputs: seq<Input<S>>)
    requires MarkingOk(c.journal.marking) && Good(vt, c.cache) && AfterAll(vt, c, inputs).cache.valid
    ensures var last := LastShown(c.journal.marking, inputs);
            AfterAll(vt, c, inputs).cache.lastWriteAt == if last.Some? then last else c.cache.lastWriteAt
    decreases |inputs|
  {
    if inputs != [] {
      var next := Transition(vt, c, inputs[0]);
      TransitionIsGood(vt, c, inputs[0]);
      FirstOfInputs(vt, c, inputs);
      ValidBefore(vt, next, inputs[1..]);
      WrittenWhenShown(vt, c, inputs[0]);
      LastShownFromNext(vt, c, inputs);
      LastWriteIsLastShown(vt, next, inputs[1..]);
    }
  }

  /** Nothing has been shown for 100 ms. */
  ghost predicate Quiet<S>(marking: Option<Marking>, inputs: seq<Input<S>>, now: nat)
    requires MarkingOk(marking)
  {
    var last := LastShown(marking, inputs);
    last.Some? ==> now >= last.value + 100
  }

  /** The timer does nothing unless something is pending and nothing has been shown for 100 ms; then it takes a
      checkpoint. */
  lemma TimerWaits<S>(vt: Vt<S>, cols: nat, rows: nat, marking: Option<Marking>, fails: bool, inputs: seq<Input<S>>,
      now: nat)
    requires MarkingOk(marking)
    ensures var c := AfterAll(vt, Start(vt, cols, rows, marking, fails), inputs);
            var d := Transition(vt, c, Refresh(now, false));
            c.cache.valid ==>
              if c.cache.pending != [] && Quiet(marking, inputs, now) then
                d.cache.pending == [] && d.cache.baseline == Baseline(vt, c.cache.screen, c.cache.autowrap)
              else d == c
  {
    var start := Start(vt, cols, rows, marking, fails);
    EveryStateIsGood(vt, cols, rows, marking, fails, inputs);
    EveryStateIsGood(vt, cols, rows, marking, fails, []);
    if AfterAll(vt, start, inputs).cache.valid {
      LastWriteIsLastShown(vt, start, inputs);
    }
  }

  // ---- The budget -------------------------------------------------------------------------------------------

  /** Text that shows is pending as long as it stays within the budget, and in the baseline otherwise. */
  lemma AppendPendsWithinBudget<S>(vt: Vt<S>, c: Core<S>, data: Text, now: nat)
    requires MarkingOk(c.journal.marking) && Good(vt, c.cache) && c.cache.valid
    requires VisibleOf(c.journal.marking, data) != []
    ensures var visible := VisibleOf(c.journal.marking, data);
            var k, pending := Transition(vt, c, Append(data, now, None, false)).cache, Push(c.cache.pending, visible);
            && k.valid && k.screen == vt.process(c.cache.screen, Encode(visible))
            && if CharsIn(c.cache.pending) + |visible| <= 256 * 1024 && |pending| <= 1024
               then k.pending == pending && k.baseline == c.cache.baseline
               else k.pending == [] && k.baseline == Baseline(vt, k.screen, k.autowrap)
  {
  }

  // ---- Faults -------------------------------------------------------------------------------------------------

  /** The call into the terminal library that this input leads to fails. */
  ghost predicate Strikes<S>(vt: Vt<S>, c: Core<S>, input: Input<S>)
    requires MarkingOk(c.journal.marking)
  {
    match input
    case Append(data, now, torn, fails) =>
      var visible := VisibleOf(c.journal.marking, data);
      && visible != []
      && (torn.Some? ||
          (fails && (CharsIn(c.cache.pending) + |visible| > 256 * 1024 || |Push(c.cache.pending, visible)| > 1024)))
    case AskResize(cols, rows, torn) => SizeOk(cols, rows) && c.status == Running && torn.Some?
    case Refresh(now, fails) =>
      fails && c.cache.pending != [] && (c.cache.lastWriteAt.Some? ==> now >= c.cache.lastWriteAt.value + 100)
    case ChildExit(_) => false
    case ExitCheckpoint(fails) => fails && c.cache.pending != []
  }

  /** A screen is given up with the first call that fails, and with nothing else. */
  lemma GivenUpWhenStruck<S>(vt: Vt<S>, c: Core<S>, input: Input<S>)
    requires MarkingOk(c.journal.marking) && Good(vt, c.cache) && c.cache.valid
    ensures !Transition(vt, c, input).cache.valid <==> Strikes(vt, c, input)
  {
  }

  /** After these inputs the next one has a call that fails. */
  ghost predicate StrikesAt<S>(vt: Vt<S>, c: Core<S>, inputs: seq<Input<S>>, i: nat)
    requires MarkingOk(c.journal.marking)
  {
    i < |inputs| && Strikes(vt, AfterAll(vt, c, inputs[..i]), inputs[i])
  }

  lemma LaterStrike<S>(vt: Vt<S>, c: Core<S>, inputs: seq<Input<S>>, i: nat)
    requires MarkingOk(c.journal.marking) && inputs != []
    ensures StrikesAt(vt, c, inputs, i + 1) <==> StrikesAt(vt, Transition(vt, c, inputs[0]), inputs[1..], i)
  {
    if i + 1 < |inputs| {
      assert inputs[..i + 1][1..] == inputs[1..][..i];
    }
  }

  ghost predicate NeverStruck<S>(vt: Vt<S>, c: Core<S>, inputs: seq<Input<S>>)
    requires MarkingOk(c.journal.marking)
  {
    forall i: nat :: !StrikesAt(vt, c, inputs, i)
  }

  lemma NeverStruckFromNext<S>(vt: Vt<S>, c: Core<S>, inputs: seq<Input<S>>)
    requires MarkingOk(c.journal.marking) && inputs != []
    ensures NeverStruck(vt, c, inputs) <==>
            !Strikes(vt, c, inputs[0]) && NeverStruck(vt, Transition(vt, c, inputs[0]), inputs[1..])
  {
    var next, rest := Transition(vt, c, inputs[0]), inputs[1..];
    assert inputs[..0] == [];
    assert StrikesAt(vt, c, inputs, 0) <==> Strikes(vt, c, inputs[0]);
    forall i: nat ensures StrikesAt(vt, c, inputs, i + 1) <==> StrikesAt(vt, next, rest, i) {
      LaterStrike(vt, c, inputs, i);
    }
    if !Strikes(vt, c, inputs[0]) && NeverStruck(vt, next, rest) {
      forall i: nat ensures !StrikesAt(vt, c, inputs, i) {
        assert i > 0 ==> !StrikesAt(vt, next, rest, i - 1);
      }
    }
  }

  /** The snapshot is gone exactly if some call has failed since the session was started with a screen. */
  lemma {:induction false} ValidUnlessStruck<S>(vt: Vt<S>, c: Core<S>, inputs: seq<Input<S>>)
    requires MarkingOk(c.journal.marking) && Good(vt, c.cache) && c.cache.valid
    ensures AfterAll(vt, c, inputs).cache.valid <==> NeverStruck(vt, c, inputs)
    decreases |inputs|
  {
    if inputs != [] {
      var next := Transition(vt, c, inputs[0]);
      TransitionIsGood(vt, c, inputs[0]);
      GivenUpWhenStruck(vt, c, inputs[0]);
      NeverStruckFromNext(vt, c, inputs);
      if next.cache.valid {
        ValidUnlessStruck(vt, next, inputs[1..]);
      } else {
        FaultIsForever(vt, next, inputs[1..]);
      }
    }
  }
}
