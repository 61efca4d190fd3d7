/** What a terminal is in the middle of. */
module TerminalParser {
  // The states of a terminal's parser, as far as they say whether a sequence is still open, for the escape
  // sequences of ECMA-35 and the control sequences and strings of ECMA-48: ESC starts a sequence wherever it
  // comes, CAN and SUB abort any, BEL ends an operating system command (as terminals have it) and no other
  // string.  ST is ESC and a reverse solidus, so it needs no rule of its own.  Units are bytes or scalars.

  const ESC := 0x1B
  const BEL := 0x07
  const CAN := 0x18
  const SUB := 0x1A
  const BRACKET := 0x5B
  const BACKSLASH := 0x5C
  const OSC := 0x5D

  /** OSC, DCS, SOS, PM and APC open a string. */
  predicate OpensString(c: int) {
    c == OSC || c == 0x50 || c == 0x58 || c == 0x5E || c == 0x5F
  }

  predicate Aborts(c: int) {
    c == CAN || c == SUB
  }

  predicate IsIntermediate(c: int) {
    0x20 <= c <= 0x2F
  }

  predicate IsBel(c: int) {
    c == BEL
  }

  /** Ends an escape sequence that is no control sequence and no string. */
  predicate IsFinal(c: int) {
    0x30 <= c <= 0x7E
  }

  /** Ends a control sequence. */
  predicate IsControlFinal(c: int) {
    0x40 <= c <= 0x7E
  }

  datatype Mode = Ground | Escape | Intermediate | Control | Command | OtherString

  /** Other controls act at once and leave the parser where it is; what is above 0x7E is ignored in a sequence. */
  function Read(m: Mode, c: int): Mode {
    if c == ESC then Escape
    else if Aborts(c) then Ground
    else
      match m
      case Ground => Ground
      case Escape =>
        if IsIntermediate(c) then Intermediate
        else if c == BRACKET then Control
        else if c == OSC then Command
        else if OpensString(c) then OtherString
        else if IsFinal(c) then Ground
        else Escape
      case Intermediate => if IsFinal(c) then Ground else Intermediate
      case Control => if IsControlFinal(c) then Ground else Control
      case Command => if c == BEL then Ground else Command
      case OtherString => OtherString
  }

  function ReadAll(m: Mode, s: seq<int>): Mode
    decreases |s|
  {
    if s == [] then m else ReadAll(Read(m, s[0]), s[1..])
  }

  /** A terminal that has read `s` is not in the middle of a sequence. */
  predicate Finished(s: seq<int>) {
    ReadAll(Ground, s) == Ground
  }

  lemma {:induction false} ReadAllConcat(m: Mode, a: seq<int>, b: seq<int>)
    ensures ReadAll(m, a + b) == ReadAll(ReadAll(m, a), b)
    decreases |a|
  {
    if a == [] {
      assert a + b == b;
    } else {
      assert (a + b)[1..] == a[1..] + b;
      ReadAllConcat(Read(m, a[0]), a[1..], b);
    }
  }

  lemma ReadSnoc(m: Mode, s: seq<int>, c: int)
    ensures ReadAll(m, s + [c]) == Read(ReadAll(m, s), c)
  {
    ReadAllConcat(m, s, [c]);
    assert [c][1..] == [];
  }

  lemma ReadTwo(m: Mode, a: int, b: int)
    ensures ReadAll(m, [a, b]) == Read(Read(m, a), b)
  {
    assert [a, b][1..] == [b] && [b][1..] == [];
    assert ReadAll(m, [a, b]) == ReadAll(Read(m, a), [b]);
    assert ReadAll(Read(m, a), [b]) == ReadAll(Read(Read(m, a), b), []);
  }

  lemma ReadThree(m: Mode, a: int, b: int, c: int)
    ensures ReadAll(m, [a, b, c]) == Read(Read(Read(m, a), b), c)
  {
    assert [a, b, c][1..] == [b, c];
    ReadTwo(Read(m, a), b, c);
  }

  predicate EscapeFree(s: seq<int>) {
    forall k | 0 <= k < |s| :: s[k] != ESC
  }

  /** Only what comes after the last ESC matters. */
  lemma FromLastEscape(m: Mode, a: seq<int>, b: seq<int>)
    ensures ReadAll(m, a + [ESC] + b) == ReadAll(Escape, b)
  {
    ReadAllConcat(m, a + [ESC], b);
    ReadSnoc(m, a, ESC);
  }

  // ---- When a sequence has been closed, without a machine ---------------------------------------------

  predicate Has(s: seq<int>, from: nat, which: int -> bool) {
    exists k :: from <= k < |s| && which(s[k])
  }

  /** The first unit that counts: neither a control nor above 0x7E. */
  function Counting(s: seq<int>): (p: nat)
    ensures p <= |s| && (p < |s| ==> 0x20 <= s[p] <= 0x7E)
    ensures forall k | 0 <= k < p :: !(0x20 <= s[k] <= 0x7E)
  {
    if s == [] || 0x20 <= s[0] <= 0x7E then 0 else 1 + Counting(s[1..])
  }

  /** What follows ESC, with no other ESC in it, closes the sequence: it is aborted, or the first unit that
      counts is all of it, or what that unit opens is ended. */
  ghost predicate Closes(s: seq<int>) {
    var p := Counting(s);
    || Has(s, 0, Aborts)
    || (p < |s| &&
        if s[p] == BRACKET then Has(s, p + 1, IsControlFinal)
        else if s[p] == OSC then Has(s, p + 1, IsBel)
        else if OpensString(s[p]) then false
        else if IsIntermediate(s[p]) then Has(s, p + 1, IsFinal)
        else true)
  }

  /** The units that end what the parser is in the middle of. */
  function Ends(m: Mode): int -> bool
    requires !m.Ground? && !m.Escape?
  {
    match m
    case Intermediate => IsFinal
    case Control => IsControlFinal
    case Command => IsBel
    case OtherString => (c: int) => false
  }

  lemma {:induction false} GroundStays(s: seq<int>)
    requires EscapeFree(s)
    ensures ReadAll(Ground, s) == Ground
  {
    if s != [] {
      GroundStays(s[1..]);
    }
  }

  lemma HasTail(s: seq<int>, which: int -> bool)
    requires s != []
    ensures Has(s, 0, which) <==> which(s[0]) || Has(s[1..], 0, which)
  {
    if k :| 0 <= k < |s| && which(s[k]) {
      if k > 0 {
        assert s[1..][k - 1] == s[k];
      }
    }
    if k :| 0 <= k < |s[1..]| && which(s[1..][k]) {
      assert s[k + 1] == s[1..][k];
    }
  }

  lemma {:induction false} OpenEnds(m: Mode, s: seq<int>)
    requires EscapeFree(s) && !m.Ground? && !m.Escape?
    ensures ReadAll(m, s) == Ground <==> Has(s, 0, Aborts) || Has(s, 0, Ends(m))
    decreases |s|
  {
    if s != [] {
      HasTail(s, Aborts);
      HasTail(s, Ends(m));
      if Aborts(s[0]) || Ends(m)(s[0]) {
        GroundStays(s[1..]);
      } else {
        OpenEnds(m, s[1..]);
      }
    }
  }

  lemma HasLater(s: seq<int>, from: nat, which: int -> bool)
    requires s != []
    ensures Has(s, from + 1, which) <==> Has(s[1..], from, which)
  {
    assert forall k | 0 <= k < |s| - 1 :: s[1..][k] == s[k + 1];
    if k :| from + 1 <= k < |s| && which(s[k]) {
      assert s[1..][k - 1] == s[k];
    }
    if k :| from <= k < |s[1..]| && which(s[1..][k]) {
      assert s[k + 1] == s[1..][k];
    }
  }

  /** A unit that does not count changes nothing. */
  lemma ClosesLater(s: seq<int>)
    requires s != [] && !(0x20 <= s[0] <= 0x7E) && !Aborts(s[0])
    ensures Closes(s) <==> Closes(s[1..])
  {
    var p := Counting(s[1..]);
    HasTail(s, Aborts);
    if p < |s| - 1 {
      assert s[p + 1] == s[1..][p];
      HasLater(s, p + 1, IsControlFinal);
      HasLater(s, p + 1, IsBel);
      HasLater(s, p + 1, IsFinal);
    }
  }

  lemma ClosesAtOnce(s: seq<int>)
    requires EscapeFree(s) && s != [] && 0x20 <= s[0] <= 0x7E
    ensures ReadAll(Escape, s) == Ground <==> Closes(s)
  {
    var m, rest := Read(Escape, s[0]), s[1..];
    HasTail(s, Aborts);
    if m == Ground {
      GroundStays(rest);
    } else {
      OpenEnds(m, rest);
      HasLater(s, 0, Ends(m));
    }
  }

  /** The machine and the condition agree. */
  lemma {:induction false} ClosesIsGround(s: seq<int>)
    requires EscapeFree(s)
    ensures ReadAll(Escape, s) == Ground <==> Closes(s)
  {
    if s == [] {
    } else if Aborts(s[0]) {
      GroundStays(s[1..]);
    } else if 0x20 <= s[0] <= 0x7E {
      ClosesAtOnce(s);
    } else {
      ClosesIsGround(s[1..]);
      ClosesLater(s);
    }
  }

  /** A terminal is in the middle of a sequence if and only if there is an ESC and what follows the last one
      does not close it. */
  lemma FinishedMeans(s: seq<int>, i: nat)
    requires i < |s| && s[i] == ESC && EscapeFree(s[i + 1..])
    ensures Finished(s) <==> Closes(s[i + 1..])
  {
    assert s == s[..i] + [ESC] + s[i + 1..];
    FromLastEscape(Ground, s[..i], s[i + 1..]);
    ClosesIsGround(s[i + 1..]);
  }
}
