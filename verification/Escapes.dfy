/** Cutting terminal data so that it does not end inside an escape sequence.  The functions work on
    code units: the bytes of a string or, with the same result, its scalars. */
module Escapes {
  import opened Options
  import opened Scanner
  import opened TerminalParser
  import opened Utf8

  // ---- Where a sequence ends ---------------------------------------------------------------------

  function Longer(n: Option<nat>, more: nat): Option<nat> {
    if n.Some? then Some(n.value + more) else None
  }

  /** The length of parameters, intermediates and final byte of a control sequence. */
  function ControlLength(s: seq<int>): Option<nat> {
    if s == [] then None
    else if 0x20 <= s[0] <= 0x3F then Longer(ControlLength(s[1..]), 1)
    else if 0x40 <= s[0] <= 0x7E then Some(1)
    else None
  }

  /** The length of a string with its terminator, BEL or `ESC \`. */
  function StringLength(s: seq<int>): Option<nat> {
    if s == [] then None
    else if s[0] == BEL then Some(1)
    else if s[0] == ESC && |s| > 1 && s[1] == BACKSLASH then Some(2)
    else Longer(StringLength(s[1..]), 1)
  }

  /** The length of the escape sequence at the front, unless the input ends or breaks off in it. */
  function EscapeLength(s: seq<int>): Option<nat> {
    if |s| < 2 then None
    else if s[1] == BRACKET then Longer(ControlLength(s[2..]), 2)
    else if OpensString(s[1]) then Longer(StringLength(s[2..]), 2)
    else Some(2)
  }

  method EscapeEnd(bytes: seq<byte>) returns (end: Option<nat>)
    ensures end == EscapeLength(bytes)
  {
    if |bytes| < 2 {
      return None;
    }
    var second := bytes[1];
    if second == BRACKET {
      var index := 2;
      while index < |bytes|
        invariant 2 <= index <= |bytes|
        invariant EscapeLength(bytes) == Longer(ControlLength(bytes[index..]), index)
      {
        var b := bytes[index];
        DropDrop(bytes, index, 1);
        if 0x20 <= b <= 0x3F {
          index := index + 1;
        } else if 0x40 <= b <= 0x7E {
          return Some(index + 1);
        } else {
          return None;
        }
      }
      return None;
    } else if OpensString(second) {
      var index := 2;
      while index < |bytes|
        invariant 2 <= index <= |bytes|
        invariant EscapeLength(bytes) == Longer(StringLength(bytes[index..]), index)
      {
        DropDrop(bytes, index, 1);
        if bytes[index] == BEL {
          return Some(index + 1);
        }
        if bytes[index] == ESC && index + 1 < |bytes| && bytes[index + 1] == BACKSLASH {
          return Some(index + 2);
        }
        index := index + 1;
      }
      return None;
    } else {
      return Some(2);
    }
  }

  // ---- What a complete sequence is, without a scanner ------------------------------------------------

  predicate IsControl(e: seq<int>) {
    e != [] && 0x40 <= e[|e| - 1] <= 0x7E && forall k | 0 <= k < |e| - 1 :: 0x20 <= e[k] <= 0x3F
  }

  /** The length of the terminator at `k`, or 0. */
  function Terminator(s: seq<int>, k: nat): nat
    requires k < |s|
  {
    if s[k] == BEL then 1
    else if k + 1 < |s| && s[k] == ESC && s[k + 1] == BACKSLASH then 2
    else 0
  }

  /** The first terminator is at `k`. */
  predicate EndsAt(s: seq<int>, k: nat) {
    k < |s| && Terminator(s, k) > 0 && forall j | 0 <= j < k :: Terminator(s, j) == 0
  }

  /** A string body with its terminator, and no terminator before. */
  ghost predicate IsString(e: seq<int>) {
    exists k: nat :: EndsAt(e, k) && |e| == k + Terminator(e, k)
  }

  /** `e` is one complete escape sequence. */
  ghost predicate IsEscape(e: seq<int>) {
    && |e| >= 2 && e[0] == ESC
    && (if e[1] == BRACKET then IsControl(e[2..])
        else if OpensString(e[1]) then IsString(e[2..])
        else |e| == 2)
  }

  lemma {:induction false} ControlLengthMeans(s: seq<int>, n: nat)
    ensures ControlLength(s) == Some(n) <==> n <= |s| && IsControl(s[..n])
  {
    if s != [] && n > 0 {
      ControlLengthMeans(s[1..], n - 1);
      if n <= |s| {
        assert s[1..][..n - 1] == s[..n][1..];
        assert forall k | 0 <= k < n - 1 :: s[..n][1..][k] == s[..n][k + 1];
        assert forall k | 1 <= k < n :: s[..n][1..][k - 1] == s[..n][k];
      }
    }
  }

  lemma EndsLater(s: seq<int>, k: nat)
    requires s != [] && Terminator(s, 0) == 0
    ensures EndsAt(s[1..], k) <==> EndsAt(s, k + 1)
    ensures EndsAt(s[1..], k) ==> Terminator(s[1..], k) == Terminator(s, k + 1)
  {
    var t := s[1..];
    assert forall j | 0 <= j < |t| :: Terminator(t, j) == Terminator(s, j + 1);
    assert forall j | 1 <= j < |s| :: Terminator(s, j) == Terminator(t, j - 1);
  }

  lemma {:induction false} StringLengthEnds(s: seq<int>) returns (k: nat)
    ensures StringLength(s).Some? ==> EndsAt(s, k) && StringLength(s).value == k + Terminator(s, k)
    ensures StringLength(s).None? ==> forall j: nat :: !EndsAt(s, j)
  {
    k := 0;
    if s != [] && Terminator(s, 0) == 0 {
      k := StringLengthEnds(s[1..]);
      EndsLater(s, k);
      if StringLength(s).None? {
        forall j: nat ensures !EndsAt(s, j) {
          if j > 0 {
            EndsLater(s, j - 1);
          }
        }
      }
      k := k + 1;
    }
  }

  lemma EndsInPrefix(s: seq<int>, n: nat, k: nat)
    requires n <= |s|
    ensures EndsAt(s[..n], k) && n == k + Terminator(s[..n], k) <==> EndsAt(s, k) && n == k + Terminator(s, k)
  {
    if k < n {
      assert forall j: nat | j < k :: Terminator(s[..n], j) == Terminator(s, j);
    }
  }

  lemma StringLengthMeans(s: seq<int>, n: nat)
    ensures StringLength(s) == Some(n) <==> n <= |s| && IsString(s[..n])
  {
    var k := StringLengthEnds(s);
    if StringLength(s) == Some(n) {
      EndsInPrefix(s, n, k);
    }
    if n <= |s| && IsString(s[..n]) {
      var m: nat :| EndsAt(s[..n], m) && n == m + Terminator(s[..n], m);
      EndsInPrefix(s, n, m);
      assert m <= k && k <= m;
    }
  }

  /** The scanner finds exactly the complete escape sequence the input starts with, if it does. */
  lemma EscapeLengthMeans(s: seq<int>, n: nat)
    requires s != [] && s[0] == ESC
    ensures EscapeLength(s) == Some(n) <==> n <= |s| && IsEscape(s[..n])
  {
    if |s| >= 2 {
      var rest := s[2..];
      if n >= 2 {
        ControlLengthMeans(rest, n - 2);
        StringLengthMeans(rest, n - 2);
        if n <= |s| {
          assert s[..n][2..] == rest[..n - 2];
        }
      }
    }
  }

  // ---- Cutting ---------------------------------------------------------------------------------------

  /** Looking back from `i` with everything from `end` on already cut: an escape sequence that is
      complete in the whole input keeps the cut at `end`; one that is not moves it to its start. */
  function CutFrom(s: seq<int>, end: nat, i: nat): (cut: nat)
    requires i <= end <= |s|
    ensures cut <= end
  {
    if i == 0 then end
    else if s[i - 1] != ESC then CutFrom(s, end, i - 1)
    else if EscapeLength(s[i - 1..]).Some? then end
    else CutFrom(s, i - 1, i - 1)
  }

  function Cut(s: seq<int>): (cut: nat)
    ensures cut <= |s|
  {
    CutFrom(s, |s|, |s|)
  }

  method TrimIncompleteEscape(bytes: seq<byte>) returns (cut: nat)
    ensures cut == Cut(bytes)
  {
    cut := |bytes|;
    var searchEnd := |bytes|;
    while true
      invariant cut == searchEnd <= |bytes| && CutFrom(bytes, cut, cut) == Cut(bytes)
      decreases searchEnd
    {
      var index := searchEnd;
      while index > 0 && bytes[index - 1] != ESC
        invariant 0 <= index <= searchEnd && CutFrom(bytes, cut, index) == Cut(bytes)
      {
        index := index - 1;
      }
      if index == 0 {
        return;
      }
      var end := EscapeEnd(bytes[index - 1..]);
      if end.Some? {
        return;
      }
      cut := index - 1;
      searchEnd := index - 1;
    }
  }

  // ---- What the cut is -------------------------------------------------------------------------------

  predicate Completes(s: seq<int>, i: nat) {
    i < |s| && s[i] == ESC && EscapeLength(s[i..]).Some?
  }

  predicate NoEscape(s: seq<int>, a: nat, b: nat) {
    forall k | a <= k < b && k < |s| :: s[k] != ESC
  }

  /** No escape sequence from `a` on is complete. */
  ghost predicate NoneCompletes(s: seq<int>, a: nat) {
    forall k: nat | a <= k :: !Completes(s, k)
  }

  /** The cut is at the end or at an ESC.  Nothing from there on is complete, and the last escape
      sequence in front of it is complete in the whole input. */
  ghost predicate IsCut(s: seq<int>, cut: nat) {
    && cut <= |s| && (cut == |s| || s[cut] == ESC) && NoneCompletes(s, cut)
    && (NoEscape(s, 0, cut) || exists i: nat :: i < cut && Completes(s, i) && NoEscape(s, i + 1, cut))
  }

  lemma {:induction false} CutFromMeans(s: seq<int>, end: nat, i: nat)
    requires i <= end <= |s| && (end == |s| || s[end] == ESC)
    requires NoneCompletes(s, end) && NoEscape(s, i, end)
    ensures IsCut(s, CutFrom(s, end, i))
    decreases i
  {
    if i > 0 {
      if s[i - 1] != ESC {
        CutFromMeans(s, end, i - 1);
      } else if EscapeLength(s[i - 1..]).Some? {
        assert Completes(s, i - 1);
      } else {
        CutFromMeans(s, i - 1, i - 1);
      }
    }
  }

  lemma CutMeans(s: seq<int>)
    ensures IsCut(s, Cut(s))
  {
    CutFromMeans(s, |s|, |s|);
  }

  // ---- Whether anything unfinished is left -----------------------------------------------------------

  lemma CompletesInPrefix(s: seq<int>, c: nat, i: nat)
    requires i < c <= |s|
    ensures Completes(s[..c], i) <==> Completes(s, i) && i + EscapeLength(s[i..]).value <= c
  {
    if s[i] == ESC {
      var whole, part := s[i..], s[..c][i..];
      if whole == [] || part == [] {
        return;
      }
      if EscapeLength(part).Some? {
        var n := EscapeLength(part).value;
        EscapeLengthMeans(part, n);
        EscapeLengthMeans(whole, n);
        assert part[..n] == whole[..n];
      }
      if EscapeLength(whole).Some? && i + EscapeLength(whole).value <= c {
        var n := EscapeLength(whole).value;
        EscapeLengthMeans(part, n);
        EscapeLengthMeans(whole, n);
        assert part[..n] == whole[..n];
      }
    }
  }

  /** `i` starts the last complete sequence, and `c` is the next ESC, or the end. */
  ghost predicate LastComplete(s: seq<int>, i: nat, c: nat) {
    && i < c <= |s| && (c == |s| || s[c] == ESC)
    && Completes(s, i) && NoEscape(s, i + 1, c) && NoneCompletes(s, c)
  }

  /** The sequence at `i`, complete for the trimming, has been neither aborted nor closed at `c`: it runs past
      the ESC there, or it is a string that BEL does not end, or its second unit ends nothing and neither does
      what follows. */
  ghost predicate LeftOpen(s: seq<int>, i: nat, c: nat)
    requires Completes(s, i) && i < c <= |s|
  {
    var body := s[i + 1..c];
    && !Has(body, 0, Aborts)
    && (|| i + EscapeLength(s[i..]).value > c
        || (OpensString(s[i + 1]) && s[i + 1] != OSC)
        || (!IsFinal(s[i + 1]) && !Closes(body)))
  }

  /** So it is for the last complete sequence of `s`. */
  ghost predicate LeavesOpen(s: seq<int>) {
    exists i: nat, c: nat :: LastComplete(s, i, c) && LeftOpen(s, i, c)
  }

  lemma LastCompleteIsUnique(s: seq<int>, i: nat, c: nat, j: nat, d: nat)
    requires LastComplete(s, i, c) && LastComplete(s, j, d)
    ensures i == j && c == d
  {
  }

  lemma BodyStarts(s: seq<int>, i: nat, c: nat)
    requires i + 1 < c <= |s|
    ensures var body := s[i + 1..c]; body[0] == s[i + 1] && forall k | i + 1 <= k < c :: s[k] == body[k - i - 1]
  {
  }

  lemma ControlCloses(s: seq<int>, i: nat, c: nat)
    requires LastComplete(s, i, c) && i + 1 < c && s[i + 1] == BRACKET
    ensures i + EscapeLength(s[i..]).value <= c && Closes(s[i + 1..c])
  {
    var rest, body := s[i..][2..], s[i + 1..c];
    var n := ControlLength(rest).value;
    ControlLengthMeans(rest, n);
    assert forall k | i + 2 <= k < i + 2 + n :: s[k] == rest[..n][k - i - 2];
    assert forall k | i + 2 <= k < i + 2 + n :: s[k] != ESC;
    assert IsControlFinal(rest[..n][n - 1]);
    assert body[0] == BRACKET && body[n] == rest[..n][n - 1];
  }

  lemma CommandCloses(s: seq<int>, i: nat, c: nat)
    requires LastComplete(s, i, c) && i + 1 < c && s[i + 1] == OSC
    ensures i + EscapeLength(s[i..]).value <= c <==> Has(s[i + 1..c], 1, IsBel)
  {
    var rest, body := s[i..][2..], s[i + 1..c];
    var k := StringLengthEnds(rest);
    assert forall j | 1 <= j < |body| :: body[j] == rest[j - 1];
    if i + 2 + k < c {
      assert rest[k] == body[k + 1] && rest[k] != ESC;
      assert IsBel(body[k + 1]);
    } else {
      forall j | 1 <= j < |body| ensures !IsBel(body[j]) {
        assert Terminator(rest, j - 1) == 0;
      }
    }
  }

  lemma ClosedUnlessLeftOpen(s: seq<int>, i: nat, c: nat)
    requires LastComplete(s, i, c)
    ensures Closes(s[i + 1..c]) <==> !LeftOpen(s, i, c)
  {
    var body := s[i + 1..c];
    if c > i + 1 {
      BodyStarts(s, i, c);
      if s[i + 1] == BRACKET {
        ControlCloses(s, i, c);
      } else if s[i + 1] == OSC {
        CommandCloses(s, i, c);
      }
    }
  }

  lemma FinishedUpTo(s: seq<int>, i: nat, c: nat)
    requires LastComplete(s, i, c)
    ensures Finished(s[..c]) <==> !LeftOpen(s, i, c)
  {
    var r := s[..c];
    assert r[i + 1..] == s[i + 1..c];
    FinishedMeans(r, i);
    ClosedUnlessLeftOpen(s, i, c);
  }

  /** Trimmed data leaves a terminal in the middle of a sequence exactly if the last sequence that the trimming
      takes for complete is left open. */
  lemma TrimmedIsFinished(s: seq<int>)
    ensures Finished(s[..Cut(s)]) <==> !LeavesOpen(s)
  {
    CutMeans(s);
    var c := Cut(s);
    if NoEscape(s, 0, c) {
      GroundStays(s[..c]);
      assert forall i: nat :: !Completes(s, i);
    } else {
      var i: nat :| i < c && Completes(s, i) && NoEscape(s, i + 1, c);
      assert LastComplete(s, i, c);
      FinishedUpTo(s, i, c);
      forall j: nat, d: nat | LastComplete(s, j, d) ensures j == i && d == c {
        LastCompleteIsUnique(s, i, c, j, d);
      }
    }
  }

  // ---- Inputs that are left open, one for each way ----------------------------------------------------

  lemma CutKeepsAll(s: seq<int>, i: nat)
    requires Completes(s, i) && NoEscape(s, i + 1, |s|)
    ensures Cut(s) == |s|
  {
    CutSkips(s, |s|, |s|, i + 1);
  }

  /** A BEL after the cut can finish a string that the cut leaves unfinished: `ESC ] a ESC [ 3 BEL`
      is trimmed to `ESC ] a`. */
  lemma TrimmedStringIsUnfinished(s: seq<int>)
    requires s == [ESC, OSC, 0x61, ESC, BRACKET, 0x33, BEL]
    ensures Cut(s) == 3 && !Finished(s[..Cut(s)])
  {
    var control, text := s[3..], s[0..];
    assert control == [ESC, BRACKET, 0x33, BEL] && control[2..] == [0x33, BEL] && control[2..][1..] == [BEL];
    assert ControlLength([BEL]).None? && ControlLength([0x33, BEL]).None?;
    assert EscapeLength(control).None?;
    assert text == s && s[2..][4..] == [BEL] && s[2..] == [0x61, ESC, BRACKET, 0x33, BEL];
    assert StringLength([0x33, BEL]) == Some(2) by { assert [0x33, BEL][1..] == [BEL]; }
    assert StringLength([ESC, BRACKET, 0x33, BEL]) == Some(4) by {
      assert [ESC, BRACKET, 0x33, BEL][1..] == [BRACKET, 0x33, BEL] && [BRACKET, 0x33, BEL][1..] == [0x33, BEL];
    }
    assert StringLength(s[2..]) == Some(5) by { assert s[2..][1..] == [ESC, BRACKET, 0x33, BEL]; }
    assert Completes(s, 0) && !Completes(s, 3);
    CutSkips(s, 7, 7, 4);
    CutSkips(s, 3, 3, 1);
    assert s[..3] == [ESC, OSC, 0x61];
    ReadThree(Ground, ESC, OSC, 0x61);
  }

  /** An ESC in front of another ESC counts as complete, so a lone ESC is left of `ESC ESC [ 3`. */
  lemma TrimmedEscapeIsUnfinished(s: seq<int>)
    requires s == [ESC, ESC, BRACKET, 0x33]
    ensures Cut(s) == 1 && !Finished(s[..Cut(s)])
  {
    assert s[1..] == [ESC, BRACKET, 0x33] && s[1..][2..] == [0x33] && s[0..] == s;
    assert ControlLength([0x33]).None? by { assert [0x33][1..] == []; }
    assert Completes(s, 0) && !Completes(s, 1);
    CutSkips(s, 4, 4, 2);
    assert s[..1] == [] + [ESC];
    ReadSnoc(Ground, [], ESC);
  }

  /** A string that BEL does not end, here a DCS, is taken for complete: nothing of `ESC P a BEL` is trimmed. */
  lemma TrimmedDeviceStringIsUnfinished(s: seq<int>)
    requires s == [ESC, 0x50, 0x61, BEL]
    ensures Cut(s) == 4 && !Finished(s[..Cut(s)])
  {
    assert s[0..] == s && s[2..] == [0x61, BEL] && [0x61, BEL][1..] == [BEL];
    assert StringLength([BEL]) == Some(1) && StringLength([0x61, BEL]) == Some(2);
    CutKeepsAll(s, 0);
    assert s[..4] == [ESC, 0x50, 0x61] + [BEL];
    ReadThree(Ground, ESC, 0x50, 0x61);
    ReadSnoc(Ground, [ESC, 0x50, 0x61], BEL);
  }

  /** ESC and a unit that ends nothing: an intermediate, so that `ESC ( B` is cut to `ESC (`, a control, or
      anything above 0x7E. */
  lemma TrimmedPairIsUnfinished(c: int)
    requires !IsFinal(c) && !Aborts(c)
    ensures Cut([ESC, c]) == (if c == ESC then 1 else 2) && !Finished([ESC, c][..Cut([ESC, c])])
  {
    var s := [ESC, c];
    assert s[0..] == s && s[1..] == [c];
    if c == ESC {
      assert !Completes(s, 1) && CutFrom(s, 1, 1) == 1;
      assert s[..1] == [] + [ESC];
      ReadSnoc(Ground, [], ESC);
    } else {
      CutKeepsAll(s, 0);
      assert s[..2] == s;
      ReadTwo(Ground, ESC, c);
    }
  }

  lemma {:induction false} CutSkips(s: seq<int>, end: nat, i: nat, k: nat)
    requires k <= i <= end <= |s| && NoEscape(s, k, i)
    ensures CutFrom(s, end, i) == CutFrom(s, end, k)
    decreases i
  {
    if k < i {
      CutSkips(s, end, i - 1, k);
    }
  }

  // ---- A stream of whole tokens, cut anywhere ----------------------------------------------------------

  /** An escape sequence without another ESC that is whole for the trimming and for a terminal: a control
      sequence, an OSC that BEL ends, or ESC and a unit that ends it. */
  ghost predicate IsPlain(t: seq<int>) {
    IsEscape(t) && NoEscape(t, 1, |t|) && Closes(t[1..])
  }

  /** A string that ST ends, with no BEL in it. */
  predicate IsStringUntilSt(t: seq<int>) {
    && |t| >= 4 && t[0] == ESC && OpensString(t[1]) && t[|t| - 2] == ESC && t[|t| - 1] == BACKSLASH
    && forall k | 2 <= k < |t| - 2 :: t[k] != ESC && t[k] != BEL
  }

  /** Text without ESC, or a whole escape sequence. */
  ghost predicate IsToken(t: seq<int>) {
    NoEscape(t, 0, |t|) || IsPlain(t) || IsStringUntilSt(t)
  }

  lemma ControlIsPlain(t: seq<int>)
    requires |t| >= 3 && t[0] == ESC && t[1] == BRACKET && IsControl(t[2..])
    ensures IsPlain(t)
  {
    var e, body := t[2..], t[1..];
    assert forall k | 2 <= k < |t| :: t[k] == e[k - 2];
    assert body[0] == BRACKET && body[|body| - 1] == e[|e| - 1];
  }

  lemma PairIsPlain(t: seq<int>)
    requires |t| == 2 && t[0] == ESC && IsFinal(t[1]) && t[1] != BRACKET && !OpensString(t[1])
    ensures IsPlain(t)
  {
    assert t[1..] == [t[1]];
  }

  lemma CommandIsPlain(t: seq<int>)
    requires |t| >= 3 && t[0] == ESC && t[1] == OSC && t[|t| - 1] == BEL
    requires forall k | 2 <= k < |t| - 1 :: t[k] != ESC && t[k] != BEL
    ensures IsPlain(t)
  {
    var e, body := t[2..], t[1..];
    assert EndsAt(e, |e| - 1) by {
      assert forall j | 0 <= j < |e| - 1 :: e[j] == t[j + 2];
    }
    assert body[0] == OSC && body[|body| - 1] == BEL;
  }

  /** Control sequences, pairs that end at once, and OSC strings up to their BEL are such tokens. */
  lemma SequencesAreTokens(t: seq<int>)
    requires |t| >= 2 && t[0] == ESC
    requires || (|t| >= 3 && t[1] == BRACKET && IsControl(t[2..]))
             || (|t| == 2 && IsFinal(t[1]) && t[1] != BRACKET && !OpensString(t[1]))
             || (|t| >= 3 && t[1] == OSC && t[|t| - 1] == BEL
                 && forall k | 2 <= k < |t| - 1 :: t[k] != ESC && t[k] != BEL)
    ensures IsToken(t)
  {
    if t[1] == BRACKET && |t| >= 3 {
      ControlIsPlain(t);
    } else if |t| == 2 {
      PairIsPlain(t);
    } else {
      CommandIsPlain(t);
    }
  }

  lemma StIsEscape(t: seq<int>)
    requires IsStringUntilSt(t)
    ensures IsEscape(t)
  {
    var e := t[2..];
    assert forall j | 0 <= j < |e| :: e[j] == t[j + 2];
    assert EndsAt(e, |e| - 2);
  }

  /** The first n units up to the end of the last token that is whole; text is whole anywhere. */
  function Boundary(tokens: seq<seq<int>>, n: nat): nat {
    if tokens == [] then 0
    else if n >= |tokens[0]| then |tokens[0]| + Boundary(tokens[1..], n - |tokens[0]|)
    else if tokens[0][0] == ESC then 0
    else n
  }

  lemma TokenCompletes(t: seq<int>, rest: seq<int>)
    requires IsEscape(t)
    ensures Completes(t + rest, 0) && EscapeLength((t + rest)[0..]) == Some(|t|)
  {
    var s := t + rest;
    assert s[0..] == s && s[..|t|] == t;
    EscapeLengthMeans(s, |t|);
  }

  lemma CutAtToken(t: seq<int>, rest: seq<int>, end: nat)
    requires IsToken(t) && |t| <= end <= |t| + |rest|
    ensures CutFrom(t + rest, end, |t|) == end
  {
    if NoEscape(t, 0, |t|) {
      CutSkips(t + rest, end, |t|, 0);
    } else if IsPlain(t) {
      TokenCompletes(t, rest);
      CutSkips(t + rest, end, |t|, 1);
    } else {
      var n := |t| - 2;
      assert (t + rest)[n..] == [ESC, BACKSLASH] + rest;
      CutSkips(t + rest, end, |t|, n + 1);
    }
  }

  lemma BehindToken(t: seq<int>, rest: seq<int>, i: nat)
    requires i < |rest|
    ensures var s, k := t + rest, |t| + i; s[k] == rest[i] && EscapeLength(s[k..]) == EscapeLength(rest[i..])
  {
    assert (t + rest)[|t| + i..] == rest[i..];
  }

  /** Trimming never cuts into a whole token at the front. */
  lemma {:induction false} CutAfterToken(t: seq<int>, rest: seq<int>, end: nat, i: nat)
    requires IsToken(t) && i <= end <= |rest|
    ensures CutFrom(t + rest, |t| + end, |t| + i) == |t| + CutFrom(rest, end, i)
    decreases i
  {
    if i == 0 {
      CutAtToken(t, rest, |t| + end);
    } else {
      BehindToken(t, rest, i - 1);
      if rest[i - 1] != ESC {
        CutAfterToken(t, rest, end, i - 1);
      } else if EscapeLength(rest[i - 1..]).None? {
        CutAfterToken(t, rest, i - 1, i - 1);
      }
    }
  }

  lemma CutInSt(t: seq<int>, n: nat)
    requires IsStringUntilSt(t) && 0 < n < |t|
    ensures Cut(t[..n]) == 0
  {
    var s := t[..n];
    StIsEscape(t);
    TokenCompletes(t, []);
    assert t + [] == t && s[0..] == s;
    CompletesInPrefix(t, n, 0);
    if n == |t| - 1 {
      assert s[n - 1..] == [ESC];
      CutSkips(s, n - 1, n - 1, 1);
    } else {
      CutSkips(s, n, n, 1);
    }
  }

  lemma CutInToken(t: seq<int>, n: nat)
    requires IsToken(t) && n < |t|
    ensures Cut(t[..n]) == (if t[0] == ESC then 0 else n) && Finished(t[..Cut(t[..n])])
  {
    var s := t[..n];
    if t[0] != ESC || n == 0 {
      CutSkips(s, n, n, 0);
      GroundStays(s);
      assert s[..n] == s && t[..n] == s;
    } else if IsPlain(t) {
      TokenCompletes(t, []);
      assert t + [] == t && s[0..] == s;
      CompletesInPrefix(t, n, 0);
      CutSkips(s, n, n, 1);
    } else {
      CutInSt(t, n);
    }
  }

  lemma TokenIsFinished(t: seq<int>)
    requires IsToken(t)
    ensures Finished(t)
  {
    if NoEscape(t, 0, |t|) {
      GroundStays(t);
    } else if IsPlain(t) {
      assert forall k | 0 <= k < |t| - 1 :: t[1..][k] == t[k + 1];
      FinishedMeans(t, 0);
    } else {
      var n := |t| - 2;
      assert t == t[..n] + [ESC] + [BACKSLASH];
      FromLastEscape(Ground, t[..n], [BACKSLASH]);
      ReadSnoc(Escape, [], BACKSLASH);
      assert [] + [BACKSLASH] == [BACKSLASH];
    }
  }

  lemma FinishedAfterToken(t: seq<int>, rest: seq<int>)
    requires IsToken(t) && Finished(rest)
    ensures Finished(t + rest)
  {
    TokenIsFinished(t);
    ReadAllConcat(Ground, t, rest);
  }

  /** Trimming the first n units cuts at c, and leaves nothing unfinished. */
  ghost predicate TrimsTo(s: seq<int>, n: nat, c: nat) {
    c <= n <= |s| && Cut(s[..n]) == c && Finished(s[..c])
  }

  lemma TokenInFront(t: seq<int>, rest: seq<int>, n: nat, c: nat)
    requires IsToken(t) && TrimsTo(rest, n, c)
    ensures TrimsTo(t + rest, |t| + n, |t| + c)
  {
    assert (t + rest)[..|t| + n] == t + rest[..n];
    CutAfterToken(t, rest[..n], n, n);
    FinishedAfterToken(t, rest[..c]);
    assert (t + rest)[..|t| + c] == t + rest[..c];
  }

  lemma CutInFirst(t: seq<int>, rest: seq<int>, n: nat)
    requires IsToken(t) && n < |t|
    ensures TrimsTo(t + rest, n, if t[0] == ESC then 0 else n)
  {
    CutInToken(t, n);
    var c := Cut(t[..n]);
    assert (t + rest)[..n] == t[..n] && (t + rest)[..c] == t[..c];
  }

  /** Any prefix of a stream of tokens is trimmed to its last token boundary, and a terminal that
      has read that much is not inside an escape sequence. */
  lemma {:induction false} CutsAtTokenBoundary(tokens: seq<seq<int>>, n: nat)
    requires (forall t | t in tokens :: IsToken(t)) && n <= |Concat(tokens)|
    ensures TrimsTo(Concat(tokens), n, Boundary(tokens, n))
    decreases |tokens|
  {
    if tokens == [] {
      assert Concat(tokens)[..n] == [];
    } else {
      var t, rest := tokens[0], tokens[1..];
      assert t in tokens;
      if n >= |t| {
        CutsAtTokenBoundary(rest, n - |t|);
        TokenInFront(t, Concat(rest), n - |t|, Boundary(rest, n - |t|));
      } else {
        CutInFirst(t, Concat(rest), n);
      }
    }
  }

  // ---- Bytes and scalars ---------------------------------------------------------------------------------

  lemma {:induction false} EncodeFirst(t: Text)
    requires t != []
    ensures Encode(t) == EncodeScalar(t[0]) + Encode(t[1..])
    ensures t[0] < 0x80 ==> EncodeScalar(t[0]) == [t[0]] && Encode(t)[1..] == Encode(t[1..])
    ensures t[0] >= 0x80 ==> forall b | b in EncodeScalar(t[0]) :: b >= 0x80
  {
  }

  lemma {:induction false} ControlLengthEncodes(t: Text)
    ensures ControlLength(Encode(t)).Some? <==> ControlLength(t).Some?
  {
    if t != [] {
      EncodeFirst(t);
      ControlLengthEncodes(t[1..]);
    }
  }

  lemma {:induction false} StringLengthSkips(high: seq<int>, s: seq<int>)
    requires forall b | b in high :: b >= 0x80
    ensures StringLength(high + s).Some? <==> StringLength(s).Some?
  {
    if high == [] {
      assert high + s == s;
    } else {
      assert high[0] in high && (high + s)[1..] == high[1..] + s;
      forall b | b in high[1..] ensures b >= 0x80 {
        assert b in high;
      }
      StringLengthSkips(high[1..], s);
    }
  }

  lemma {:induction false} StringLengthEncodes(t: Text)
    ensures StringLength(Encode(t)).Some? <==> StringLength(t).Some?
  {
    if t != [] {
      EncodeFirst(t);
      StringLengthEncodes(t[1..]);
      if t[0] >= 0x80 {
        StringLengthSkips(EncodeScalar(t[0]), Encode(t[1..]));
      } else if |t| > 1 {
        EncodeFirst(t[1..]);
      }
    }
  }

  /** Whether a sequence is complete depends on its second unit, and on what follows. */
  lemma SameEscape(s: seq<int>, u: seq<int>)
    requires s != [] && u != [] && s[0] == ESC && u[0] == ESC && (|s| > 1 <==> |u| > 1)
    requires |s| > 1 ==> s[1] == u[1] || (s[1] >= 0x80 && u[1] >= 0x80)
    requires |s| > 1 && s[1] < 0x80 ==> (ControlLength(s[2..]).Some? <==> ControlLength(u[2..]).Some?)
    requires |s| > 1 && s[1] < 0x80 ==> (StringLength(s[2..]).Some? <==> StringLength(u[2..]).Some?)
    ensures EscapeLength(s).Some? <==> EscapeLength(u).Some?
  {
  }

  lemma EncodeSecond(t: Text)
    requires |t| > 1 && t[0] == ESC
    ensures |Encode(t)| > 1 && Encode(t)[1..] == Encode(t[1..])
    ensures t[1] < 0x80 ==> Encode(t)[1] == t[1] && Encode(t)[2..] == Encode(t[2..])
    ensures t[1] >= 0x80 ==> Encode(t)[1] >= 0x80
  {
    EncodeFirst(t);
    EncodeFirst(t[1..]);
    DropDrop(Encode(t), 1, 1);
    assert t[1..][1..] == t[2..];
    if t[1] >= 0x80 {
      assert EncodeScalar(t[1])[0] in EncodeScalar(t[1]);
    }
  }

  lemma EscapeLengthEncodes(t: Text)
    requires t != [] && t[0] == ESC
    ensures EscapeLength(Encode(t)).Some? <==> EscapeLength(t).Some?
  {
    EncodeFirst(t);
    if |t| > 1 {
      EncodeSecond(t);
      ControlLengthEncodes(t[2..]);
      StringLengthEncodes(t[2..]);
    }
    SameEscape(Encode(t), t);
  }

  /** Where the encoding of `t[i]` starts. */
  function Offset(t: Text, i: nat): (n: nat)
    requires i <= |t|
    ensures i == 0 ==> n == 0
  {
    |Encode(t[..i])|
  }

  lemma {:induction false} EncodeCut(t: Text, i: nat)
    requires i <= |t|
    ensures Encode(t) == Encode(t[..i]) + Encode(t[i..])
  {
    EncodeConcat(t[..i], t[i..]);
    assert t[..i] + t[i..] == t;
  }

  lemma SuffixEncodes(t: Text, i: nat)
    requires i <= |t|
    ensures Offset(t, i) <= |Encode(t)| && Encode(t)[Offset(t, i)..] == Encode(t[i..])
  {
    EncodeCut(t, i);
  }

  lemma OffsetGrows(t: Text, i: nat)
    requires 0 < i <= |t|
    ensures Offset(t, i) == Offset(t, i - 1) + |EncodeScalar(t[i - 1])|
  {
    EncodeCut(t, i - 1);
    EncodeCut(t, i);
    var rest := t[i - 1..];
    assert rest[1..] == t[i..] && rest[0] == t[i - 1];
    assert |Encode(rest)| == |EncodeScalar(rest[0])| + |Encode(rest[1..])|;
  }

  lemma ScalarHasNoEscape(c: Scalar)
    ensures c != ESC ==> ESC !in EncodeScalar(c)
    ensures c == ESC ==> EncodeScalar(c) == [ESC]
  {
  }

  lemma FirstScalar(t: Text)
    requires t != []
    ensures t[0] != ESC ==> NoEscape(Encode(t), 0, |EncodeScalar(t[0])|)
    ensures t[0] == ESC ==> |EncodeScalar(t[0])| == 1 && Encode(t)[0] == ESC
    ensures t[0] == ESC ==> (EscapeLength(Encode(t)).Some? <==> EscapeLength(t).Some?)
  {
    ScalarHasNoEscape(t[0]);
    if t[0] == ESC {
      EscapeLengthEncodes(t);
    }
  }

  lemma NoEscapeShifts(s: seq<int>, k: nat, n: nat)
    requires k <= |s| && NoEscape(s[k..], 0, n)
    ensures NoEscape(s, k, k + n)
  {
    assert forall i | k <= i < |s| :: s[i] == s[k..][i - k];
  }

  /** What the encoding of one scalar looks like from its start. */
  lemma OneScalar(t: Text, i: nat)
    requires 0 < i <= |t|
    ensures var s, k, j := Encode(t), Offset(t, i - 1), Offset(t, i);
            && k < j <= |s|
            && (t[i - 1] != ESC ==> NoEscape(s, k, j))
            && (t[i - 1] == ESC ==>
                  && j == k + 1 && s[k] == ESC
                  && (EscapeLength(s[k..]).Some? <==> EscapeLength(t[i - 1..]).Some?))
  {
    var s, k := Encode(t), Offset(t, i - 1);
    SuffixEncodes(t, i - 1);
    SuffixEncodes(t, i);
    OffsetGrows(t, i);
    FirstScalar(t[i - 1..]);
    if t[i - 1] != ESC {
      NoEscapeShifts(s, k, Offset(t, i) - k);
    } else {
      assert s[k] == s[k..][0];
    }
  }

  lemma CutAtEscape(s: seq<int>, end: nat, k: nat)
    requires k < end <= |s| && s[k] == ESC
    ensures CutFrom(s, end, k + 1) == if EscapeLength(s[k..]).Some? then end else CutFrom(s, k, k)
  {
  }

  lemma {:induction false} CutFromEncodes(t: Text, s: seq<int>, end: nat, i: nat)
    requires s == Encode(t) && i <= end <= |t| && Offset(t, i) <= Offset(t, end) <= |s|
    ensures CutFrom(s, Offset(t, end), Offset(t, i)) == Offset(t, CutFrom(t, end, i))
    decreases i
  {
    if i > 0 {
      OneScalar(t, i);
      if t[i - 1] != ESC {
        CutSkips(s, Offset(t, end), Offset(t, i), Offset(t, i - 1));
        CutFromEncodes(t, s, end, i - 1);
      } else {
        CutAtEscape(s, Offset(t, end), Offset(t, i - 1));
        if EscapeLength(t[i - 1..]).None? {
          CutFromEncodes(t, s, i - 1, i - 1);
        }
      }
    }
  }

  /** Trimming the bytes of a text leaves the bytes of the trimmed text. */
  lemma TrimmedTextEncodes(t: Text)
    ensures Encode(t)[..Cut(Encode(t))] == Encode(t[..Cut(t)])
  {
    var c := Cut(t);
    assert t[..|t|] == t;
    CutFromEncodes(t, Encode(t), |t|, |t|);
    EncodeCut(t, c);
  }
}
