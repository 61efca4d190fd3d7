/** Following DEC private mode 7 (autowrap) through the bytes of a session.  The terminal library
    does not keep it, and a snapshot has to restore it. */
module DecMode {
  import opened Scanner
  import Utf8

  type byte = Utf8.byte

  const ESC: byte := 0x1B
  const BRACKET: byte := 0x5B
  const QUESTION: byte := 0x3F
  const SEMICOLON: byte := 0x3B
  const SET: byte := 0x68
  const RESET: byte := 0x6C
  const MAX_SEQUENCE_BYTES := 32
  const U32_MAX := 0xFFFF_FFFF

  predicate IsDigit(b: byte) {
    0x30 <= b <= 0x39
  }

  // ---- One sequence `ESC [ ? p1 ; p2 ... h` or `... l` -------------------------------------------

  datatype Parsed = Mode(matches: bool, finalByte: byte, consumed: nat) | Incomplete | NotAMode

  function Saturating(n: nat): nat {
    if n > U32_MAX then U32_MAX else n
  }

  function ReadDigit(mode: nat, b: byte): nat
    requires IsDigit(b)
  {
    Saturating(Saturating(10 * mode) + (b as int - 0x30))
  }

  /** The parse from byte `i` on: the number read so far, whether it has a digit, and whether an
      earlier number was 7. */
  function ParseFrom(s: seq<byte>, i: nat, mode: nat, seen: bool, matches: bool): (r: Parsed)
    requires 3 <= i <= MAX_SEQUENCE_BYTES && i <= |s|
    ensures r.Mode? ==> i < r.consumed <= |s|
    decreases |s| - i
  {
    if i == MAX_SEQUENCE_BYTES then NotAMode
    else if i == |s| then Incomplete
    else if IsDigit(s[i]) then
      ParseFrom(s, i + 1, ReadDigit(mode, s[i]), true, matches)
    else if s[i] == SEMICOLON then
      if !seen then NotAMode else ParseFrom(s, i + 1, 0, false, matches || mode == 7)
    else if s[i] == SET || s[i] == RESET then
      if !seen then NotAMode else Mode(matches || mode == 7, s[i], i + 1)
    else NotAMode
  }

  function Parse(s: seq<byte>): (r: Parsed)
    ensures r.Mode? ==> 3 < r.consumed <= |s|
  {
    if |s| < 2 then Incomplete
    else if s[1] != BRACKET then NotAMode
    else if |s| < 3 then Incomplete
    else if s[2] != QUESTION then NotAMode
    else ParseFrom(s, 3, 0, false, false)
  }

  method ParseDecPrivateMode(bytes: seq<byte>) returns (r: Parsed)
    ensures r == Parse(bytes)
  {
    if |bytes| < 2 {
      return Incomplete;
    }
    if bytes[1] != BRACKET {
      return NotAMode;
    }
    if |bytes| < 3 {
      return Incomplete;
    }
    if bytes[2] != QUESTION {
      return NotAMode;
    }
    var index, mode, seen, matches := 3, 0, false, false;
    while index < |bytes| && index < MAX_SEQUENCE_BYTES
      invariant 3 <= index <= |bytes| && index <= MAX_SEQUENCE_BYTES
      invariant ParseFrom(bytes, index, mode, seen, matches) == Parse(bytes)
    {
      var b := bytes[index];
      if IsDigit(b) {
        seen := true;
        mode := ReadDigit(mode, b);
        index := index + 1;
      } else if b == SEMICOLON {
        if !seen {
          return NotAMode;
        }
        matches := matches || mode == 7;
        mode := 0;
        seen := false;
        index := index + 1;
      } else if b == SET || b == RESET {
        if !seen {
          return NotAMode;
        }
        return Mode(matches || mode == 7, b, index + 1);
      } else {
        return NotAMode;
      }
    }
    r := if index >= MAX_SEQUENCE_BYTES then NotAMode else Incomplete;
  }

  // ---- What such a sequence is, without a parser -------------------------------------------------

  function Number(s: seq<byte>, a: nat, b: nat): nat
    requires b <= |s| && forall k | a <= k < b :: IsDigit(s[k])
    decreases b
  {
    if b <= a then 0
    else
      assert IsDigit(s[b - 1]);
      10 * Number(s, a, b - 1) + (s[b - 1] as int - 0x30)
  }

  /** `s[a..b]` is one of the numbers of the list `s[3..end]`. */
  ghost predicate IsField(s: seq<byte>, end: nat, a: nat, b: nat) {
    && 3 <= a < b <= end <= |s|
    && (forall k | a <= k < b :: IsDigit(s[k]))
    && (a == 3 || s[a - 1] == SEMICOLON) && (b == end || s[b] == SEMICOLON)
  }

  ghost predicate Names7(s: seq<byte>, end: nat) {
    exists a: nat, b: nat :: IsField(s, end, a, b) && Number(s, a, b) == 7
  }

  /** `s[3..end]` is a list of numbers separated by semicolons: at least one, none empty. */
  predicate AreParams(s: seq<byte>, end: nat)
    requires end <= |s|
  {
    3 < end && forall k | 3 <= k < end ::
      IsDigit(s[k]) ||
      (s[k] == SEMICOLON && 3 < k < end - 1 && IsDigit(s[k - 1]) && IsDigit(s[k + 1]))
  }

  /** The first n bytes are `ESC [ ?`, a list of numbers, and `h` or `l`: at most 32 bytes. */
  predicate IsModeSequence(s: seq<byte>, n: nat) {
    && 4 < n <= |s| && n <= 32
    && s[0] == ESC && s[1] == BRACKET && s[2] == QUESTION
    && AreParams(s, n - 1) && (s[n - 1] == SET || s[n - 1] == RESET)
  }

  // ---- The parser finds exactly these sequences ---------------------------------------------------

  /** What the parser has seen when it has read up to `i`, with the current number from `a` on. */
  ghost predicate State(s: seq<byte>, a: nat, i: nat, mode: nat, seen: bool, matches: bool) {
    && 3 <= a <= i <= |s| && (a == 3 || s[a - 1] == SEMICOLON)
    && (forall k | a <= k < i :: IsDigit(s[k]))
    && (seen <==> a < i) && mode == Saturating(Number(s, a, i))
    && (matches <==> a > 3 && Names7(s, a - 1))
    && (a > 3 ==> AreParams(s, a - 1))
  }

  lemma SemicolonIsOutside(s: seq<byte>, a: nat, b: nat, k: nat)
    requires b <= |s| && (forall k | a <= k < b :: IsDigit(s[k])) && k < |s| && s[k] == SEMICOLON
    ensures !(a <= k < b)
  {
  }

  lemma FieldIsEarlierOrLast(s: seq<byte>, a: nat, i: nat, c: nat, d: nat)
    requires 3 <= a < i <= |s| && (a == 3 || s[a - 1] == SEMICOLON)
    requires (forall k | a <= k < i :: IsDigit(s[k])) && IsField(s, i, c, d)
    ensures (c == a && d == i) || (a > 3 && IsField(s, a - 1, c, d))
  {
    if c > 3 {
      SemicolonIsOutside(s, a, i, c - 1);
    }
    if d < i {
      SemicolonIsOutside(s, a, i, d);
    }
    if a > 3 {
      SemicolonIsOutside(s, c, d, a - 1);
    }
  }

  lemma Names7Extends(s: seq<byte>, a: nat, i: nat)
    requires 3 < a <= i <= |s| && s[a - 1] == SEMICOLON && Names7(s, a - 1)
    ensures Names7(s, i)
  {
    var c: nat, d: nat :| IsField(s, a - 1, c, d) && Number(s, c, d) == 7;
    assert IsField(s, i, c, d);
  }

  lemma Names7Before(s: seq<byte>, a: nat, i: nat)
    requires 3 <= a < i <= |s| && (a == 3 || s[a - 1] == SEMICOLON)
    requires (forall k | a <= k < i :: IsDigit(s[k])) && Names7(s, i)
    ensures (a > 3 && Names7(s, a - 1)) || Number(s, a, i) == 7
  {
    var c: nat, d: nat :| IsField(s, i, c, d) && Number(s, c, d) == 7;
    FieldIsEarlierOrLast(s, a, i, c, d);
  }

  lemma FieldsBefore(s: seq<byte>, a: nat, i: nat)
    requires 3 <= a < i <= |s| && (a == 3 || s[a - 1] == SEMICOLON)
    requires forall k | a <= k < i :: IsDigit(s[k])
    ensures Names7(s, i) <==> (a > 3 && Names7(s, a - 1)) || Number(s, a, i) == 7
  {
    if Names7(s, i) {
      Names7Before(s, a, i);
    } else {
      assert !IsField(s, i, a, i) || Number(s, a, i) != 7;
      if a > 3 && Names7(s, a - 1) {
        Names7Extends(s, a, i);
      }
    }
  }

  lemma ParamsExtend(s: seq<byte>, a: nat, i: nat)
    requires 3 <= a < i <= |s| && (a == 3 || (s[a - 1] == SEMICOLON && AreParams(s, a - 1)))
    requires forall k | a <= k < i :: IsDigit(s[k])
    ensures AreParams(s, i)
  {
    if a > 3 {
      assert IsDigit(s[a - 2]);
    }
  }

  lemma StateReadsDigit(s: seq<byte>, a: nat, i: nat, mode: nat, seen: bool, matches: bool)
    requires State(s, a, i, mode, seen, matches) && i < |s| && IsDigit(s[i])
    ensures State(s, a, i + 1, ReadDigit(mode, s[i]), true, matches)
  {
    assert Number(s, a, i + 1) == 10 * Number(s, a, i) + (s[i] as int - 0x30);
  }

  lemma StateReadsSemicolon(s: seq<byte>, a: nat, i: nat, mode: nat, matches: bool)
    requires State(s, a, i, mode, true, matches) && i < |s| && s[i] == SEMICOLON
    ensures State(s, i + 1, i + 1, 0, false, matches || mode == 7)
  {
    FieldsBefore(s, a, i);
    ParamsExtend(s, a, i);
  }

  /** A reported mode sequence ends where it is said to, and names 7 if it is said to. */
  ghost predicate Reports(s: seq<byte>, r: Parsed) {
    r.Mode? ==>
      var n := r.consumed;
      && 3 < n <= |s| && n <= MAX_SEQUENCE_BYTES && AreParams(s, n - 1) && (r.matches <==> Names7(s, n - 1))
      && r.finalByte == s[n - 1] && (s[n - 1] == SET || s[n - 1] == RESET)
  }

  lemma StateEnds(s: seq<byte>, a: nat, i: nat, mode: nat, matches: bool)
    requires State(s, a, i, mode, true, matches) && i < |s| && i < MAX_SEQUENCE_BYTES
    requires s[i] == SET || s[i] == RESET
    ensures Reports(s, Mode(matches || mode == 7, s[i], i + 1))
  {
    FieldsBefore(s, a, i);
    ParamsExtend(s, a, i);
  }

  lemma {:induction false} ParseFromMeans(s: seq<byte>, a: nat, i: nat, mode: nat, seen: bool, matches: bool)
    requires State(s, a, i, mode, seen, matches) && i <= MAX_SEQUENCE_BYTES
    ensures Reports(s, ParseFrom(s, i, mode, seen, matches))
    decreases |s| - i
  {
    if i < MAX_SEQUENCE_BYTES && i < |s| {
      if IsDigit(s[i]) {
        StateReadsDigit(s, a, i, mode, seen, matches);
        ParseFromMeans(s, a, i + 1, ReadDigit(mode, s[i]), true, matches);
      } else if s[i] == SEMICOLON && seen {
        StateReadsSemicolon(s, a, i, mode, matches);
        ParseFromMeans(s, i + 1, i + 1, 0, false, matches || mode == 7);
      } else if seen && (s[i] == SET || s[i] == RESET) {
        StateEnds(s, a, i, mode, matches);
      }
    }
  }

  lemma {:induction false} ParseFromFinds(
      s: seq<byte>, n: nat, a: nat, i: nat, mode: nat, seen: bool, matches: bool)
    requires IsModeSequence(s, n) && i < n && State(s, a, i, mode, seen, matches)
    ensures ParseFrom(s, i, mode, seen, matches).Mode? && ParseFrom(s, i, mode, seen, matches).consumed == n
    decreases n - i
  {
    if i == n - 1 {
      assert IsDigit(s[i - 1]);
    } else if IsDigit(s[i]) {
      StateReadsDigit(s, a, i, mode, seen, matches);
      ParseFromFinds(s, n, a, i + 1, ReadDigit(mode, s[i]), true, matches);
    } else {
      assert IsDigit(s[i - 1]);
      StateReadsSemicolon(s, a, i, mode, matches);
      ParseFromFinds(s, n, i + 1, i + 1, 0, false, matches || mode == 7);
    }
  }

  /** After an ESC, the parser reports a mode sequence exactly when the input starts with one, and
      reports its length, its last byte, and whether it names mode 7. */
  lemma ParseMeaning(s: seq<byte>)
    requires s != [] && s[0] == ESC
    ensures Parse(s).Mode? <==> exists n: nat :: IsModeSequence(s, n)
    ensures Parse(s).Mode? ==>
            var n := Parse(s).consumed;
            IsModeSequence(s, n) && Parse(s).finalByte == s[n - 1] && (Parse(s).matches <==> Names7(s, n - 1))
  {
    if |s| >= 3 {
      assert State(s, 3, 3, 0, false, false);
      ParseFromMeans(s, 3, 3, 0, false, false);
    }
    if Parse(s).Mode? {
      assert IsModeSequence(s, Parse(s).consumed);
    }
    forall n: nat | IsModeSequence(s, n) ensures Parse(s).Mode? {
      ParseFromFinds(s, n, 3, 3, 0, false, false);
    }
  }

  // ---- Scanning --------------------------------------------------------------------------------------

  /** What the scanner does at the front of its input; each mode-7 sequence puts out its setting. */
  function Next(s: seq<byte>): Step<bool> {
    if s == [] then Wait
    else if s[0] != ESC then Take(1, [])
    else match Parse(s)
      case Mode(matches, f, n) => Take(n, if matches then [f == SET] else [])
      case Incomplete => Wait
      case NotAMode => Take(1, [])
  }

  lemma NextAdvances()
    ensures Advances(Next)
  {
  }

  lemma {:induction false} ParseFromStable(a: seq<byte>, b: seq<byte>, i: nat, mode: nat, seen: bool, matches: bool)
    requires 3 <= i <= MAX_SEQUENCE_BYTES && i <= |a| && !ParseFrom(a, i, mode, seen, matches).Incomplete?
    ensures ParseFrom(a + b, i, mode, seen, matches) == ParseFrom(a, i, mode, seen, matches)
    decreases |a| - i
  {
    if i < MAX_SEQUENCE_BYTES && i < |a| {
      var s := a + b;
      assert s[i] == a[i];
      if IsDigit(a[i]) {
        ParseFromStable(a, b, i + 1, ReadDigit(mode, a[i]), true, matches);
      } else if a[i] == SEMICOLON && seen {
        ParseFromStable(a, b, i + 1, 0, false, matches || mode == 7);
      }
    }
  }

  lemma NextIsStable()
    ensures Stable(Next)
  {
    forall a: seq<byte>, b: seq<byte> ensures StableAt(Next, a, b) {
      if Next(a).Take? {
        assert forall i | 0 <= i < |a| :: (a + b)[i] == a[i];
        if |a| >= 3 && a[1] == BRACKET && a[2] == QUESTION && a[0] == ESC {
          ParseFromStable(a, b, 3, 0, false, false);
        }
      }
    }
  }

  function Latest(settings: seq<bool>, before: bool): bool {
    if settings == [] then before else settings[|settings| - 1]
  }

  function ScanBytes(s: seq<byte>): Scanned<byte, bool> {
    NextAdvances();
    Scan(Next, s)
  }

  /** Scanning `data` has put out `settings` and goes on with `rest`. */
  ghost predicate ScansTo(data: seq<byte>, settings: seq<bool>, rest: seq<byte>) {
    NextAdvances();
    ScannedTo(Next, data, settings, rest)
  }

  lemma TakesStep(data: seq<byte>, settings: seq<bool>, rest: seq<byte>)
    requires ScansTo(data, settings, rest) && Next(rest).Take?
    ensures ScansTo(data, settings + Next(rest).out, rest[Next(rest).len..])
  {
    ScannedToTrans(Next, data, settings, rest, Next(rest).out, rest[Next(rest).len..]);
  }

  /** The scan of `data` has got as far as `rest`, and autowrap has become `autowrap`. */
  ghost predicate Follows(data: seq<byte>, before: bool, autowrap: bool, rest: seq<byte>) {
    exists settings :: ScansTo(data, settings, rest) && autowrap == Latest(settings, before)
  }

  ghost predicate Ends(data: seq<byte>, before: bool, autowrap: bool, tail: seq<byte>) {
    tail == ScanBytes(data).tail && autowrap == Latest(ScanBytes(data).out, before)
  }

  lemma FollowsStart(data: seq<byte>, before: bool)
    ensures Follows(data, before, before, data)
  {
    var r := ScanBytes(data);
    assert [] + r.out == r.out;
    assert ScansTo(data, [], data) && Latest([], before) == before;
  }

  lemma LatestAppend(a: seq<bool>, b: seq<bool>, before: bool)
    ensures Latest(a + b, before) == Latest(b, Latest(a, before))
  {
  }

  lemma FollowsStep(data: seq<byte>, before: bool, autowrap: bool, rest: seq<byte>)
    requires Follows(data, before, autowrap, rest) && Next(rest).Take?
    ensures Follows(data, before, Latest(Next(rest).out, autowrap), rest[Next(rest).len..])
  {
    var settings :| ScansTo(data, settings, rest) && autowrap == Latest(settings, before);
    TakesStep(data, settings, rest);
    LatestAppend(settings, Next(rest).out, before);
  }

  lemma FollowsEnd(data: seq<byte>, before: bool, autowrap: bool, rest: seq<byte>)
    requires Follows(data, before, autowrap, rest) && Next(rest).Wait?
    ensures Ends(data, before, autowrap, rest)
  {
    var settings :| ScansTo(data, settings, rest) && autowrap == Latest(settings, before);
    assert settings + [] == settings;
  }

  lemma FollowsPlain(data: seq<byte>, before: bool, autowrap: bool, rest: seq<byte>)
    requires Follows(data, before, autowrap, rest) && rest != [] && rest[0] != ESC
    ensures Follows(data, before, autowrap, rest[1..])
  {
    FollowsStep(data, before, autowrap, rest);
  }

  lemma FollowsEscape(data: seq<byte>, before: bool, autowrap: bool, rest: seq<byte>)
    requires Follows(data, before, autowrap, rest) && rest != [] && rest[0] == ESC
    ensures match Parse(rest)
            case Mode(matches, f, n) => Follows(data, before, if matches then f == SET else autowrap, rest[n..])
            case Incomplete => Ends(data, before, autowrap, rest)
            case NotAMode => Follows(data, before, autowrap, rest[1..])
  {
    if Next(rest).Take? {
      FollowsStep(data, before, autowrap, rest);
    } else {
      FollowsEnd(data, before, autowrap, rest);
    }
  }

  class DecModeTracker {
    var autowrap: bool
    var tail: seq<byte>

    /** Terminals start with autowrap on. */
    constructor ()
      ensures autowrap && tail == []
    {
      autowrap := true;
      tail := [];
    }

    method ScanChunk(bytes: seq<byte>)
      modifies this
      ensures var r := ScanBytes(old(tail) + bytes);
              tail == r.tail && autowrap == Latest(r.out, old(autowrap))
    {
      var data := tail + bytes;
      tail := [];
      var rest := data;
      FollowsStart(data, autowrap);
      while rest != []
        invariant Follows(data, old(autowrap), autowrap, rest) && tail == []
        decreases |rest|
      {
        if rest[0] != ESC {
          FollowsPlain(data, old(autowrap), autowrap, rest);
          rest := rest[1..];
          continue;
        }
        FollowsEscape(data, old(autowrap), autowrap, rest);
        var parsed := ParseDecPrivateMode(rest);
        match parsed {
          case Mode(matches, finalByte, consumed) =>
            if matches {
              autowrap := finalByte == SET;
            }
            rest := rest[consumed..];
          case Incomplete =>
            tail := tail + rest;
            return;
          case NotAMode =>
            rest := rest[1..];
        }
      }
      FollowsEnd(data, old(autowrap), autowrap, rest);
    }
  }

  // ---- Any cutting, and what the setting means -------------------------------------------------------

  lemma IncompleteIsShort(s: seq<byte>)
    requires Parse(s).Incomplete?
    ensures |s| < MAX_SEQUENCE_BYTES && forall k | 1 <= k < |s| :: s[k] != ESC
  {
    if |s| >= 3 {
      IncompleteFrom(s, 3, 0, false, false);
    }
  }

  lemma {:induction false} IncompleteFrom(s: seq<byte>, i: nat, mode: nat, seen: bool, matches: bool)
    requires 3 <= i <= MAX_SEQUENCE_BYTES && i <= |s| && ParseFrom(s, i, mode, seen, matches).Incomplete?
    ensures |s| < MAX_SEQUENCE_BYTES && forall k | i <= k < |s| :: s[k] != ESC
    decreases |s| - i
  {
    if i < |s| {
      if IsDigit(s[i]) {
        IncompleteFrom(s, i + 1, ReadDigit(mode, s[i]), true, matches);
      } else {
        IncompleteFrom(s, i + 1, 0, false, matches || mode == 7);
      }
    }
  }

  /** The setting and the tail after one scan for each chunk depend on the bytes only, and the tail
      is never longer than 31 bytes. */
  lemma TrackerIsChunkIndependent(chunks: seq<seq<byte>>)
    ensures Advances(Next) && ScanAll(Next, [], chunks) == ScanBytes(Concat(chunks))
    ensures |ScanBytes(Concat(chunks)).tail| < MAX_SEQUENCE_BYTES
  {
    NextAdvances();
    NextIsStable();
    ChunkIndependent(Next, [], chunks);
    assert [] + Concat(chunks) == Concat(chunks);
    var tail := ScanBytes(Concat(chunks)).tail;
    if tail != [] {
      IncompleteIsShort(tail);
    }
  }

  /** Byte i starts a complete mode sequence that names mode 7; `on` says which way. */
  ghost predicate SetsAt(s: seq<byte>, i: nat, on: bool) {
    i < |s| && exists n: nat :: IsModeSequence(s[i..], n) && Names7(s[i..], n - 1) && (s[i + n - 1] == SET <==> on)
  }

  /** Place i sets, and no later one does. */
  ghost predicate IsLast(sets: (nat, bool) -> bool, i: nat, on: bool) {
    sets(i, on) && forall j: nat, other | sets(j, other) :: j <= i
  }

  /** `after` is what the last place that sets anything sets; if there is none, it is `before`. */
  ghost predicate Leaves(sets: (nat, bool) -> bool, before: bool, after: bool) {
    || (exists i: nat :: IsLast(sets, i, after))
    || (after == before && forall j: nat, on :: !sets(j, on))
  }

  ghost function SetsIn(s: seq<byte>): (nat, bool) -> bool {
    (i: nat, on: bool) => SetsAt(s, i, on)
  }

  /** The places of `sets` but the first, counted from the second. */
  ghost predicate OneEarlier(sets: (nat, bool) -> bool, later: (nat, bool) -> bool) {
    && (forall j: nat, on | j > 0 :: sets(j, on) <==> later(j - 1, on))
    && (forall j: nat, on :: later(j, on) <==> sets(j + 1, on))
  }

  ghost predicate FirstLeaves(sets: (nat, bool) -> bool, before: bool, here: bool) {
    if sets(0, true) || sets(0, false) then sets(0, here) && !sets(0, !here) else here == before
  }

  lemma LastOneEarlier(sets: (nat, bool) -> bool, later: (nat, bool) -> bool, i: nat, on: bool)
    requires OneEarlier(sets, later) && IsLast(later, i, on)
    ensures IsLast(sets, i + 1, on)
  {
    forall j: nat, other | sets(j, other) ensures j <= i + 1 {
      if j > 0 {
        assert later(j - 1, other);
      }
    }
  }

  lemma FirstIsLast(sets: (nat, bool) -> bool, later: (nat, bool) -> bool, before: bool, here: bool)
    requires OneEarlier(sets, later) && FirstLeaves(sets, before, here) && forall j: nat, on :: !later(j, on)
    ensures Leaves(sets, before, here)
  {
    forall j: nat, on | j > 0 ensures !sets(j, on) {
      assert !later(j - 1, on);
    }
    if sets(0, here) {
      assert IsLast(sets, 0, here);
    }
  }

  lemma LeavesOneEarlier(
      sets: (nat, bool) -> bool, later: (nat, bool) -> bool, before: bool, here: bool, after: bool)
    requires OneEarlier(sets, later) && FirstLeaves(sets, before, here) && Leaves(later, here, after)
    ensures Leaves(sets, before, after)
  {
    if i: nat :| IsLast(later, i, after) {
      LastOneEarlier(sets, later, i, after);
    } else {
      FirstIsLast(sets, later, before, here);
    }
  }

  /** The setting a mode sequence right at the front leaves. */
  function SetHere(s: seq<byte>, before: bool): bool {
    if s != [] && s[0] == ESC && Parse(s).Mode? && Parse(s).matches then Parse(s).finalByte == SET else before
  }

  /** The setting after looking for a sequence at every single byte. */
  function LastSet(s: seq<byte>, before: bool): bool {
    if s == [] then before else LastSet(s[1..], SetHere(s, before))
  }

  lemma {:induction false} PlainBytesSetNothing(s: seq<byte>, n: nat, before: bool)
    requires n <= |s| && forall k | 0 <= k < n :: s[k] != ESC
    ensures LastSet(s, before) == LastSet(s[n..], before)
    decreases n
  {
    if n > 0 {
      PlainBytesSetNothing(s[1..], n - 1, before);
      DropDrop(s, 1, n - 1);
    }
  }

  /** A mode sequence has no ESC but its first byte. */
  lemma ModeHasOneEsc(s: seq<byte>)
    requires s != [] && s[0] == ESC && Parse(s).Mode?
    ensures forall k | 1 <= k < Parse(s).consumed :: s[k] != ESC
  {
    ParseMeaning(s);
  }

  lemma ModeSetsOnce(s: seq<byte>, before: bool)
    requires s != [] && s[0] == ESC && Parse(s).Mode?
    ensures LastSet(s, before) == LastSet(s[Parse(s).consumed..], SetHere(s, before))
  {
    var n := Parse(s).consumed;
    ModeHasOneEsc(s);
    PlainBytesSetNothing(s[1..], n - 1, SetHere(s, before));
    DropDrop(s, 1, n - 1);
  }

  /** The scanner, which skips over what it has taken, misses nothing. */
  lemma {:induction false} ScanFindsLastSet(s: seq<byte>, before: bool)
    ensures Latest(ScanBytes(s).out, before) == LastSet(s, before)
    decreases |s|
  {
    NextAdvances();
    if s != [] {
      match Next(s)
      case Wait =>
        IncompleteIsShort(s);
        PlainBytesSetNothing(s[1..], |s| - 1, before);
      case Take(n, out) =>
        var here := SetHere(s, before);
        ScanFindsLastSet(s[n..], here);
        if s[0] == ESC && Parse(s).Mode? {
          ModeSetsOnce(s, before);
        }
        LatestAppend(out, ScanBytes(s[n..]).out, before);
    }
  }

  lemma SetsAtShifts(s: seq<byte>, i: nat, on: bool)
    requires s != []
    ensures SetsAt(s[1..], i, on) <==> SetsAt(s, i + 1, on)
  {
    if i + 1 <= |s| {
      DropDrop(s, 1, i);
    }
  }

  lemma SetsAtFront(s: seq<byte>, on: bool)
    ensures SetsAt(s, 0, on) <==>
            s != [] && s[0] == ESC && Parse(s).Mode? && Parse(s).matches && (Parse(s).finalByte == SET <==> on)
  {
    assert s[0..] == s;
    if s != [] && s[0] == ESC {
      ParseMeaning(s);
      if Parse(s).Mode? {
        forall n: nat | IsModeSequence(s, n) ensures n == Parse(s).consumed {
          ParseFromFinds(s, n, 3, 3, 0, false, false);
        }
      }
    }
  }

  lemma SetHereMeans(s: seq<byte>, before: bool)
    ensures FirstLeaves(SetsIn(s), before, SetHere(s, before))
  {
    SetsAtFront(s, true);
    SetsAtFront(s, false);
  }

  lemma SetsOneEarlier(s: seq<byte>)
    requires s != []
    ensures OneEarlier(SetsIn(s), SetsIn(s[1..]))
  {
    var sets, later := SetsIn(s), SetsIn(s[1..]);
    forall j: nat, on | j > 0 ensures sets(j, on) <==> later(j - 1, on) {
      SetsAtShifts(s, j - 1, on);
    }
    forall j: nat, on ensures later(j, on) <==> sets(j + 1, on) {
      SetsAtShifts(s, j, on);
    }
  }

  lemma {:induction false} LastSetMeans(s: seq<byte>, before: bool)
    ensures Leaves(SetsIn(s), before, LastSet(s, before))
  {
    if s != [] {
      LastSetMeans(s[1..], SetHere(s, before));
      SetsOneEarlier(s);
      SetHereMeans(s, before);
      LeavesOneEarlier(SetsIn(s), SetsIn(s[1..]), before, SetHere(s, before), LastSet(s, before));
    }
  }

  /** However the bytes of a session are cut, autowrap ends up as the last complete mode sequence
      of at most 32 bytes that names mode 7 leaves it, and on if there is none. */
  lemma AutowrapIsTheLastSetting(chunks: seq<seq<byte>>)
    ensures Advances(Next)
    ensures Leaves(SetsIn(Concat(chunks)), true, Latest(ScanAll(Next, [], chunks).out, true))
  {
    TrackerIsChunkIndependent(chunks);
    ScanFindsLastSet(Concat(chunks), true);
    LastSetMeans(Concat(chunks), true);
  }
}
