/** Stripping the private exit marker from the text of a session. */
module Marker {
  // The marker is `0x1E WAND_CLI_EXIT:<token>:<status> 0x1F`, and the PTY can cut it anywhere.

  import opened Options
  import opened Scanner
  import opened Utf8

  const MARKER_START: Text :=
    [0x1E, 0x57, 0x41, 0x4E, 0x44, 0x5F, 0x43, 0x4C, 0x49, 0x5F, 0x45, 0x58, 0x49, 0x54, 0x3A]
  const MARKER_END: Scalar := 0x1F
  const COLON: Scalar := 0x3A

  function Prefix(token: Text): (p: Text)
    ensures |p| > 0
  {
    MARKER_START + token + [COLON]
  }

  // ---- Searching ------------------------------------------------------------------------------

  predicate At(s: Text, p: Text, i: nat) {
    i + |p| <= |s| && forall k | 0 <= k < |p| :: s[i + k] == p[k]
  }

  lemma {:induction false} FirstExists(s: Text, p: Text, i: nat)
    requires At(s, p, i)
    ensures exists k: nat :: IsFirst(s, p, k)
  {
    if !IsFirst(s, p, i) {
      var j: nat :| j < i && At(s, p, j);
      FirstExists(s, p, j);
    }
  }

  ghost predicate IsFirst(s: Text, p: Text, i: nat) {
    At(s, p, i) && forall j | 0 <= j < i :: !At(s, p, j)
  }

  /** The first place where `p` occurs. */
  ghost function Find(s: Text, p: Text): (r: Option<nat>)
    ensures r.None? ==> forall i :: !At(s, p, i)
    ensures r.Some? ==> IsFirst(s, p, r.value)
  {
    if i: nat :| At(s, p, i) then
      FirstExists(s, p, i);
      var k: nat :| IsFirst(s, p, k);
      Some(k)
    else None
  }

  /** `str::find` on text. */
  method FindText(s: Text, p: Text) returns (r: Option<nat>)
    ensures r == Find(s, p)
  {
    var i := 0;
    while i + |p| <= |s|
      invariant forall j | 0 <= j < i :: !At(s, p, j)
    {
      if s[i..i + |p|] == p {
        FindIsUnique(s, p, i);
        return Some(i);
      }
      i := i + 1;
    }
    r := None;
  }

  lemma FindIsUnique(s: Text, p: Text, i: nat)
    requires IsFirst(s, p, i)
    ensures Find(s, p) == Some(i)
  {
  }

  ghost predicate IsEnd(s: Text, from: nat, e: nat) {
    from <= e < |s| && s[e] == MARKER_END && forall i | from <= i < e :: s[i] != MARKER_END
  }

  function FindEnd(s: Text, from: nat): (r: Option<nat>)
    requires from <= |s|
    ensures r.None? ==> forall i | from <= i < |s| :: s[i] != MARKER_END
    ensures r.Some? ==> IsEnd(s, from, r.value)
    decreases |s| - from
  {
    if from == |s| then None
    else if s[from] == MARKER_END then Some(from)
    else FindEnd(s, from + 1)
  }

  predicate IsExitCode(s: Text) {
    1 <= |s| <= 3 && forall i | 0 <= i < |s| :: 0x30 <= s[i] <= 0x39
  }

  /** How much of the end of `s` could be the start of a marker prefix. */
  ghost predicate EndsWithStart(s: Text, p: Text, k: nat) {
    k < |p| && k <= |s| && forall m | 0 <= m < k :: s[|s| - k + m] == p[m]
  }

  function Partial(s: Text, p: Text): (k: nat)
    requires |p| > 0
    ensures EndsWithStart(s, p, k) && forall j | k < j :: !EndsWithStart(s, p, j)
  {
    PartialFrom(s, p, if |s| < |p| then |s| else |p| - 1)
  }

  function PartialFrom(s: Text, p: Text, max: nat): (k: nat)
    requires max < |p| && max <= |s| && forall j | max < j :: !EndsWithStart(s, p, j)
    ensures EndsWithStart(s, p, k) && forall j | k < j :: !EndsWithStart(s, p, j)
    decreases max
  {
    if max == 0 || s[|s| - max..] == p[..max] then max else PartialFrom(s, p, max - 1)
  }

  lemma StartAsSlice(s: Text, p: Text, k: nat)
    requires k < |p| && k <= |s|
    ensures EndsWithStart(s, p, k) <==> s[|s| - k..] == p[..k]
  {
  }

  /** No longer end of `s` is a start of `p`. */
  ghost predicate NoLonger(s: Text, p: Text, k: nat) {
    forall j | k < j :: !EndsWithStart(s, p, j)
  }

  lemma PartialIsUnique(s: Text, p: Text, k: nat)
    requires |p| > 0 && EndsWithStart(s, p, k) && NoLonger(s, p, k)
    ensures Partial(s, p) == k
  {
  }

  lemma OneShorter(s: Text, p: Text, k: nat)
    requires k > 0 && NoLonger(s, p, k) && !EndsWithStart(s, p, k)
    ensures NoLonger(s, p, k - 1)
  {
  }

  /** The loop of the source: lengths are tried from the longest down. */
  method LongestPrefixSuffix(value: Text, prefix: Text) returns (k: nat)
    requires |prefix| > 0
    ensures k == Partial(value, prefix)
  {
    k := if |value| < |prefix| then |value| else |prefix| - 1;
    while k > 0
      invariant k < |prefix| && k <= |value| && NoLonger(value, prefix, k)
    {
      StartAsSlice(value, prefix, k);
      if value[|value| - k..] == prefix[..k] {
        PartialIsUnique(value, prefix, k);
        return;
      }
      OneShorter(value, prefix, k);
      k := k - 1;
    }
    PartialIsUnique(value, prefix, 0);
  }

  // ---- One chunk --------------------------------------------------------------------------------

  /** An own prefix is still open, closes a marker with an exit code, or closes something else. */
  datatype Verdict = Open | Exit(end: nat) | Malformed(end: nat)

  ghost function Judge(s: Text, p: Text, i: nat): (v: Verdict)
    requires At(s, p, i)
    ensures !v.Open? ==> i + |p| <= v.end < |s| && s[v.end] == MARKER_END
  {
    match FindEnd(s, i + |p|)
    case None => Open
    case Some(e) => if IsExitCode(s[i + |p|..e]) then Exit(e) else Malformed(e)
  }

  datatype Stripped = Stripped(visible: Text, pending: Text, completed: bool)

  /** Show everything before `at` and hold the rest back, or cut a whole marker out. */
  datatype Outcome = HoldAt(at: nat) | CutOut(start: nat, end: nat)

  ghost function Decide(s: Text, p: Text): (o: Outcome)
    requires |p| > 0
    ensures o.HoldAt? ==> o.at <= |s|
    ensures o.CutOut? ==> o.start <= o.end < |s|
  {
    match Find(s, p)
    case None => HoldAt(|s| - Partial(s, p))
    case Some(i) =>
      match Judge(s, p, i)
      case Open => HoldAt(i)
      case Exit(e) => CutOut(i, e)
      case Malformed(_) => HoldAt(|s| - Partial(s, p))
  }

  function Apply(s: Text, o: Outcome): Stripped
    requires o.HoldAt? ==> o.at <= |s|
    requires o.CutOut? ==> o.start <= o.end < |s|
  {
    match o
    case HoldAt(at) => Stripped(s[..at], s[at..], false)
    case CutOut(i, e) => Stripped(s[..i] + s[e + 1..], [], true)
  }

  /** What becomes of everything not yet shown. */
  ghost function Strip(s: Text, p: Text): Stripped
    requires |p| > 0
  {
    Apply(s, Decide(s, p))
  }

  ghost function Stripper(p: Text): Text -> Stripped
    requires |p| > 0
  {
    (s: Text) => Strip(s, p)
  }

  /** One chunk: after the marker has been taken out everything is shown. */
  function Eat(strip: Text -> Stripped, pending: Text, completed: bool, chunk: Text): Stripped {
    if completed then Stripped(chunk, pending, true) else strip(pending + chunk)
  }

  // ---- Cutting in bytes -------------------------------------------------------------------------

  /** Where the last `n` bytes of `s` begin, unless that is inside a character: a slice there
      panics. */
  function ByteCut(s: Text, n: nat): (r: Option<nat>)
    ensures r.Some? ==> r.value <= |s| && |Encode(s[r.value..])| == n
    ensures r.None? ==> forall i | 0 <= i <= |s| :: |Encode(s[i..])| != n
  {
    if n == 0 then
      assert s[|s|..] == [];
      Some(|s|)
    else if s == [] then None
    else
      var front, width := s[..|s| - 1], |EncodeScalar(s[|s| - 1])|;
      LastWidth(s);
      if width > n then None else ByteCut(front, n - width)
  }

  lemma LastWidth(s: Text)
    requires s != []
    ensures forall i | 0 <= i < |s| ::
              |Encode(s[i..])| == |Encode(s[..|s| - 1][i..])| + |EncodeScalar(s[|s| - 1])|
  {
    var last := [s[|s| - 1]];
    assert last[1..] == [];
    forall i | 0 <= i < |s| ensures |Encode(s[i..])| == |Encode(s[..|s| - 1][i..])| + |EncodeScalar(s[|s| - 1])| {
      assert s[i..] == s[..|s| - 1][i..] + last;
      EncodeConcat(s[..|s| - 1][i..], last);
    }
  }

  /** The first own marker is still open or has an exit code. */
  ghost predicate FirstIsTaken(s: Text, p: Text) {
    Find(s, p).Some? && !Judge(s, p, Find(s, p).value).Malformed?
  }

  ghost function Taken(s: Text, p: Text): Option<Stripped>
    requires |p| > 0
  {
    if FirstIsTaken(s, p) then Some(Strip(s, p)) else None
  }

  /** What the source does with everything not yet shown, or None where it panics.  The start of a
      marker that it holds back is counted in characters and cut off in bytes. */
  ghost function StripBytes(s: Text, p: Text): Option<Stripped>
    requires |p| > 0
  {
    if Taken(s, p).Some? then Taken(s, p)
    else
      match ByteCut(s, Partial(s, p))
      case None => None
      case Some(at) => Some(Apply(s, HoldAt(at)))
  }

  method TakeMarker(s: Text, p: Text) returns (r: Option<Stripped>)
    requires |p| > 0
    ensures r == Taken(s, p)
  {
    var found := FindText(s, p);
    match found {
      case None => return None;
      case Some(start) =>
        var afterPrefix := start + |p|;
        match FindEnd(s, afterPrefix) {
          case None => return Some(Stripped(s[..start], s[start..], false));
          case Some(end) =>
            if IsExitCode(s[afterPrefix..end]) {
              return Some(Stripped(s[..start] + s[end + 1..], [], true));
            }
            return None;
        }
    }
  }

  class MarkerStripper {
    const prefix: Text
    var pending: Text
    var completed: bool

    constructor (token: Text)
      ensures prefix == Prefix(token) && pending == [] && !completed
    {
      prefix := Prefix(token);
      pending := [];
      completed := false;
    }

    /** None stands for a panic. */
    method Consume(chunk: Text) returns (visible: Option<Text>)
      requires |prefix| > 0
      modifies this
      ensures old(completed) ==> visible == Some(chunk) && completed && pending == old(pending)
      ensures !old(completed) ==>
                var r := StripBytes(old(pending) + chunk, prefix);
                if r.None? then visible.None?
                else visible.Some? && Stripped(visible.value, pending, completed) == r.value
    {
      if completed {
        return Some(chunk);
      }
      var combined := pending + chunk;
      pending := [];
      var marker := TakeMarker(combined, prefix);
      if marker.Some? {
        pending, completed := marker.value.pending, marker.value.completed;
        return Some(marker.value.visible);
      }
      visible := HoldPartial(combined);
    }

    method HoldPartial(combined: Text) returns (visible: Option<Text>)
      requires |prefix| > 0 && pending == []
      modifies this`pending
      ensures match ByteCut(combined, Partial(combined, prefix))
              case None => visible.None?
              case Some(at) => visible == Some(combined[..at]) && pending == combined[at..]
    {
      var partial := LongestPrefixSuffix(combined, prefix);
      if partial == 0 {
        assert combined[..|combined|] == combined;
        return Some(combined);
      }
      match ByteCut(combined, partial) {
        case None => visible := None;
        case Some(boundary) =>
          pending := combined[boundary..];
          visible := Some(combined[..boundary]);
      }
    }
  }

  lemma AsciiCut(s: Text, n: nat, held: Text)
    requires n <= |s| && held == s[|s| - n..] && IsAscii(held)
    ensures ByteCut(s, n) == Some(|s| - n)
  {
    AsciiLength(held);
    ByteCutIsUnique(s, |s| - n);
  }

  lemma OtherCut(s: Text, n: nat, held: Text)
    requires n <= |s| && held == s[|s| - n..] && !IsAscii(held)
    ensures ByteCut(s, n) != Some(|s| - n)
  {
    AsciiLength(held);
  }

  /** Cutting n bytes off is cutting n characters off exactly when these are ASCII. */
  lemma ByteCutAt(s: Text, n: nat, held: Text)
    requires n <= |s| && held == s[|s| - n..]
    ensures ByteCut(s, n) == Some(|s| - n) <==> IsAscii(held)
  {
    if IsAscii(held) {
      AsciiCut(s, n, held);
    } else {
      OtherCut(s, n, held);
    }
  }

  /** Characters and bytes agree where the start of a marker that is held back is ASCII. */
  lemma HeldCut(s: Text, p: Text, k: nat)
    requires EndsWithStart(s, p, k)
    ensures ByteCut(s, k) == Some(|s| - k) <==> IsAscii(p[..k])
  {
    StartAsSlice(s, p, k);
    ByteCutAt(s, k, p[..k]);
  }

  lemma LongerEncodesLonger(s: Text, a: nat, b: nat)
    requires a < b <= |s|
    ensures |Encode(s[a..])| > |Encode(s[b..])|
  {
    assert s[a..] == s[a..b] + s[b..];
    EncodeConcat(s[a..b], s[b..]);
    AsciiLength(s[a..b]);
  }

  lemma ByteCutIsUnique(s: Text, i: nat)
    requires i <= |s|
    ensures ByteCut(s, |Encode(s[i..])|) == Some(i)
  {
    var j := ByteCut(s, |Encode(s[i..])|).value;
    if i < j {
      LongerEncodesLonger(s, i, j);
    } else if j < i {
      LongerEncodesLonger(s, j, i);
    }
  }

  lemma StartIsAscii(p: Text, k: nat)
    requires k < |p| && IsAscii(p[..|p| - 1])
    ensures IsAscii(p[..k])
  {
    assert forall i | 0 <= i < k :: p[..k][i] == p[..|p| - 1][i];
  }

  lemma NotTakenIsHeld(s: Text, p: Text)
    requires |p| > 0 && !FirstIsTaken(s, p)
    ensures Strip(s, p) == Apply(s, HoldAt(|s| - Partial(s, p)))
  {
  }

  lemma AsciiStrips(s: Text, p: Text)
    requires |p| > 0 && IsAscii(p[..|p| - 1])
    ensures StripBytes(s, p) == Some(Strip(s, p))
  {
    if !FirstIsTaken(s, p) {
      NotTakenIsHeld(s, p);
      StartIsAscii(p, Partial(s, p));
      HeldCut(s, p, Partial(s, p));
    }
  }

  lemma AsciiPrefix(token: Text)
    requires IsAscii(token)
    ensures IsAscii(Prefix(token))
  {
    var p := Prefix(token);
    assert forall i | |MARKER_START| <= i < |p| - 1 :: p[i] == token[i - |MARKER_START|];
  }

  /** The start of a marker is held back whole. */
  lemma StartIsPartial(p: Text)
    requires |p| > 0
    ensures var s := p[..|p| - 1]; Partial(s, p) == |s| && Find(s, p) == None && Strip(s, p) == Stripped([], s, false)
  {
    var s := p[..|p| - 1];
    assert EndsWithStart(s, p, |s|);
    assert Decide(s, p) == HoldAt(0);
  }

  /** A start that is not ASCII, and nothing else, is not held back whole. */
  lemma OtherStart(s: Text, p: Text)
    requires |p| > 0 && Find(s, p).None? && Partial(s, p) == |s| && s == p[..|s|] && !IsAscii(s)
    ensures StripBytes(s, p) != Some(Stripped([], s, false))
  {
    HeldCut(s, p, |s|);
    if ByteCut(s, |s|).Some? {
      assert |Apply(s, HoldAt(ByteCut(s, |s|).value)).visible| > 0;
    }
  }

  lemma OtherTokensFail(token: Text)
    requires !IsAscii(token)
    ensures StripBytes(MARKER_START + token, Prefix(token)) != Some(Strip(MARKER_START + token, Prefix(token)))
  {
    var p, s := Prefix(token), MARKER_START + token;
    assert s == p[..|p| - 1];
    var i :| 0 <= i < |token| && token[i] >= 0x80;
    assert s[|MARKER_START| + i] == token[i];
    StartIsPartial(p);
    OtherStart(s, p);
  }

  /** The source takes every input apart as it should if and only if the token is ASCII: for any
      other token, the marker's own start, cut off before its colon, is shown in part or panics. */
  lemma BytesAgreeForAscii(token: Text)
    ensures (forall s :: StripBytes(s, Prefix(token)) == Some(Strip(s, Prefix(token)))) <==> IsAscii(token)
  {
    if IsAscii(token) {
      AsciiPrefix(token);
      forall s ensures StripBytes(s, Prefix(token)) == Some(Strip(s, Prefix(token))) {
        AsciiStrips(s, Prefix(token));
      }
    } else {
      OtherTokensFail(token);
    }
  }

  // ---- Any number of chunks -------------------------------------------------------------------

  /** All text shown, and what is held back in the end, if `strip` decides what to show. */
  function EatAll(strip: Text -> Stripped, pending: Text, completed: bool, chunks: seq<Text>): Stripped
    decreases |chunks|
  {
    if chunks == [] then Stripped([], pending, completed)
    else
      var first := Eat(strip, pending, completed, chunks[0]);
      var rest := EatAll(strip, first.pending, first.completed, chunks[1..]);
      rest.(visible := first.visible + rest.visible)
  }

  /** All text shown, and what is held back, when a fresh stripper has consumed each chunk. */
  ghost function ConsumeAll(p: Text, chunks: seq<Text>): Stripped
    requires |p| > 0
  {
    EatAll(Stripper(p), [], false, chunks)
  }

  /** The same for the stripper of the source; None if it panics. */
  ghost function EatAllBytes(p: Text, pending: Text, completed: bool, chunks: seq<Text>): Option<Stripped>
    requires |p| > 0
    decreases |chunks|
  {
    if chunks == [] then Some(Stripped([], pending, completed))
    else
      match if completed then Some(Stripped(chunks[0], pending, true)) else StripBytes(pending + chunks[0], p)
      case None => None
      case Some(first) =>
        match EatAllBytes(p, first.pending, first.completed, chunks[1..])
        case None => None
        case Some(rest) => Some(rest.(visible := first.visible + rest.visible))
  }

  ghost function ConsumeBytes(token: Text, chunks: seq<Text>): Option<Stripped> {
    EatAllBytes(Prefix(token), [], false, chunks)
  }

  /** The stripper of the source, as long as it does not panic. */
  ghost function ByteStripper(p: Text): Text -> Stripped
    requires |p| > 0
  {
    (s: Text) => if StripBytes(s, p).Some? then StripBytes(s, p).value else Strip(s, p)
  }

  lemma {:induction false} BytesAreEaten(p: Text, pending: Text, completed: bool, chunks: seq<Text>)
    requires |p| > 0
    ensures var r := EatAllBytes(p, pending, completed, chunks);
            r.Some? ==> r.value == EatAll(ByteStripper(p), pending, completed, chunks)
    decreases |chunks|
  {
    if chunks != [] && EatAllBytes(p, pending, completed, chunks).Some? {
      var first := Eat(ByteStripper(p), pending, completed, chunks[0]);
      BytesAreEaten(p, first.pending, first.completed, chunks[1..]);
    }
  }

  lemma {:induction false} AsciiEats(p: Text, pending: Text, completed: bool, chunks: seq<Text>)
    requires |p| > 0 && IsAscii(p[..|p| - 1])
    ensures EatAllBytes(p, pending, completed, chunks) == Some(EatAll(Stripper(p), pending, completed, chunks))
    decreases |chunks|
  {
    if chunks != [] {
      AsciiStrips(pending + chunks[0], p);
      var first := Eat(Stripper(p), pending, completed, chunks[0]);
      AsciiEats(p, first.pending, first.completed, chunks[1..]);
    }
  }

  /** For an ASCII token the source never panics and strips character by character. */
  lemma AsciiConsumes(token: Text, chunks: seq<Text>)
    requires IsAscii(token)
    ensures ConsumeBytes(token, chunks) == Some(ConsumeAll(Prefix(token), chunks))
  {
    var p := Prefix(token);
    AsciiPrefix(token);
    assert forall i | 0 <= i < |p| - 1 :: p[..|p| - 1][i] == p[i];
    AsciiEats(p, [], false, chunks);
  }

  lemma {:induction false} PassThrough(strip: Text -> Stripped, chunks: seq<Text>)
    ensures EatAll(strip, [], true, chunks) == Stripped(Concat(chunks), [], true)
  {
    if chunks != [] {
      PassThrough(strip, chunks[1..]);
    }
  }

  /** `shown` is `input` with exactly one marker of the prefix `p` taken out. */
  ghost predicate WithoutOneMarker(p: Text, input: Text, shown: Text) {
    exists i, code | 0 <= i <= |shown| && IsExitCode(code) ::
      input == shown[..i] + p + code + [MARKER_END] + shown[i..]
  }

  lemma WithoutOneMarkerExtends(p: Text, a: Text, shownA: Text, before: Text, b: Text)
    requires WithoutOneMarker(p, a, shownA)
    ensures WithoutOneMarker(p, before + a + b, before + shownA + b)
  {
    var i, code :| 0 <= i <= |shownA| && IsExitCode(code) &&
      a == shownA[..i] + p + code + [MARKER_END] + shownA[i..];
    var shown, k := before + shownA + b, |before| + i;
    assert shown[..k] == before + shownA[..i] && shown[k..] == shownA[i..] + b;
    assert before + a + b == shown[..k] + p + code + [MARKER_END] + shown[k..];
  }

  ghost predicate Accounted(p: Text, input: Text, r: Stripped) {
    && (!r.completed ==> r.visible + r.pending == input)
    && (r.completed ==> r.pending == [] && WithoutOneMarker(p, input, r.visible))
  }

  lemma MarkerTakenOut(p: Text, s: Text, i: nat, e: nat)
    requires At(s, p, i) && i + |p| <= e < |s| && s[e] == MARKER_END && IsExitCode(s[i + |p|..e])
    ensures WithoutOneMarker(p, s, s[..i] + s[e + 1..])
  {
    var shown, code := s[..i] + s[e + 1..], s[i + |p|..e];
    assert shown[..i] == s[..i] && shown[i..] == s[e + 1..];
    assert s == shown[..i] + p + code + [MARKER_END] + shown[i..];
  }

  lemma StripAccounts(p: Text, s: Text)
    requires |p| > 0
    ensures Accounted(p, s, Strip(s, p))
  {
    match Decide(s, p) {
      case HoldAt(_) =>
      case CutOut(i, e) => MarkerTakenOut(p, s, i, e);
    }
  }

  lemma AfterCompletion(p: Text, s: Text, first: Stripped, later: Text)
    requires first.completed && Accounted(p, s, first)
    ensures Accounted(p, s + later, Stripped(first.visible + later, [], true))
  {
    WithoutOneMarkerExtends(p, s, first.visible, [], later);
    assert [] + s + later == s + later && [] + first.visible + later == first.visible + later;
  }

  lemma AfterHolding(p: Text, s: Text, first: Stripped, later: Text, rest: Stripped)
    requires !first.completed && Accounted(p, s, first) && Accounted(p, first.pending + later, rest)
    ensures Accounted(p, s + later, rest.(visible := first.visible + rest.visible))
  {
    var input := first.pending + later;
    assert first.visible + input == s + later;
    if rest.completed {
      WithoutOneMarkerExtends(p, input, rest.visible, first.visible, []);
      assert first.visible + input + [] == first.visible + input;
      assert first.visible + rest.visible + [] == first.visible + rest.visible;
    } else {
      assert first.visible + (rest.visible + rest.pending) == first.visible + rest.visible + rest.pending;
    }
  }

  lemma {:induction false} EatAllAccounts(p: Text, strip: Text -> Stripped, pending: Text, chunks: seq<Text>)
    requires forall s :: Accounted(p, s, strip(s))
    ensures Accounted(p, pending + Concat(chunks), EatAll(strip, pending, false, chunks))
    decreases |chunks|
  {
    if chunks == [] {
      assert pending + Concat(chunks) == [] + pending;
    } else {
      var s, later := pending + chunks[0], Concat(chunks[1..]);
      var first := strip(s);
      assert pending + Concat(chunks) == s + later;
      if first.completed {
        PassThrough(strip, chunks[1..]);
        AfterCompletion(p, s, first, later);
      } else {
        EatAllAccounts(p, strip, first.pending, chunks[1..]);
        AfterHolding(p, s, first, later, EatAll(strip, first.pending, false, chunks[1..]));
      }
    }
  }

  lemma HoldingAccounts(p: Text, s: Text, at: nat)
    requires at <= |s|
    ensures Accounted(p, s, Apply(s, HoldAt(at)))
  {
  }

  lemma BytesAccount(p: Text, s: Text)
    requires |p| > 0
    ensures Accounted(p, s, ByteStripper(p)(s))
  {
    StripAccounts(p, s);
    if !Taken(s, p).Some? && ByteCut(s, Partial(s, p)).Some? {
      HoldingAccounts(p, s, ByteCut(s, Partial(s, p)).value);
    }
  }

  /** Nothing is lost, whatever the token: as long as the stripper does not panic, which it cannot for
      an ASCII token, the text shown and the text held back make up the input until the marker
      completes; afterwards the text shown is the input minus exactly one well-formed marker. */
  lemma NothingIsLost(token: Text, chunks: seq<Text>)
    ensures IsAscii(token) ==> ConsumeBytes(token, chunks).Some?
    ensures match ConsumeBytes(token, chunks)
            case None => true
            case Some(r) =>
              && (!r.completed ==> r.visible + r.pending == Concat(chunks))
              && (r.completed ==> r.pending == [] && WithoutOneMarker(Prefix(token), Concat(chunks), r.visible))
  {
    var p := Prefix(token);
    if IsAscii(token) {
      AsciiConsumes(token, chunks);
    }
    BytesAreEaten(p, [], false, chunks);
    forall s ensures Accounted(p, s, ByteStripper(p)(s)) {
      BytesAccount(p, s);
    }
    EatAllAccounts(p, ByteStripper(p), [], chunks);
    assert [] + Concat(chunks) == Concat(chunks);
  }

  /** Consuming `a` and then `b` comes to the same as consuming both at once, and leaves an input
      that is `good` too. */
  ghost predicate CutsAt(strip: Text -> Stripped, good: Text -> bool, a: Text, b: Text) {
    var first := strip(a);
    good(a + b) ==>
      if first.completed then first.pending == [] && strip(a + b) == Stripped(first.visible + b, [], true)
      else
        var rest := strip(first.pending + b);
        good(first.pending + b) && strip(a + b) == rest.(visible := first.visible + rest.visible)
  }

  /** What is held back would be held back again. */
  ghost predicate Holds(strip: Text -> Stripped, a: Text) {
    !strip(a).completed ==> strip(strip(a).pending) == Stripped([], strip(a).pending, false)
  }

  lemma {:induction false} GoodCuts(strip: Text -> Stripped, good: Text -> bool, pending: Text, chunks: seq<Text>)
    requires (forall a, b :: CutsAt(strip, good, a, b)) && forall a :: Holds(strip, a)
    requires strip(pending) == Stripped([], pending, false) && good(pending + Concat(chunks))
    ensures EatAll(strip, pending, false, chunks) == strip(pending + Concat(chunks))
    decreases |chunks|
  {
    if chunks == [] {
      assert pending + Concat(chunks) == pending;
    } else {
      var a, b := pending + chunks[0], Concat(chunks[1..]);
      assert pending + Concat(chunks) == a + b;
      assert CutsAt(strip, good, a, b);
      var first := strip(a);
      if first.completed {
        PassThrough(strip, chunks[1..]);
      } else {
        assert Holds(strip, a);
        GoodCuts(strip, good, first.pending, chunks[1..]);
      }
    }
  }

  // ---- When cutting makes no difference -----------------------------------------------------------

  lemma AtShifts(s: Text, p: Text, d: nat, i: nat)
    requires d <= |s|
    ensures At(s[d..], p, i) <==> At(s, p, d + i)
  {
  }

  lemma FindEndIsUnique(s: Text, from: nat, e: nat)
    requires IsEnd(s, from, e)
    ensures FindEnd(s, from) == Some(e)
  {
  }

  /** Text in front of an own prefix has no say in what becomes of it. */
  lemma JudgeShifts(s: Text, p: Text, d: nat, i: nat)
    requires d <= |s| && At(s[d..], p, i) && At(s, p, d + i)
    ensures match Judge(s[d..], p, i)
            case Open => Judge(s, p, d + i) == Open
            case Exit(e) => Judge(s, p, d + i) == Exit(d + e)
            case Malformed(e) => Judge(s, p, d + i) == Malformed(d + e)
  {
    var t, from := s[d..], i + |p|;
    match FindEnd(t, from) {
      case None =>
        assert forall j | d + from <= j < |s| :: s[j] == t[j - d];
      case Some(e) =>
        assert forall j | d + from <= j < d + e :: s[j] == t[j - d];
        FindEndIsUnique(s, d + from, d + e);
        assert t[from..e] == s[d + from..d + e];
    }
  }

  /** Text that follows a closed marker has no say in it either. */
  lemma JudgeStable(a: Text, b: Text, p: Text, i: nat)
    requires At(a, p, i) && !Judge(a, p, i).Open?
    ensures At(a + b, p, i) && Judge(a + b, p, i) == Judge(a, p, i)
  {
    var s, e := a + b, Judge(a, p, i).end;
    FindEndIsUnique(s, i + |p|, e);
    assert s[i + |p|..e] == a[i + |p|..e];
  }

  /** The part of the end of `s` that could start a marker is found in any long enough end of it. */
  lemma PartialShifts(s: Text, p: Text, d: nat)
    requires |p| > 0 && d <= |s| && Partial(s, p) <= |s| - d
    ensures Partial(s[d..], p) == Partial(s, p)
  {
    var t := s[d..];
    forall k: nat | k <= |t| ensures EndsWithStart(t, p, k) <==> EndsWithStart(s, p, k) {
      assert |s| - k == d + (|t| - k);
    }
  }

  lemma PartialGrows(a: Text, b: Text, p: Text)
    requires |p| > 0
    ensures Partial(a + b, p) <= Partial(a, p) + |b|
  {
    var k := Partial(a + b, p);
    if k > |b| {
      StartsEarlier(a, b, p, k);
    }
  }

  /** A start that reaches back into `a` is one of its ends too. */
  lemma StartsEarlier(a: Text, b: Text, p: Text, k: nat)
    requires |b| < k && EndsWithStart(a + b, p, k)
    ensures EndsWithStart(a, p, k - |b|)
  {
    var s, j := a + b, k - |b|;
    forall m | 0 <= m < j ensures a[|a| - j + m] == p[m] {
      assert s[|s| - k + m] == p[m];
    }
  }

  /** Everything before `d` can be shown: no own prefix starts there, nor can one still. */
  ghost predicate Showable(s: Text, p: Text, d: nat)
    requires |p| > 0
  {
    d <= |s| && Partial(s, p) <= |s| - d && forall i | 0 <= i < d :: !At(s, p, i)
  }

  lemma FindShifts(s: Text, p: Text, d: nat)
    requires d <= |s| && forall i | 0 <= i < d :: !At(s, p, i)
    ensures match Find(s[d..], p)
            case None => Find(s, p) == None
            case Some(i) => At(s, p, d + i) && Find(s, p) == Some(d + i)
  {
    forall j: nat | j >= d ensures At(s[d..], p, j - d) <==> At(s, p, j) {
      AtShifts(s, p, d, j - d);
    }
    match Find(s[d..], p) {
      case None =>
      case Some(i) =>
        AtShifts(s, p, d, i);
        FindIsUnique(s, p, d + i);
    }
  }

  function Shift(o: Outcome, d: nat): Outcome {
    match o
    case HoldAt(at) => HoldAt(d + at)
    case CutOut(i, e) => CutOut(d + i, d + e)
  }

  lemma DecideShifts(s: Text, p: Text, d: nat)
    requires |p| > 0 && Showable(s, p, d)
    ensures Decide(s, p) == Shift(Decide(s[d..], p), d)
  {
    var t := s[d..];
    PartialShifts(s, p, d);
    FindShifts(s, p, d);
    if Find(t, p).Some? {
      JudgeShifts(s, p, d, Find(t, p).value);
    }
  }

  lemma ApplyShifts(s: Text, d: nat, o: Outcome)
    requires d <= |s|
    requires o.HoldAt? ==> d + o.at <= |s|
    requires o.CutOut? ==> o.start <= o.end && d + o.end < |s|
    ensures var rest := Apply(s[d..], o);
            Apply(s, Shift(o, d)) == rest.(visible := s[..d] + rest.visible)
  {
    match o {
      case HoldAt(at) =>
        assert s[..d + at] == s[..d] + s[d..][..at];
        assert s[d + at..] == s[d..][at..];
      case CutOut(i, e) =>
        assert s[..d + i] == s[..d] + s[d..][..i] && s[d..][e + 1..] == s[d + e + 1..];
        assert s[..d] + (s[d..][..i] + s[d..][e + 1..]) == s[..d + i] + s[d + e + 1..];
    }
  }

  /** Showing it at once makes no difference to the rest. */
  lemma StripShifts(s: Text, p: Text, d: nat)
    requires |p| > 0 && Showable(s, p, d)
    ensures var rest := Strip(s[d..], p);
            Strip(s, p) == rest.(visible := s[..d] + rest.visible)
  {
    DecideShifts(s, p, d);
    ApplyShifts(s, d, Decide(s[d..], p));
  }

  ghost predicate FirstIsMalformed(s: Text, p: Text) {
    Find(s, p).Some? && Judge(s, p, Find(s, p).value).Malformed?
  }

  lemma FindStable(a: Text, b: Text, p: Text)
    requires Find(a, p).Some?
    ensures Find(a + b, p) == Find(a, p)
  {
    var s, i := a + b, Find(a, p).value;
    forall j | 0 <= j < i ensures !At(s, p, j) {
      assert !At(a, p, j);
    }
    FindIsUnique(s, p, i);
  }

  /** A closed first marker is judged the same when more text arrives. */
  lemma FirstStable(a: Text, b: Text, p: Text)
    requires Find(a, p).Some? && !Judge(a, p, Find(a, p).value).Open?
    ensures Find(a + b, p) == Find(a, p)
    ensures Judge(a + b, p, Find(a, p).value) == Judge(a, p, Find(a, p).value)
  {
    FindStable(a, b, p);
    JudgeStable(a, b, p, Find(a, p).value);
  }

  /** An own prefix that starts in `a` ends there too, or `a` ends with its start. */
  lemma OwnStarts(a: Text, b: Text, p: Text, i: nat)
    requires At(a + b, p, i) && i < |a|
    ensures At(a, p, i) || EndsWithStart(a, p, |a| - i)
  {
  }

  /** An own prefix that more text brings starts no earlier than what is held back. */
  lemma HeldIsShowable(a: Text, b: Text, p: Text)
    requires |p| > 0 && Decide(a, p).HoldAt? && !FirstIsMalformed(a, p)
    ensures Showable(a + b, p, Decide(a, p).at)
  {
    PartialGrows(a, b, p);
    forall i | 0 <= i < Decide(a, p).at && At(a + b, p, i) ensures false {
      OwnStarts(a, b, p, i);
    }
  }

  lemma DropAppend(a: Text, b: Text, d: nat)
    requires d <= |a|
    ensures (a + b)[d..] == a[d..] + b && (a + b)[..d] == a[..d]
  {
  }

  lemma CutOutAppend(a: Text, b: Text, i: nat, e: nat)
    requires i <= e < |a|
    ensures (a + b)[..i] + (a + b)[e + 1..] == a[..i] + a[e + 1..] + b
  {
    assert (a + b)[..i] == a[..i] && (a + b)[e + 1..] == a[e + 1..] + b;
  }

  lemma CompletionStable(a: Text, b: Text, p: Text)
    requires |p| > 0 && Decide(a, p).CutOut?
    ensures Strip(a + b, p) == Stripped(Strip(a, p).visible + b, [], true)
  {
    FirstStable(a, b, p);
    CutOutAppend(a, b, Decide(a, p).start, Decide(a, p).end);
  }

  /** Before a malformed first marker has closed, showing what can be shown is harmless. */
  lemma HoldingCuts(a: Text, b: Text, p: Text)
    requires |p| > 0 && Decide(a, p).HoldAt? && !FirstIsMalformed(a, p)
    ensures var d := Decide(a, p).at; var rest := Strip(a[d..] + b, p);
            && Strip(a + b, p) == rest.(visible := a[..d] + rest.visible)
            && Showable(a + b, p, d) && (a + b)[d..] == a[d..] + b
  {
    var d := Decide(a, p).at;
    HeldIsShowable(a, b, p);
    DropAppend(a, b, d);
    StripShifts(a + b, p, d);
  }

  lemma FirstMalformedShifts(s: Text, p: Text, d: nat)
    requires d <= |s| && forall i | 0 <= i < d :: !At(s, p, i)
    ensures FirstIsMalformed(s[d..], p) <==> FirstIsMalformed(s, p)
    ensures FirstIsMalformed(s, p) ==>
            Judge(s, p, Find(s, p).value).end == d + Judge(s[d..], p, Find(s[d..], p).value).end
  {
    var t := s[d..];
    FindShifts(s, p, d);
    if Find(t, p).Some? {
      JudgeShifts(s, p, d, Find(t, p).value);
    }
  }

  /** As for a token of letters, digits or other printable text. */
  predicate IsPlain(token: Text) {
    forall i | 0 <= i < |token| :: token[i] != 0x1E && token[i] != MARKER_END
  }

  /** Neither delimiter of a marker occurs inside its prefix. */
  ghost predicate DelimiterFree(p: Text) {
    |p| > 0 && MARKER_END !in p && forall i | 1 <= i < |p| :: p[i] != p[0]
  }

  lemma PlainTokenIsDelimiterFree(token: Text)
    requires IsPlain(token)
    ensures DelimiterFree(Prefix(token))
  {
    var p := Prefix(token);
    forall i | 1 <= i < |p| ensures p[i] != p[0] && p[i] != MARKER_END {
      if |MARKER_START| <= i < |p| - 1 {
        assert p[i] == token[i - |MARKER_START|];
      }
    }
  }

  /** What the stripper has in its buffer in the end if its input is cut at `n`, behind a malformed
      first marker, and not again. */
  ghost function AfterCut(s: Text, p: Text, n: nat): Text
    requires |p| > 0 && n <= |s|
  {
    s[n - Partial(s[..n], p)..]
  }

  /** The first own marker is malformed, and some cut behind it brings up another that is not: it has
      an exit code, or is still open. */
  ghost predicate CutsMatter(s: Text, p: Text)
    requires |p| > 0
  {
    FirstIsMalformed(s, p) &&
    exists n: nat | Judge(s, p, Find(s, p).value).end < n <= |s| :: FirstIsTaken(AfterCut(s, p, n), p)
  }

  ghost function Harmless(p: Text): Text -> bool
    requires |p| > 0
  {
    (s: Text) => !CutsMatter(s, p)
  }

  /** Text in front has no say in what a later cut brings up. */
  lemma AfterCutShifts(s: Text, p: Text, d: nat, n: nat)
    requires 0 < |p| <= n && d + n <= |s|
    ensures AfterCut(s[d..], p, n) == AfterCut(s, p, d + n)
  {
    assert s[..d + n][d..] == s[d..][..n];
    PartialShifts(s[..d + n], p, d);
    DropDrop(s, d, n - Partial(s[..d + n], p));
  }

  /** If a cut matters for the end of a text from `d` on, it matters for the text. */
  lemma CutsMatterShifts(s: Text, p: Text, d: nat)
    requires |p| > 0 && d <= |s| && CutsMatter(s[d..], p) && FirstIsMalformed(s, p)
    requires Judge(s, p, Find(s, p).value).end < d + |p| ||
             Judge(s, p, Find(s, p).value).end == d + Judge(s[d..], p, Find(s[d..], p).value).end
    ensures CutsMatter(s, p)
  {
    var t := s[d..];
    var n: nat :| Judge(t, p, Find(t, p).value).end < n <= |t| && FirstIsTaken(AfterCut(t, p, n), p);
    AfterCutShifts(s, p, d, n);
    assert FirstIsTaken(AfterCut(s, p, d + n), p);
  }

  lemma DecideHeld(a: Text, p: Text)
    requires |p| > 0 && Decide(a, p).HoldAt?
    ensures Decide(a[Decide(a, p).at..], p) == HoldAt(0)
  {
    var d := Decide(a, p).at;
    if FirstIsMalformed(a, p) {
      PartialShifts(a, p, d);
    } else {
      assert a + [] == a;
      HeldIsShowable(a, [], p);
      DecideShifts(a, p, d);
    }
  }

  lemma ApplyHeld(s: Text)
    ensures Apply(s, HoldAt(0)) == Stripped([], s, false)
  {
  }

  lemma HeldStaysHeld(p: Text, a: Text)
    requires |p| > 0
    ensures Holds(Stripper(p), a)
  {
    if Decide(a, p).HoldAt? {
      DecideHeld(a, p);
      ApplyHeld(a[Decide(a, p).at..]);
    }
  }

  /** What is held back after a malformed marker starts behind its end. */
  lemma HeldIsPastEnd(a: Text, p: Text)
    requires DelimiterFree(p) && FirstIsMalformed(a, p)
    ensures Judge(a, p, Find(a, p).value).end < Decide(a, p).at
  {
    var e, k := Judge(a, p, Find(a, p).value).end, Partial(a, p);
    forall j | |a| - k <= j < |a| ensures a[j] in p {
      assert a[j] == p[j - (|a| - k)];
    }
  }

  /** Where only the start of a marker is held back, less can be held back at once. */
  lemma PartialHoldsShift(s: Text, p: Text, d: nat)
    requires |p| > 0 && d <= |s| && Partial(s, p) <= |s| - d
    requires Decide(s, p) == HoldAt(|s| - Partial(s, p))
    requires Decide(s[d..], p) == HoldAt(|s[d..]| - Partial(s[d..], p))
    ensures var rest := Strip(s[d..], p);
            Strip(s, p) == rest.(visible := s[..d] + rest.visible)
  {
    PartialShifts(s, p, d);
    ApplyShifts(s, d, Decide(s[d..], p));
  }

  /** After a malformed marker the rest of the input is no more harmful than the whole. */
  lemma MalformedLeaves(p: Text, a: Text, b: Text)
    requires |p| > 0 && FirstIsMalformed(a, p) && !CutsMatter(a + b, p)
    ensures var t := a[Decide(a, p).at..] + b;
            FirstIsMalformed(a + b, p) && !FirstIsTaken(t, p) && !CutsMatter(t, p)
  {
    var s, d := a + b, Decide(a, p).at;
    FirstStable(a, b, p);
    DropAppend(a, b, d);
    assert s[..|a|] == a && s[d..] == AfterCut(s, p, |a|);
    if CutsMatter(s[d..], p) {
      CutsMatterShifts(s, p, d);
    }
  }

  lemma MalformedCuts(p: Text, a: Text, b: Text)
    requires |p| > 0 && FirstIsMalformed(a, p) && !CutsMatter(a + b, p)
    ensures CutsAt(Stripper(p), Harmless(p), a, b)
  {
    var d := Decide(a, p).at;
    MalformedLeaves(p, a, b);
    PartialGrows(a, b, p);
    DropAppend(a, b, d);
    PartialHoldsShift(a + b, p, d);
  }

  lemma HarmlessHolds(p: Text, a: Text, b: Text)
    requires |p| > 0 && Decide(a, p).HoldAt? && !FirstIsMalformed(a, p) && !CutsMatter(a + b, p)
    ensures CutsAt(Stripper(p), Harmless(p), a, b)
  {
    var d := Decide(a, p).at;
    HoldingCuts(a, b, p);
    FirstMalformedShifts(a + b, p, d);
    if CutsMatter(a[d..] + b, p) {
      CutsMatterShifts(a + b, p, d);
    }
  }

  lemma HarmlessCutsAt(p: Text, a: Text, b: Text)
    requires |p| > 0
    ensures CutsAt(Stripper(p), Harmless(p), a, b)
  {
    if !CutsMatter(a + b, p) {
      if Decide(a, p).CutOut? {
        CompletionStable(a, b, p);
      } else if FirstIsMalformed(a, p) {
        MalformedCuts(p, a, b);
      } else {
        HarmlessHolds(p, a, b);
      }
    }
  }

  lemma FindCut(s: Text, p: Text, n: nat)
    requires n <= |s| && Find(s, p).Some? && Find(s, p).value + |p| <= n
    ensures Find(s[..n], p) == Find(s, p)
  {
    var a, i := s[..n], Find(s, p).value;
    forall j: nat | j + |p| <= n ensures At(a, p, j) <==> At(s, p, j) {
    }
    FindIsUnique(a, p, i);
  }

  lemma JudgeCut(s: Text, p: Text, i: nat, n: nat)
    requires n <= |s| && At(s, p, i) && !Judge(s, p, i).Open? && Judge(s, p, i).end < n
    ensures At(s[..n], p, i) && Judge(s[..n], p, i) == Judge(s, p, i)
  {
    var a, e := s[..n], Judge(s, p, i).end;
    FindEndIsUnique(a, i + |p|, e);
    assert a[i + |p|..e] == s[i + |p|..e];
  }

  /** No own prefix overlaps the start of another. */
  lemma OwnPrefixesAreApart(s: Text, p: Text, i: nat, j: nat)
    requires DelimiterFree(p) && At(s, p, i) && At(s, p, j) && j < i
    ensures j + |p| <= i
  {
    if i < j + |p| {
      OwnPrefixStartsOnce(s, p, i, j, i - j);
    }
  }

  lemma OwnPrefixStartsOnce(s: Text, p: Text, i: nat, j: nat, m: nat)
    requires DelimiterFree(p) && At(s, p, i) && At(s, p, j) && 1 <= m < |p|
    ensures j + m != i
  {
    assert s[i + 0] == p[0] && s[j + m] == p[m];
  }

  /** What is held back before an own prefix is too short to contain another. */
  lemma FindBehindHeld(s: Text, p: Text, d: nat, i: nat)
    requires DelimiterFree(p) && At(s, p, i) && d <= i < d + |p|
    ensures At(s[d..], p, i - d) && Find(s[d..], p) == Some(i - d)
  {
    AtShifts(s, p, d, i - d);
    forall j | 0 <= j < i - d ensures !At(s[d..], p, j) {
      AtShifts(s, p, d, j);
      if At(s, p, d + j) {
        OwnPrefixesAreApart(s, p, i, d + j);
      }
    }
    FindIsUnique(s[d..], p, i - d);
  }

  lemma BehindHeldIsJudged(s: Text, p: Text, d: nat, i: nat)
    requires DelimiterFree(p) && At(s, p, i) && !Judge(s, p, i).Malformed? && d <= i < d + |p|
    ensures FirstIsTaken(s[d..], p)
  {
    FindBehindHeld(s, p, d, i);
    JudgeShifts(s, p, d, i - d);
  }

  lemma MalformedInCut(s: Text, p: Text, i: nat)
    requires |p| > 0 && i <= |s| && FirstIsMalformed(s, p) && Judge(s, p, Find(s, p).value).end < i
    ensures Decide(s[..i], p) == HoldAt(i - Partial(s[..i], p))
  {
    FindCut(s, p, i);
    JudgeCut(s, p, Find(s, p).value, i);
  }

  lemma TwoChunks(p: Text, a: Text, b: Text)
    requires |p| > 0 && Decide(a, p).HoldAt?
    ensures var d := Decide(a, p).at; var rest := Strip(a[d..] + b, p);
            ConsumeAll(p, [a, b]) == rest.(visible := a[..d] + rest.visible)
  {
    var strip := Stripper(p);
    var d := Decide(a, p).at;
    assert [] + a == a && [a, b][1..] == [b] && [b][1..] == [];
    var rest := strip(a[d..] + b);
    assert rest.visible + [] == rest.visible;
    assert EatAll(strip, a[d..], false, [b]) == rest;
  }

  lemma TakenIsSeen(t: Text, p: Text)
    requires |p| > 0 && FirstIsTaken(t, p)
    ensures Strip(t, p).completed || |Strip(t, p).visible| + |p| <= |t|
  {
  }

  lemma MalformedHoldsLittle(s: Text, p: Text)
    requires |p| > 0 && FirstIsMalformed(s, p)
    ensures !Strip(s, p).completed && |Strip(s, p).visible| + |p| > |s|
  {
  }

  predicate SameSeen(a: Stripped, b: Stripped) {
    a.visible == b.visible && a.completed == b.completed
  }

  lemma CutApart(s: Text, d: nat, n: nat)
    requires d <= n <= |s|
    ensures s[d..] == s[..n][d..] + s[n..] && s[..d] == s[..n][..d]
  {
  }

  lemma CutInTwo(p: Text, s: Text, n: nat, d: nat)
    requires |p| > 0 && d <= n <= |s| && Decide(s[..n], p) == HoldAt(d)
    ensures ConsumeAll(p, [s[..n], s[n..]]) == Strip(s[d..], p).(visible := s[..d] + Strip(s[d..], p).visible)
  {
    CutApart(s, d, n);
    TwoChunksAt(p, s[..n], s[n..], d, s[d..]);
  }

  lemma TwoChunksAt(p: Text, a: Text, b: Text, d: nat, t: Text)
    requires |p| > 0 && d <= |a| && Decide(a, p) == HoldAt(d) && t == a[d..] + b
    ensures ConsumeAll(p, [a, b]) == Strip(t, p).(visible := a[..d] + Strip(t, p).visible)
  {
    TwoChunks(p, a, b);
  }

  lemma OneIsLonger(a: Stripped, b: Stripped)
    requires !b.completed && (a.completed || |a.visible| < |b.visible|)
    ensures !SameSeen(a, b)
  {
  }

  lemma CutIsSeen(p: Text, s: Text, n: nat, d: nat, whole: Stripped)
    requires |p| > 0 && d <= n <= |s| && Decide(s[..n], p) == HoldAt(d) && FirstIsTaken(s[d..], p)
    requires !whole.completed && |whole.visible| + |p| > |s|
    ensures !SameSeen(ConsumeAll(p, [s[..n], s[n..]]), whole)
  {
    CutInTwo(p, s, n, d);
    TakenIsSeen(s[d..], p);
    OneIsLonger(ConsumeAll(p, [s[..n], s[n..]]), whole);
  }

  lemma CutChangesResult(p: Text, s: Text, n: nat)
    requires |p| > 0 && FirstIsMalformed(s, p) && Judge(s, p, Find(s, p).value).end < n <= |s|
    requires FirstIsTaken(AfterCut(s, p, n), p)
    ensures !SameSeen(ConsumeAll(p, [s[..n], s[n..]]), Strip(s, p))
  {
    MalformedInCut(s, p, n);
    MalformedHoldsLittle(s, p);
    CutIsSeen(p, s, n, n - Partial(s[..n], p), Strip(s, p));
  }

  /** Given to the stripper in these chunks, the text is shown otherwise than at once, or its marker is
      recognised in one case only. */
  ghost predicate CutChanges(token: Text, s: Text, chunks: seq<Text>) {
    var cut, whole := ConsumeBytes(token, chunks), ConsumeBytes(token, [s]);
    Concat(chunks) == s && cut.Some? && whole.Some? && !SameSeen(cut.value, whole.value)
  }

  lemma CutsMatterShows(token: Text, s: Text)
    requires IsAscii(token) && CutsMatter(s, Prefix(token))
    ensures exists chunks: seq<Text> :: CutChanges(token, s, chunks)
  {
    var p := Prefix(token);
    var n: nat :| Judge(s, p, Find(s, p).value).end < n <= |s| && FirstIsTaken(AfterCut(s, p, n), p);
    CutChangesResult(p, s, n);
    CutShows(token, s, n);
  }

  lemma CutShows(token: Text, s: Text, n: nat)
    requires IsAscii(token) && n <= |s|
    requires !SameSeen(ConsumeAll(Prefix(token), [s[..n], s[n..]]), Strip(s, Prefix(token)))
    ensures CutChanges(token, s, [s[..n], s[n..]])
  {
    OneChunk(Prefix(token), s);
    TwoPieces(s, n);
    AsciiConsumes(token, [s]);
    AsciiConsumes(token, [s[..n], s[n..]]);
  }

  lemma TwoPieces(s: Text, i: nat)
    requires i <= |s|
    ensures Concat([s[..i], s[i..]]) == s
  {
    assert [s[..i], s[i..]][1..] == [s[i..]];
    assert Concat([s[i..]]) == s[i..] + [];
  }

  /** Cutting changes what is shown, or whether the marker is recognised, for exactly those inputs whose
      first own marker is malformed while some cut behind it brings up one that is not: a stripper that
      sees such an input at once looks at the first marker only. */
  lemma CuttingTheorem(token: Text, s: Text)
    requires IsAscii(token)
    ensures CutsMatter(s, Prefix(token)) <==> exists chunks: seq<Text> :: CutChanges(token, s, chunks)
  {
    if CutsMatter(s, Prefix(token)) {
      CutsMatterShows(token, s);
    } else {
      forall chunks: seq<Text> ensures !CutChanges(token, s, chunks) {
        HarmlessShows(token, s, chunks);
      }
    }
  }

  lemma HarmlessShows(token: Text, s: Text, chunks: seq<Text>)
    requires IsAscii(token) && !CutsMatter(s, Prefix(token))
    ensures !CutChanges(token, s, chunks)
  {
    if Concat(chunks) == s {
      OneChunk(Prefix(token), s);
      AsciiConsumes(token, [s]);
      HarmlessIsUncut(token, chunks);
    }
  }

  lemma HarmlessIsUncut(token: Text, chunks: seq<Text>)
    requires IsAscii(token) && !CutsMatter(Concat(chunks), Prefix(token))
    ensures ConsumeBytes(token, chunks) == Some(Strip(Concat(chunks), Prefix(token)))
  {
    HarmlessCuts(Prefix(token), chunks);
    AsciiConsumes(token, chunks);
  }

  /** If the first own marker of the input is not malformed, the text shown, the text held back
      and the completed flag are the same however the input is cut. */
  lemma CutsMakeNoDifference(token: Text, chunks: seq<Text>)
    requires IsAscii(token) && !FirstIsMalformed(Concat(chunks), Prefix(token))
    ensures ConsumeBytes(token, chunks) == Some(Strip(Concat(chunks), Prefix(token)))
  {
    HarmlessIsUncut(token, chunks);
  }

  /** An own marker that starts behind the malformed first one is not malformed. */
  ghost predicate LaterIsTaken(s: Text, p: Text)
    requires FirstIsMalformed(s, p)
  {
    exists i: nat :: Judge(s, p, Find(s, p).value).end < i && At(s, p, i) && !Judge(s, p, i).Malformed?
  }

  /** Without delimiters in the token it comes to this: the first own marker is malformed, and one that
      starts behind it is not. */
  lemma PlainCondition(s: Text, p: Text)
    requires DelimiterFree(p)
    ensures CutsMatter(s, p) <==> FirstIsMalformed(s, p) && LaterIsTaken(s, p)
  {
    if FirstIsMalformed(s, p) {
      if LaterIsTaken(s, p) {
        CutBringsUp(s, p);
      }
      if CutsMatter(s, p) {
        TakenStartsBehind(s, p);
      }
    }
  }

  lemma CutBringsUp(s: Text, p: Text)
    requires DelimiterFree(p) && FirstIsMalformed(s, p) && LaterIsTaken(s, p)
    ensures CutsMatter(s, p)
  {
    var i: nat :| Judge(s, p, Find(s, p).value).end < i && At(s, p, i) && !Judge(s, p, i).Malformed?;
    BehindHeldIsJudged(s, p, i - Partial(s[..i], p), i);
    assert FirstIsTaken(AfterCut(s, p, i), p);
  }

  lemma TakenStartsBehind(s: Text, p: Text)
    requires DelimiterFree(p) && CutsMatter(s, p)
    ensures LaterIsTaken(s, p)
  {
    var n: nat :| Judge(s, p, Find(s, p).value).end < n <= |s| && FirstIsTaken(AfterCut(s, p, n), p);
    var d := n - Partial(s[..n], p);
    CutIsPastEnd(s, p, n);
    TakenLater(s, p, d, AfterCut(s, p, n));
  }

  lemma TakenLater(s: Text, p: Text, d: nat, t: Text)
    requires FirstIsMalformed(s, p) && Judge(s, p, Find(s, p).value).end < d <= |s|
    requires t == s[d..] && FirstIsTaken(t, p)
    ensures LaterIsTaken(s, p)
  {
    var i := Find(t, p).value;
    AtShifts(s, p, d, i);
    JudgeShifts(s, p, d, i);
    assert At(s, p, d + i);
  }

  lemma CutIsPastEnd(s: Text, p: Text, n: nat)
    requires DelimiterFree(p) && FirstIsMalformed(s, p) && Judge(s, p, Find(s, p).value).end < n <= |s|
    ensures Judge(s, p, Find(s, p).value).end < n - Partial(s[..n], p)
  {
    FindCut(s, p, n);
    JudgeCut(s, p, Find(s, p).value, n);
    HeldIsPastEnd(s[..n], p);
  }

  lemma StripperCuts(p: Text)
    requires |p| > 0
    ensures (forall a, b :: CutsAt(Stripper(p), Harmless(p), a, b)) && forall a :: Holds(Stripper(p), a)
  {
    forall a, b ensures CutsAt(Stripper(p), Harmless(p), a, b) {
      HarmlessCutsAt(p, a, b);
    }
    forall a ensures Holds(Stripper(p), a) {
      HeldStaysHeld(p, a);
    }
  }

  lemma NothingIsHeld(p: Text)
    requires |p| > 0
    ensures Stripper(p)([]) == Stripped([], [], false)
  {
    assert Decide([], p) == HoldAt(0);
  }

  lemma HarmlessCuts(p: Text, chunks: seq<Text>)
    requires |p| > 0 && !CutsMatter(Concat(chunks), p)
    ensures ConsumeAll(p, chunks) == Strip(Concat(chunks), p)
  {
    StripperCuts(p);
    NothingIsHeld(p);
    assert [] + Concat(chunks) == Concat(chunks);
    GoodCuts(Stripper(p), Harmless(p), [], chunks);
  }

  /** An own marker in front, around a code that closes it. */
  lemma OwnMarkerInFront(p: Text, code: Text, rest: Text)
    requires |p| > 0 && MARKER_END !in code
    ensures var s := p + code + [MARKER_END] + rest; var e := |p| + |code|;
            Find(s, p) == Some(0) && Judge(s, p, 0) == (if IsExitCode(code) then Exit(e) else Malformed(e))
  {
    var s, e := p + code + [MARKER_END] + rest, |p| + |code|;
    assert At(s, p, 0);
    FindIsUnique(s, p, 0);
    assert s[|p|..e] == code;
    assert forall i | |p| <= i < e :: s[i] == code[i - |p|];
    FindEndIsUnique(s, |p|, e);
  }

  lemma LastOfStart(s: Text, p: Text, k: nat)
    requires 0 < k && EndsWithStart(s, p, k)
    ensures s[|s| - 1] in p
  {
    assert s[|s| - k + (k - 1)] == p[k - 1];
  }

  lemma EndIsNoStart(s: Text, p: Text)
    requires |p| > 0 && s != [] && s[|s| - 1] !in p
    ensures Partial(s, p) == 0
  {
    if Partial(s, p) > 0 {
      LastOfStart(s, p, Partial(s, p));
    }
  }

  lemma MalformedIsShown(s: Text, p: Text)
    requires |p| > 0 && FirstIsMalformed(s, p) && s[|s| - 1] !in p
    ensures Strip(s, p) == Stripped(s, [], false)
  {
    EndIsNoStart(s, p);
    assert s[..|s|] == s && s[|s|..] == [];
  }

  lemma MalformedInFront(p: Text, rest: Text)
    requires |p| > 0 && MARKER_END !in p && (rest != [] ==> rest[|rest| - 1] !in p)
    ensures var s := p + [0x78] + [MARKER_END] + rest;
            && FirstIsMalformed(s, p) && Judge(s, p, Find(s, p).value).end == |p| + 1
            && Decide(s, p) == HoldAt(|s|) && Strip(s, p) == Stripped(s, [], false)
  {
    OwnMarkerInFront(p, [0x78], rest);
    MalformedIsShown(p + [0x78] + [MARKER_END] + rest, p);
  }

  lemma EatOne(strip: Text -> Stripped, pending: Text, chunk: Text)
    ensures EatAll(strip, pending, false, [chunk]) == strip(pending + chunk)
  {
    var first := strip(pending + chunk);
    assert [chunk][1..] == [] && first.visible + [] == first.visible;
    assert EatAll(strip, first.pending, first.completed, []) == Stripped([], first.pending, first.completed);
  }

  lemma OneChunk(p: Text, s: Text)
    requires |p| > 0
    ensures ConsumeAll(p, [s]) == Strip(s, p)
  {
    EatOne(Stripper(p), [], s);
    assert [] + s == s;
  }

  lemma LaterGoodMatters(p: Text, a: Text, b: Text)
    requires DelimiterFree(p) && FirstIsMalformed(a + b, p) && Judge(a + b, p, Find(a + b, p).value).end < |a|
    requires At(b, p, 0) && !Judge(b, p, 0).Malformed?
    ensures CutsMatter(a + b, p)
  {
    FindIsUnique(b, p, 0);
    assert (a + b)[|a|..] == b;
    TakenLater(a + b, p, |a|, b);
    CutBringsUp(a + b, p);
  }

  lemma CutBetween(p: Text, a: Text, b: Text)
    requires |p| > 0 && Decide(a, p) == HoldAt(|a|)
    ensures ConsumeAll(p, [a, b]) == Strip(b, p).(visible := a + Strip(b, p).visible)
  {
    TwoChunks(p, a, b);
    assert a[|a|..] + b == b && a[..|a|] == a;
  }

  lemma ShownAtOnce(p: Text, b: Text)
    requires DelimiterFree(p) && b != [] && b[|b| - 1] == MARKER_END && At(b, p, 0) && !Judge(b, p, 0).Malformed?
    ensures var a := p + [0x78] + [MARKER_END];
            CutsMatter(a + b, p) && ConsumeAll(p, [a + b]) == Stripped(a + b, [], false)
  {
    var a := p + [0x78] + [MARKER_END];
    MalformedInFront(p, b);
    OneChunk(p, a + b);
    LaterGoodMatters(p, a, b);
  }

  /** A malformed marker and then a good one: at once, all of it is shown and the exit is missed;
      cut between the two, the good one is taken out and the exit recognised. */
  lemma MalformedHidesGood(token: Text)
    requires IsAscii(token) && IsPlain(token)
    ensures var p := Prefix(token); var a, b := p + [0x78] + [MARKER_END], p + [0x30] + [MARKER_END];
            && CutsMatter(a + b, p)
            && ConsumeBytes(token, [a + b]) == Some(Stripped(a + b, [], false))
            && ConsumeBytes(token, [a, b]) == Some(Stripped(a, [], true))
  {
    var p := Prefix(token);
    var a, b := p + [0x78] + [MARKER_END], p + [0x30] + [MARKER_END];
    PlainTokenIsDelimiterFree(token);
    GoodMarkerIsCut(p);
    ShownAtOnce(p, b);
    MalformedInFront(p, []);
    assert a + [] == a;
    CutBetween(p, a, b);
    AsciiConsumes(token, [a + b]);
    AsciiConsumes(token, [a, b]);
  }

  lemma GoodMarkerIsCut(p: Text)
    requires |p| > 0
    ensures var b := p + [0x30] + [MARKER_END];
            At(b, p, 0) && Judge(b, p, 0) == Exit(|p| + 1) && Strip(b, p) == Stripped([], [], true)
  {
    var b := p + [0x30] + [MARKER_END];
    assert b == p + [0x30] + [MARKER_END] + [];
    OwnMarkerInFront(p, [0x30], []);
    assert b[..0] + b[|p| + 2..] == [];
  }

  // ---- What is recognised, and what is held back -----------------------------------------------------------------

  /** A marker of this prefix, with a status of one to three digits. */
  function OwnMarker(p: Text, code: Text): Text {
    p + code + [MARKER_END]
  }

  lemma FirstMarkerJudged(p: Text, before: Text, code: Text, after: Text)
    requires |p| > 0 && 1 <= |code| <= 3 && forall i | 0 <= i < |code| :: 0x30 <= code[i] <= 0x39
    requires var s := before + OwnMarker(p, code) + after; forall i | 0 <= i < |before| :: !At(s, p, i)
    ensures var s := before + OwnMarker(p, code) + after; var i, e := |before|, |before| + |p| + |code|;
            Find(s, p) == Some(i) && Judge(s, p, i) == Exit(e) && s[..i] == before && s[e + 1..] == after
  {
    var s, i, e := before + OwnMarker(p, code) + after, |before|, |before| + |p| + |code|;
    var m := OwnMarker(p, code);
    assert forall k | 0 <= k < |m| :: s[i + k] == m[k];
    FindIsUnique(s, p, i);
    assert s[i + |p|..e] == code;
    assert forall k | i + |p| <= k < e :: s[k] == code[k - i - |p|];
    FindEndIsUnique(s, i + |p|, e);
  }

  /** However the text is cut: its first own marker, if that has a status of one to three digits, is taken out, all
      else is shown, and the exit is recognised. */
  lemma MarkerIsRecognised(token: Text, before: Text, code: Text, after: Text, chunks: seq<Text>)
    requires IsAscii(token) && 1 <= |code| <= 3 && forall i | 0 <= i < |code| :: 0x30 <= code[i] <= 0x39
    requires Concat(chunks) == before + OwnMarker(Prefix(token), code) + after
    requires forall i | 0 <= i < |before| :: !At(Concat(chunks), Prefix(token), i)
    ensures ConsumeBytes(token, chunks) == Some(Stripped(before + after, [], true))
  {
    FirstMarkerJudged(Prefix(token), before, code, after);
    CutsMakeNoDifference(token, chunks);
  }

  /** Text without an own prefix is shown at once, but for the longest end of it that could be the start of one. */
  lemma OtherTextIsShown(token: Text, chunks: seq<Text>)
    requires IsAscii(token) && forall i: nat :: !At(Concat(chunks), Prefix(token), i)
    ensures var r := ConsumeBytes(token, chunks);
            && r.Some? && !r.value.completed && r.value.visible + r.value.pending == Concat(chunks)
            && r.value.pending < Prefix(token) && NoLonger(Concat(chunks), Prefix(token), |r.value.pending|)
  {
    CutsMakeNoDifference(token, chunks);
    ShownUpToStart(Concat(chunks), Prefix(token));
  }

  lemma ShownUpToStart(s: Text, p: Text)
    requires |p| > 0 && forall i: nat :: !At(s, p, i)
    ensures var r := Strip(s, p);
            !r.completed && r.visible + r.pending == s && r.pending < p && NoLonger(s, p, |r.pending|)
  {
    HeldIsShort(s, p);
    assert Decide(s, p) == HoldAt(|s| - Partial(s, p));
  }

  /** The start of an own marker, or a whole prefix with no end so far. */
  predicate MayBecomeMarker(p: Text, held: Text) {
    held < p || (p <= held && MARKER_END !in held[|p|..])
  }

  lemma StripHolds(p: Text, s: Text)
    requires |p| > 0
    ensures MayBecomeMarker(p, Strip(s, p).pending)
  {
    var o := Decide(s, p);
    if o.HoldAt? {
      var held := s[o.at..];
      if o.at == |s| - Partial(s, p) && (Find(s, p).None? || FirstIsMalformed(s, p)) {
        HeldIsShort(s, p);
      } else {
        OpenIsHeld(s, p);
      }
    }
  }

  lemma HeldIsShort(s: Text, p: Text)
    requires |p| > 0
    ensures s[|s| - Partial(s, p)..] < p
  {
    var k := Partial(s, p);
    assert s[|s| - k..] == p[..k];
  }

  lemma OpenIsHeld(s: Text, p: Text)
    requires |p| > 0 && Find(s, p).Some? && Judge(s, p, Find(s, p).value).Open?
    ensures var held := s[Find(s, p).value..]; p <= held && MARKER_END !in held[|p|..]
  {
    var i := Find(s, p).value;
    var held := s[i..];
    assert p == held[..|p|];
    assert held[|p|..] == s[i + |p|..];
  }

  lemma {:induction false} EatAllHolds(p: Text, pending: Text, chunks: seq<Text>)
    requires |p| > 0 && MayBecomeMarker(p, pending)
    ensures MayBecomeMarker(p, EatAll(Stripper(p), pending, false, chunks).pending)
    decreases |chunks|
  {
    if chunks != [] {
      var s := pending + chunks[0];
      StripHolds(p, s);
      if Strip(s, p).completed {
        PassThrough(Stripper(p), chunks[1..]);
      } else {
        EatAllHolds(p, Strip(s, p).pending, chunks[1..]);
      }
    }
  }

  /** Nothing is held back that could not become an own marker. */
  lemma OnlyMarkersAreHeld(token: Text, chunks: seq<Text>)
    requires IsAscii(token)
    ensures var r := ConsumeBytes(token, chunks); r.Some? && MayBecomeMarker(Prefix(token), r.value.pending)
  {
    AsciiConsumes(token, chunks);
    EatAllHolds(Prefix(token), [], chunks);
  }
}
