/** The snapshot a `list` response carries, cut down to a budget of serialized bytes. */
module ListSnapshot {
  import opened Options
  import opened Scanner
  import opened Utf8
  import Escapes
  import TerminalParser

  const LIST_SNAPSHOT_MAX_BYTES := 65536

  datatype PendingOp = Data(data: Text) | Resize(cols: nat, rows: nat)

  datatype Snapshot = Snapshot(version: nat, data: Text, cols: nat, rows: nat, pending: seq<PendingOp>)

  // ---- Serialization as JSON, strings as in section 7 of RFC 8259 ----------------------------------

  function Ascii(s: string): (r: seq<byte>)
    requires forall i | 0 <= i < |s| :: s[i] < 128 as char
    ensures |r| == |s|
  {
    seq(|s|, i requires 0 <= i < |s| => s[i] as int)
  }

  function Digit(n: nat): byte
    requires n < 16
  {
    if n < 10 then 0x30 + n else 0x61 + (n - 10)
  }

  function Decimal(n: nat): seq<byte> {
    if n < 10 then [Digit(n)] else Decimal(n / 10) + [Digit(n % 10)]
  }

  /** Quotation mark, reverse solidus and controls are escaped, with the short form if there is one. */
  function Escaped(c: Scalar): seq<byte> {
    if c == 0x22 || c == 0x5C then [0x5C, c]
    else if c == 0x08 then [0x5C, 0x62]
    else if c == 0x09 then [0x5C, 0x74]
    else if c == 0x0A then [0x5C, 0x6E]
    else if c == 0x0C then [0x5C, 0x66]
    else if c == 0x0D then [0x5C, 0x72]
    else if c < 0x20 then [0x5C, 0x75, 0x30, 0x30, Digit(c / 16), Digit(c % 16)]
    else EncodeScalar(c)
  }

  function EscapedAll(t: Text): seq<byte> {
    Written(Escaped, t)
  }

  function Quoted(t: Text): seq<byte> {
    [0x22] + EscapedAll(t) + [0x22]
  }

  function HexValue(b: byte): Option<nat> {
    if 0x30 <= b <= 0x39 then Some(b as int - 0x30)
    else if 0x61 <= b <= 0x66 then Some(b as int - 0x61 + 10)
    else if 0x41 <= b <= 0x46 then Some(b as int - 0x41 + 10)
    else None
  }

  /** The four hexadecimal digits of an escape. */
  function HexFour(s: seq<byte>): (r: Option<nat>)
    requires |s| == 4
    ensures r.Some? ==> r.value < 0x10000
  {
    if HexValue(s[0]).None? || HexValue(s[1]).None? || HexValue(s[2]).None? || HexValue(s[3]).None? then None
    else
      Some(4096 * HexValue(s[0]).value + 256 * HexValue(s[1]).value + 16 * HexValue(s[2]).value + HexValue(s[3]).value)
  }

  /** A code unit, escaped. */
  function UnitAt(s: seq<byte>): (r: Option<nat>)
    ensures r.Some? ==> |s| >= 6 && r.value < 0x10000
  {
    if |s| >= 6 && s[0] == 0x5C && s[1] == 0x75 then HexFour(s[2..6]) else None
  }

  /** One code unit that is a scalar, or a surrogate pair; a lone surrogate is nothing. */
  function ReadUnicode(s: seq<byte>): Step<Scalar> {
    match UnitAt(s)
    case None => Wait
    case Some(u) =>
      if u < 0xD800 || u >= 0xE000 then Take(6, [u])
      else if u >= 0xDC00 then Wait
      else
        match UnitAt(s[6..])
        case None => Wait
        case Some(low) =>
          if 0xDC00 <= low < 0xE000 then Take(12, [0x10000 + 1024 * (u - 0xD800) + (low - 0xDC00)]) else Wait
  }

  /** Reading one character of a JSON string.  Waits at the closing quotation mark and at anything that
      section 7 does not allow. */
  function ReadCharacter(s: seq<byte>): Step<Scalar> {
    if s == [] || s[0] == 0x22 || s[0] < 0x20 then Wait
    else if s[0] != 0x5C then
      var next := Utf8.Next(s);
      if next.Take? && next.out == [] then Wait else next
    else if |s| < 2 then Wait
    else if s[1] == 0x22 || s[1] == 0x5C || s[1] == 0x2F then Take(2, [s[1]])
    else if s[1] == 0x62 then Take(2, [0x08])
    else if s[1] == 0x66 then Take(2, [0x0C])
    else if s[1] == 0x6E then Take(2, [0x0A])
    else if s[1] == 0x72 then Take(2, [0x0D])
    else if s[1] == 0x74 then Take(2, [0x09])
    else ReadUnicode(s)
  }

  lemma ReadAdvances()
    ensures Advances(ReadCharacter)
  {
    Utf8.NextAdvances();
  }

  lemma ReadsControl(c: Scalar, rest: seq<byte>)
    requires c < 0x20
    ensures ReadUnicode([0x5C, 0x75, 0x30, 0x30, Digit(c / 16), Digit(c % 16)] + rest) == Take(6, [c])
  {
    var s := [0x5C, 0x75, 0x30, 0x30, Digit(c / 16), Digit(c % 16)] + rest;
    assert s[2..6] == [0x30, 0x30, Digit(c / 16), Digit(c % 16)];
    assert HexFour(s[2..6]) == Some(c);
  }

  lemma ReadsPlain(c: Scalar, rest: seq<byte>)
    requires c >= 0x20 && c != 0x22 && c != 0x5C
    ensures ReadCharacter(EncodeScalar(c) + rest) == Take(|EncodeScalar(c)|, [c])
  {
    ValueInvertsEncode(c);
    NextFindsScalar(EncodeScalar(c), rest);
    assert (EncodeScalar(c) + rest)[0] == EncodeScalar(c)[0];
  }

  lemma ReadsEscaped(c: Scalar, rest: seq<byte>)
    ensures ReadCharacter(Escaped(c) + rest) == Take(|Escaped(c)|, [c])
  {
    var s := Escaped(c) + rest;
    assert forall i | 0 <= i < |Escaped(c)| :: s[i] == Escaped(c)[i];
    if c >= 0x20 && c != 0x22 && c != 0x5C {
      ReadsPlain(c, rest);
    } else if Escaped(c)[1] == 0x75 {
      ReadsControl(c, rest);
    }
  }

  /** A string reads back as it was, up to its closing quotation mark, whatever comes after. */
  lemma StringReadsBack(t: Text, rest: seq<byte>)
    ensures Advances(ReadCharacter)
    ensures Scan(ReadCharacter, EscapedAll(t) + [0x22] + rest) == Scanned(t, [0x22] + rest)
  {
    ReadAdvances();
    forall c: Scalar, later: seq<byte> ensures ReadCharacter(Escaped(c) + later) == Take(|Escaped(c)|, [c]) {
      ReadsEscaped(c, later);
    }
    ScanInvertsWritten(ReadCharacter, Escaped, t, [0x22] + rest);
    assert EscapedAll(t) + [0x22] + rest == Written(Escaped, t) + ([0x22] + rest);
  }

  function SerializedOp(op: PendingOp): seq<byte> {
    match op
    case Data(data) => Ascii("{\"type\":\"data\",\"data\":") + Quoted(data) + Ascii("}")
    case Resize(cols, rows) =>
      Ascii("{\"type\":\"resize\",\"cols\":") + Decimal(cols) + Ascii(",\"rows\":") + Decimal(rows) + Ascii("}")
  }

  function SerializedOps(ops: seq<PendingOp>): seq<byte> {
    if ops == [] then []
    else if |ops| == 1 then SerializedOp(ops[0])
    else SerializedOp(ops[0]) + Ascii(",") + SerializedOps(ops[1..])
  }

  function BeforeData(version: nat): seq<byte> {
    Ascii("{\"version\":") + Decimal(version) + Ascii(",\"data\":")
  }

  function AfterData(cols: nat, rows: nat, pending: seq<PendingOp>): seq<byte> {
    Ascii(",\"cols\":") + Decimal(cols) + Ascii(",\"rows\":") + Decimal(rows)
    + Ascii(",\"pending\":[") + SerializedOps(pending) + Ascii("]}")
  }

  function Serialized(s: Snapshot): seq<byte> {
    BeforeData(s.version) + Quoted(s.data) + AfterData(s.cols, s.rows, s.pending)
  }

  lemma SizeOfData(s: Snapshot, d: Text, e: Text)
    ensures |Serialized(s.(data := d))| - |EscapedAll(d)| == |Serialized(s.(data := e))| - |EscapedAll(e)|
  {
  }

  // ---- The budget --------------------------------------------------------------------------------------

  predicate Fits(s: Snapshot, maxBytes: nat) {
    |Serialized(s)| <= maxBytes
  }

  /** `ESC [ 0 m`: whatever colours the cut data leaves on, they go no further. */
  const RESET: Text := [0x1B, 0x5B, 0x30, 0x6D]

  function WithoutPending(s: Snapshot): Snapshot {
    s.(pending := [])
  }

  function CutAndReset(s: Snapshot, n: nat): Snapshot
    requires n <= |s.data|
  {
    s.(data := s.data[..n] + RESET)
  }

  /** n scalars with the reset fit the budget, or n is 0; one scalar more does not fit. */
  ghost predicate IsLongest(s: Snapshot, n: nat, maxBytes: nat) {
    && n <= |s.data| && (n == 0 || Fits(CutAndReset(s, n), maxBytes))
    && forall m | n < m <= |s.data| :: !Fits(CutAndReset(s, m), maxBytes)
  }

  lemma LongerText(a: Text, b: Text, end: Text)
    ensures |EscapedAll(a + end)| <= |EscapedAll(a + b + end)| && |EscapedAll(a)| <= |EscapedAll(a + end)|
  {
    WrittenConcat(Escaped, a, end);
    WrittenConcat(Escaped, a, b);
    WrittenConcat(Escaped, a + b, end);
  }

  lemma ShorterIsSmaller(s: Snapshot, m: nat, n: nat)
    requires m <= n <= |s.data|
    ensures |Serialized(CutAndReset(s, m))| <= |Serialized(CutAndReset(s, n))|
    ensures n == |s.data| ==> |Serialized(s)| <= |Serialized(CutAndReset(s, n))|
  {
    var a, b := s.data[..m], s.data[m..n];
    LongerText(a, b, RESET);
    assert a + b == s.data[..n];
    SizeOfData(s, a + RESET, a + b + RESET);
    if n == |s.data| {
      assert a + b == s.data && s.(data := s.data) == s;
      LongerText(s.data, [], RESET);
      SizeOfData(s, s.data, s.data + RESET);
    }
  }

  function IfFits(s: Snapshot, maxBytes: nat): Option<Snapshot> {
    if Fits(s, maxBytes) then Some(s) else None
  }

  /** The longest prefix that fits, with whatever it leaves unfinished trimmed off, and a reset. */
  ghost predicate IsCutDown(s: Snapshot, r: Option<Snapshot>, maxBytes: nat) {
    exists n: nat :: IsLongest(s, n, maxBytes) && r == IfFits(CutAndReset(s, Escapes.Cut(s.data[..n])), maxBytes)
  }

  method LongestPrefix(s: Snapshot, maxBytes: nat) returns (low: nat)
    requires !Fits(s, maxBytes)
    ensures IsLongest(s, low, maxBytes)
  {
    var total := |s.data|;
    ShorterIsSmaller(s, total, total);
    low := 0;
    var high := total;
    while high - low > 1
      invariant 0 <= low <= high <= total && (low < high || total == 0)
      invariant low == 0 || Fits(CutAndReset(s, low), maxBytes)
      invariant !Fits(CutAndReset(s, high), maxBytes)
    {
      var mid := low + (high - low) / 2;
      if Fits(CutAndReset(s, mid), maxBytes) {
        low := mid;
      } else {
        high := mid;
      }
    }
    forall m | low < m <= total ensures !Fits(CutAndReset(s, m), maxBytes) {
      ShorterIsSmaller(s, high, m);
    }
  }

  method TrimText(data: Text) returns (trimmed: Text)
    ensures trimmed == data[..Escapes.Cut(data)]
  {
    var bytes := Encode(data);
    var cut := Escapes.TrimIncompleteEscape(bytes);
    Escapes.TrimmedTextEncodes(data);
    DecodeInvertsEncode(data);
    DecodeInvertsEncode(data[..Escapes.Cut(data)]);
    trimmed := data;
    assert bytes[..|bytes|] == bytes;
    if cut != |bytes| {
      trimmed := Decode(bytes[..cut]).out;
    }
  }

  /** The least is given up: nothing, or what is pending, or the end of the data as well. */
  ghost predicate IsBounded(s: Snapshot, r: Option<Snapshot>, maxBytes: nat) {
    if Fits(s, maxBytes) then r == Some(s)
    else if Fits(WithoutPending(s), maxBytes) then r == Some(WithoutPending(s))
    else IsCutDown(WithoutPending(s), r, maxBytes)
  }

  method BoundForList(snapshot: Snapshot, maxBytes: nat) returns (r: Option<Snapshot>)
    ensures IsBounded(snapshot, r, maxBytes)
  {
    if Fits(snapshot, maxBytes) {
      return Some(snapshot);
    }
    var candidate := WithoutPending(snapshot);
    if Fits(candidate, maxBytes) {
      return Some(candidate);
    }
    var low := LongestPrefix(candidate, maxBytes);
    var data := TrimText(candidate.data[..low]);
    assert data == candidate.data[..Escapes.Cut(candidate.data[..low])];
    r := IfFits(candidate.(data := data + RESET), maxBytes);
  }

  /** Nothing is returned exactly when not even the reset alone fits; then nothing longer fits
      either, because a longer prefix never serializes to less. */
  lemma CutDownFails(s: Snapshot, r: Option<Snapshot>, maxBytes: nat)
    requires IsCutDown(s, r, maxBytes)
    ensures r.None? <==> !Fits(CutAndReset(s, 0), maxBytes)
    ensures r.Some? ==> Fits(r.value, maxBytes)
  {
    var n: nat :| IsLongest(s, n, maxBytes) && r == IfFits(CutAndReset(s, Escapes.Cut(s.data[..n])), maxBytes);
    var c := Escapes.Cut(s.data[..n]);
    ShorterIsSmaller(s, c, n);
    ShorterIsSmaller(s, 0, c);
  }

  function JustReset(s: Snapshot): Snapshot {
    s.(data := RESET, pending := [])
  }

  /** The result always fits the budget, and there is none exactly when neither the whole, nor the
      data without what is pending, nor the reset alone fits. */
  lemma BudgetIsKept(s: Snapshot, r: Option<Snapshot>, maxBytes: nat)
    requires IsBounded(s, r, maxBytes)
    ensures r.Some? ==> Fits(r.value, maxBytes)
    ensures r.None? <==> !Fits(s, maxBytes) && !Fits(WithoutPending(s), maxBytes) && !Fits(JustReset(s), maxBytes)
  {
    if !Fits(s, maxBytes) && !Fits(WithoutPending(s), maxBytes) {
      CutDownFails(WithoutPending(s), r, maxBytes);
      assert CutAndReset(WithoutPending(s), 0) == JustReset(s);
    }
  }

  lemma ResetFinishes(m: TerminalParser.Mode)
    ensures TerminalParser.ReadAll(m, RESET) == TerminalParser.Ground
  {
    TerminalParser.ReadThree(m, 0x1B, 0x5B, 0x30);
    TerminalParser.ReadSnoc(m, [0x1B, 0x5B, 0x30], 0x6D);
    assert RESET == [0x1B, 0x5B, 0x30] + [0x6D];
  }

  lemma CutAndResetIsFinished(s: Snapshot, n: nat)
    requires n <= |s.data|
    ensures TerminalParser.Finished(CutAndReset(s, n).data)
  {
    TerminalParser.ReadAllConcat(TerminalParser.Ground, s.data[..n], RESET);
    ResetFinishes(TerminalParser.ReadAll(TerminalParser.Ground, s.data[..n]));
  }

  /** Data that has been cut never leaves a client's terminal in the middle of a sequence, and what comes next
      is not swallowed; data that is given whole ends as it did. */
  lemma BoundedIsFinished(s: Snapshot, r: Option<Snapshot>, maxBytes: nat)
    requires IsBounded(s, r, maxBytes) && r.Some?
    ensures r.value.data == s.data || TerminalParser.Finished(r.value.data)
    ensures TerminalParser.Finished(s.data) ==> TerminalParser.Finished(r.value.data)
  {
    var t := WithoutPending(s);
    if !Fits(s, maxBytes) && !Fits(t, maxBytes) {
      var n: nat :| IsLongest(t, n, maxBytes) && r == IfFits(CutAndReset(t, Escapes.Cut(t.data[..n])), maxBytes);
      CutAndResetIsFinished(t, Escapes.Cut(t.data[..n]));
    }
  }

  /** The data ends with the last whole token of the longest prefix that fits, and the reset. */
  ghost predicate IsCutAtToken(s: Snapshot, tokens: seq<seq<int>>, r: Option<Snapshot>, maxBytes: nat) {
    exists n: nat ::
      && IsLongest(s, n, maxBytes) && Escapes.Boundary(tokens, n) <= n
      && TerminalParser.Finished(s.data[..Escapes.Boundary(tokens, n)])
      && r == IfFits(CutAndReset(s, Escapes.Boundary(tokens, n)), maxBytes)
  }

  /** A rendering of text and whole escape sequences is never cut inside a sequence. */
  lemma BoundedEndsAtToken(s: Snapshot, tokens: seq<seq<int>>, r: Option<Snapshot>, maxBytes: nat)
    requires s.data == Concat(tokens) && forall t | t in tokens :: Escapes.IsToken(t)
    requires IsBounded(s, r, maxBytes) && !Fits(s, maxBytes) && !Fits(WithoutPending(s), maxBytes)
    ensures IsCutAtToken(WithoutPending(s), tokens, r, maxBytes)
  {
    var t := WithoutPending(s);
    var n: nat :| IsLongest(t, n, maxBytes) && r == IfFits(CutAndReset(t, Escapes.Cut(t.data[..n])), maxBytes);
    Escapes.CutsAtTokenBoundary(tokens, n);
    assert Escapes.Cut(t.data[..n]) == Escapes.Boundary(tokens, n);
  }

  /** The snapshot in a `list` response: at most 64 KiB of JSON, whatever the session has on its screen. */
  method ForList(snapshot: Option<Snapshot>) returns (r: Option<Snapshot>)
    ensures if snapshot.Some? then IsBounded(snapshot.value, r, 64 * 1024) else r.None?
    ensures r.Some? ==> |Serialized(r.value)| <= 64 * 1024
    ensures r.None? && snapshot.Some? ==> !Fits(JustReset(snapshot.value), 64 * 1024)
  {
    if snapshot.None? {
      return None;
    }
    r := BoundForList(snapshot.value, LIST_SNAPSHOT_MAX_BYTES);
    BudgetIsKept(snapshot.value, r, LIST_SNAPSHOT_MAX_BYTES);
  }
}
