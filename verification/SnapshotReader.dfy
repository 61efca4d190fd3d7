/** Reading a serialized snapshot back: nothing of it is missing from the bytes that the budget counts. */
module SnapshotReader {
  // A reader for the JSON of a snapshot in its compact form, with strings and numbers as in sections 6 and 7 of
  // RFC 8259.

  import opened Options
  import opened Scanner
  import opened Utf8
  import opened ListSnapshot

  datatype Parsed<+T> = Parsed(value: T, rest: seq<byte>)

  function Expect(s: seq<byte>, literal: seq<byte>): (r: Option<seq<byte>>)
    ensures r.Some? ==> |r.value| == |s| - |literal|
  {
    if literal <= s then Some(s[|literal|..]) else None
  }

  lemma ExpectReads(literal: seq<byte>, rest: seq<byte>)
    ensures Expect(literal + rest, literal) == Some(rest)
  {
  }

  // ---- Numbers --------------------------------------------------------------------------------------------

  predicate StartsWithDigit(s: seq<byte>) {
    s != [] && 0x30 <= s[0] <= 0x39
  }

  function ReadDigits(s: seq<byte>, n: nat): (r: Parsed<nat>)
    ensures |r.rest| <= |s|
    decreases |s|
  {
    if StartsWithDigit(s) then ReadDigits(s[1..], 10 * n + (s[0] as int - 0x30)) else Parsed(n, s)
  }

  /** A zero in front stands alone. */
  function ReadNumber(s: seq<byte>): (r: Option<Parsed<nat>>)
    ensures r.Some? ==> |r.value.rest| < |s|
  {
    if !StartsWithDigit(s) then None
    else if s[0] == 0x30 then Some(Parsed(0, s[1..]))
    else Some(ReadDigits(s[1..], s[0] as int - 0x30))
  }

  lemma {:induction false} DecimalStarts(n: nat)
    ensures StartsWithDigit(Decimal(n)) && (Decimal(n)[0] == 0x30 <==> n == 0)
    ensures n == 0 ==> Decimal(n) == [0x30]
  {
    if n >= 10 {
      DecimalStarts(n / 10);
    }
  }

  lemma {:induction false} DigitsReadBack(n: nat, rest: seq<byte>)
    ensures ReadDigits(Decimal(n) + rest, 0) == ReadDigits(rest, n)
    decreases n
  {
    if n < 10 {
      assert (Decimal(n) + rest)[1..] == rest;
    } else {
      var last := [Digit(n % 10)];
      Associates(Decimal(n / 10), last, rest);
      DigitsReadBack(n / 10, last + rest);
      assert (last + rest)[1..] == rest;
    }
  }

  lemma NumberReadsBack(n: nat, rest: seq<byte>)
    requires !StartsWithDigit(rest)
    ensures ReadNumber(Decimal(n) + rest) == Some(Parsed(n, rest))
  {
    DecimalStarts(n);
    DigitsReadBack(n, rest);
    var s := Decimal(n) + rest;
    assert s[0] == Decimal(n)[0];
    if n == 0 {
      assert s[1..] == rest;
    } else {
      assert ReadDigits(s, 0) == ReadDigits(s[1..], 10 * 0 + (s[0] as int - 0x30));
    }
  }

  // ---- Strings --------------------------------------------------------------------------------------------

  function ReadText(s: seq<byte>): (r: Option<Parsed<Text>>)
    ensures r.Some? ==> |r.value.rest| < |s|
  {
    if s == [] || s[0] != 0x22 then None
    else
      ReadAdvances();
      var r := Scan(ReadCharacter, s[1..]);
      if r.tail != [] && r.tail[0] == 0x22 then Some(Parsed(r.out, r.tail[1..])) else None
  }

  lemma TextReadsBack(t: Text, rest: seq<byte>)
    ensures ReadText(Quoted(t) + rest) == Some(Parsed(t, rest))
  {
    StringReadsBack(t, rest);
    QuotedTail(t, rest);
    ReadsInner(Quoted(t) + rest, EscapedAll(t) + [0x22] + rest, t, rest);
  }

  lemma QuotedTail(t: Text, rest: seq<byte>)
    ensures var s := Quoted(t) + rest; s[0] == 0x22 && s[1..] == EscapedAll(t) + [0x22] + rest
  {
  }

  lemma ReadsInner(s: seq<byte>, inner: seq<byte>, t: Text, rest: seq<byte>)
    requires s != [] && s[0] == 0x22 && s[1..] == inner
    requires Advances(ReadCharacter) && Scan(ReadCharacter, inner) == Scanned(t, [0x22] + rest)
    ensures ReadText(s) == Some(Parsed(t, rest))
  {
    assert ([0x22] + rest)[1..] == rest;
  }

  lemma PlainIsShortest(c: Scalar, s: seq<byte>)
    requires Next(s).Take? && Next(s).out == [c] && s != [] && s[0] >= 0x20 && s[0] != 0x22 && s[0] != 0x5C
    ensures Next(s).len == |Escaped(c)|
  {
    NextTakesScalar(s);
    EncodeInvertsValue(s[..Next(s).len]);
  }

  /** No way to write a character is shorter: nothing is counted that could be left out. */
  lemma EscapedIsShortest(c: Scalar, s: seq<byte>)
    requires ReadCharacter(s).Take? && ReadCharacter(s).out == [c]
    ensures ReadCharacter(s).len >= |Escaped(c)|
  {
    if s[0] != 0x5C {
      PlainIsShortest(c, s);
    }
  }

  // ---- Operations -----------------------------------------------------------------------------------------

  /** A number after a literal. */
  function ReadNumberAfter(s: seq<byte>, literal: seq<byte>): (r: Option<Parsed<nat>>)
    ensures r.Some? ==> |r.value.rest| < |s|
  {
    match Expect(s, literal)
    case None => None
    case Some(rest) => ReadNumber(rest)
  }

  function ReadTextAfter(s: seq<byte>, literal: seq<byte>): (r: Option<Parsed<Text>>)
    ensures r.Some? ==> |r.value.rest| < |s|
  {
    match Expect(s, literal)
    case None => None
    case Some(rest) => ReadText(rest)
  }

  lemma NumberAfterReadsBack(literal: seq<byte>, n: nat, rest: seq<byte>)
    requires !StartsWithDigit(rest)
    ensures ReadNumberAfter(literal + Decimal(n) + rest, literal) == Some(Parsed(n, rest))
  {
    Associates(literal, Decimal(n), rest);
    ExpectReads(literal, Decimal(n) + rest);
    NumberReadsBack(n, rest);
  }

  lemma TextAfterReadsBack(literal: seq<byte>, t: Text, rest: seq<byte>)
    ensures ReadTextAfter(literal + Quoted(t) + rest, literal) == Some(Parsed(t, rest))
  {
    Associates(literal, Quoted(t), rest);
    ExpectReads(literal, Quoted(t) + rest);
    TextReadsBack(t, rest);
  }

  function ReadData(s: seq<byte>): (r: Option<Parsed<PendingOp>>)
    ensures r.Some? ==> |r.value.rest| < |s|
  {
    match ReadTextAfter(s, Ascii("{\"type\":\"data\",\"data\":"))
    case None => None
    case Some(Parsed(t, rest)) =>
      match Expect(rest, Ascii("}"))
      case None => None
      case Some(end) => Some(Parsed(Data(t), end))
  }

  function ReadResize(s: seq<byte>): (r: Option<Parsed<PendingOp>>)
    ensures r.Some? ==> |r.value.rest| < |s|
  {
    match ReadNumberAfter(s, Ascii("{\"type\":\"resize\",\"cols\":"))
    case None => None
    case Some(Parsed(cols, more)) =>
      match ReadNumberAfter(more, Ascii(",\"rows\":"))
      case None => None
      case Some(Parsed(rows, rest)) =>
        match Expect(rest, Ascii("}"))
        case None => None
        case Some(end) => Some(Parsed(Resize(cols, rows), end))
  }

  function ReadOp(s: seq<byte>): (r: Option<Parsed<PendingOp>>)
    ensures r.Some? ==> |r.value.rest| < |s|
  {
    if ReadData(s).Some? then ReadData(s) else ReadResize(s)
  }

  lemma DataReadsBack(t: Text, rest: seq<byte>)
    ensures ReadData(SerializedOp(Data(t)) + rest) == Some(Parsed(Data(t), rest))
  {
    var head, end := Ascii("{\"type\":\"data\",\"data\":"), Ascii("}");
    assert SerializedOp(Data(t)) + rest == head + Quoted(t) + (end + rest);
    TextAfterReadsBack(head, t, end + rest);
    ExpectReads(end, rest);
  }

  lemma JoinFour(a: seq<byte>, b: seq<byte>, c: seq<byte>, d: seq<byte>, rest: seq<byte>)
    ensures a + b + c + d + rest == a + (b + c + (d + rest))
  {
    Associates(a, b, c);
    Associates(a, b + c, d + rest);
    Associates(a + (b + c), d, rest);
  }

  lemma ResizeReadsBack(cols: nat, rows: nat, rest: seq<byte>)
    ensures ReadResize(SerializedOp(Resize(cols, rows)) + rest) == Some(Parsed(Resize(cols, rows), rest))
  {
    var head, middle, end := Ascii("{\"type\":\"resize\",\"cols\":"), Ascii(",\"rows\":"), Ascii("}");
    var more := middle + Decimal(rows) + (end + rest);
    JoinFour(head + Decimal(cols), middle, Decimal(rows), end, rest);
    NumberAfterReadsBack(head, cols, more);
    NumberAfterReadsBack(middle, rows, end + rest);
    ExpectReads(end, rest);
  }

  lemma ResizeIsNoData(cols: nat, rows: nat, rest: seq<byte>)
    ensures ReadData(SerializedOp(Resize(cols, rows)) + rest).None?
  {
    var s := SerializedOp(Resize(cols, rows)) + rest;
    assert s[9] == Ascii("{\"type\":\"resize\",\"cols\":")[9];
    assert Ascii("{\"type\":\"data\",\"data\":")[9] != s[9];
  }

  lemma OpReadsBack(op: PendingOp, rest: seq<byte>)
    ensures ReadOp(SerializedOp(op) + rest) == Some(Parsed(op, rest))
  {
    match op
    case Data(t) => DataReadsBack(t, rest);
    case Resize(cols, rows) =>
      ResizeIsNoData(cols, rows, rest);
      ResizeReadsBack(cols, rows, rest);
  }

  /** The elements of an array, up to its closing bracket. */
  function ReadOps(s: seq<byte>): (r: Option<Parsed<seq<PendingOp>>>)
    decreases |s|
  {
    match ReadOp(s)
    case None => None
    case Some(Parsed(op, rest)) =>
      match Expect(rest, Ascii(","))
      case None => Some(Parsed([op], rest))
      case Some(more) =>
        match ReadOps(more)
        case None => None
        case Some(Parsed(ops, end)) => Some(Parsed([op] + ops, end))
  }

  lemma {:induction false} OpsReadBack(ops: seq<PendingOp>, rest: seq<byte>)
    requires ops != [] && Expect(rest, Ascii(",")).None?
    ensures ReadOps(SerializedOps(ops) + rest) == Some(Parsed(ops, rest))
    decreases |ops|
  {
    if |ops| == 1 {
      LastOp(ops[0], rest);
      assert [ops[0]] == ops;
    } else {
      OpsReadBack(ops[1..], rest);
      FirstOpReadsBack(ops, rest);
    }
  }

  lemma FirstOpReadsBack(ops: seq<PendingOp>, rest: seq<byte>)
    requires |ops| > 1 && ReadOps(SerializedOps(ops[1..]) + rest) == Some(Parsed(ops[1..], rest))
    ensures ReadOps(SerializedOps(ops) + rest) == Some(Parsed(ops, rest))
  {
    FirstOp(ops, rest);
    OpAndMore(ops[0], SerializedOps(ops[1..]) + rest, ops[1..], rest);
    assert [ops[0]] + ops[1..] == ops;
  }

  lemma LastOp(op: PendingOp, rest: seq<byte>)
    requires Expect(rest, Ascii(",")).None?
    ensures ReadOps(SerializedOps([op]) + rest) == Some(Parsed([op], rest))
  {
    OpReadsBack(op, rest);
  }

  lemma FirstOp(ops: seq<PendingOp>, rest: seq<byte>)
    requires |ops| > 1
    ensures SerializedOps(ops) + rest == SerializedOp(ops[0]) + (Ascii(",") + (SerializedOps(ops[1..]) + rest))
  {
    Associates(Ascii(","), SerializedOps(ops[1..]), rest);
    Associates(SerializedOp(ops[0]), Ascii(",") + SerializedOps(ops[1..]), rest);
    Associates(SerializedOp(ops[0]), Ascii(","), SerializedOps(ops[1..]));
  }

  lemma OpAndMore(op: PendingOp, more: seq<byte>, ops: seq<PendingOp>, rest: seq<byte>)
    requires ReadOps(more) == Some(Parsed(ops, rest))
    ensures ReadOps(SerializedOp(op) + (Ascii(",") + more)) == Some(Parsed([op] + ops, rest))
  {
    OpReadsBack(op, Ascii(",") + more);
    ExpectReads(Ascii(","), more);
  }

  function ReadArray(s: seq<byte>): Option<Parsed<seq<PendingOp>>> {
    match Expect(s, Ascii("["))
    case None => None
    case Some(rest) =>
      if Expect(rest, Ascii("]")).Some? then Some(Parsed([], Expect(rest, Ascii("]")).value))
      else
        match ReadOps(rest)
        case None => None
        case Some(Parsed(ops, end)) =>
          match Expect(end, Ascii("]"))
          case None => None
          case Some(after) => Some(Parsed(ops, after))
  }

  lemma OpsStart(ops: seq<PendingOp>, rest: seq<byte>)
    requires ops != []
    ensures SerializedOps(ops) + rest != [] && (SerializedOps(ops) + rest)[0] == 0x7B
  {
    assert SerializedOp(ops[0])[0] == 0x7B;
    assert SerializedOps(ops)[0] == SerializedOp(ops[0])[0];
  }

  lemma BracketIsNoComma(rest: seq<byte>)
    ensures Expect(Ascii("]") + rest, Ascii(",")).None?
  {
    assert Ascii(",")[0] == 0x2C && (Ascii("]") + rest)[0] == 0x5D;
  }

  lemma ArrayReadsBack(ops: seq<PendingOp>, rest: seq<byte>)
    ensures ReadArray(Ascii("[") + SerializedOps(ops) + (Ascii("]") + rest)) == Some(Parsed(ops, rest))
  {
    var open, close := Ascii("["), Ascii("]");
    var inner := SerializedOps(ops) + (close + rest);
    Associates(open, SerializedOps(ops), close + rest);
    ExpectReads(open, inner);
    ExpectReads(close, rest);
    if ops == [] {
      assert inner == close + rest;
    } else {
      OpsStart(ops, close + rest);
      assert close[0] == 0x5D;
      BracketIsNoComma(rest);
      OpsReadBack(ops, close + rest);
    }
  }

  // ---- A snapshot -------------------------------------------------------------------------------------------

  /** The members after the data. */
  function ReadAfterData(s: seq<byte>, version: nat, data: Text): Option<Snapshot> {
    match ReadNumberAfter(s, Ascii(",\"cols\":"))
    case None => None
    case Some(Parsed(cols, more)) =>
      match ReadNumberAfter(more, Ascii(",\"rows\":"))
      case None => None
      case Some(Parsed(rows, rest)) =>
        match Expect(rest, Ascii(",\"pending\":"))
        case None => None
        case Some(elements) =>
          match ReadArray(elements)
          case None => None
          case Some(Parsed(pending, end)) =>
            if end == Ascii("}") then Some(Snapshot(version, data, cols, rows, pending)) else None
  }

  /** A whole text that is a snapshot. */
  function ReadSnapshot(s: seq<byte>): Option<Snapshot> {
    match ReadNumberAfter(s, Ascii("{\"version\":"))
    case None => None
    case Some(Parsed(version, more)) =>
      match ReadTextAfter(more, Ascii(",\"data\":"))
      case None => None
      case Some(Parsed(data, rest)) => ReadAfterData(rest, version, data)
  }

  lemma BracketsInParts()
    ensures Ascii(",\"pending\":[") == Ascii(",\"pending\":") + Ascii("[") && Ascii("]}") == Ascii("]") + Ascii("}")
  {
  }

  lemma AfterDataInParts(s: Snapshot)
    ensures AfterData(s.cols, s.rows, s.pending)
         == Ascii(",\"cols\":") + Decimal(s.cols)
            + (Ascii(",\"rows\":") + Decimal(s.rows)
               + (Ascii(",\"pending\":") + (Ascii("[") + SerializedOps(s.pending) + (Ascii("]") + Ascii("}")))))
  {
    BracketsInParts();
    Regroup(Ascii(",\"cols\":") + Decimal(s.cols), Ascii(",\"rows\":"), Decimal(s.rows), Ascii(",\"pending\":"),
            Ascii("["), SerializedOps(s.pending), Ascii("]") + Ascii("}"));
  }

  lemma Regroup(a: seq<byte>, b: seq<byte>, n: seq<byte>, c: seq<byte>, d: seq<byte>, e: seq<byte>, f: seq<byte>)
    ensures a + b + n + (c + d) + e + f == a + (b + n + (c + (d + e + f)))
  {
    Associates(a, b, n);
    Associates(a, b + n, c + d);
    Associates(b + n, c, d);
  }

  lemma AfterDataReadsBack(s: Snapshot)
    ensures ReadAfterData(AfterData(s.cols, s.rows, s.pending), s.version, s.data) == Some(s)
  {
    var toCols, toRows, toPending, end := Ascii(",\"cols\":"), Ascii(",\"rows\":"), Ascii(",\"pending\":"), Ascii("}");
    var elements := Ascii("[") + SerializedOps(s.pending) + (Ascii("]") + end);
    var more := toRows + Decimal(s.rows) + (toPending + elements);
    AfterDataInParts(s);
    NumberAfterReadsBack(toCols, s.cols, more);
    NumberAfterReadsBack(toRows, s.rows, toPending + elements);
    ExpectReads(toPending, elements);
    ArrayReadsBack(s.pending, end);
  }

  /** Every field of a snapshot, and every operation pending, can be read back from the text whose length is
      measured: the budget is the budget of all of it. */
  lemma SnapshotReadsBack(s: Snapshot)
    ensures ReadSnapshot(Serialized(s)) == Some(s)
  {
    var head, toData, end := Ascii("{\"version\":"), Ascii(",\"data\":"), AfterData(s.cols, s.rows, s.pending);
    var more := toData + Quoted(s.data) + end;
    JoinFour(head + Decimal(s.version), toData, Quoted(s.data), end, []);
    assert Serialized(s) + [] == Serialized(s) && end + [] == end;
    NumberAfterReadsBack(head, s.version, more);
    TextAfterReadsBack(toData, s.data, end);
    AfterDataReadsBack(s);
  }
}
