/** The terminal library as a session uses it, with the laws a theorem needs stated where it needs
    them, and the operations that are recorded for a client to replay. */
module Terminal {
  import opened Scanner
  import opened Utf8
  import opened ListSnapshot

  /** `S` is everything the library keeps: the screen and the state of its parser. */
  datatype Vt<!S> = Vt(
    blank: (nat, nat) -> S,
    process: (S, seq<byte>) -> S,
    setSize: (S, nat, nat) -> S,
    size: S -> (nat, nat),
    render: (S, bool) -> Text)

  /** Bytes may arrive in any number of parts. */
  ghost predicate Streams<S(!new)>(vt: Vt<S>) {
    forall s, a, b :: vt.process(vt.process(s, a), b) == vt.process(s, a + b)
  }

  ghost predicate KeepsSize<S(!new)>(vt: Vt<S>) {
    && (forall cols: nat, rows: nat :: vt.size(vt.blank(cols, rows)) == (cols, rows))
    && (forall s, bytes :: vt.size(vt.process(s, bytes)) == vt.size(s))
    && (forall s, cols: nat, rows: nat :: vt.size(vt.setSize(s, cols, rows)) == (cols, rows))
  }

  /** `same` is a way of looking at terminals that no later operation breaks. */
  ghost predicate Respected<S(!new)>(vt: Vt<S>, same: (S, S) -> bool) {
    && (forall s, t, bytes :: same(s, t) ==> same(vt.process(s, bytes), vt.process(t, bytes)))
    && (forall s, t, cols: nat, rows: nat :: same(s, t) ==> same(vt.setSize(s, cols, rows), vt.setSize(t, cols, rows)))
  }

  function Perform<S>(vt: Vt<S>, s: S, op: PendingOp): S {
    match op
    case Data(data) => vt.process(s, Encode(data))
    case Resize(cols, rows) => vt.setSize(s, cols, rows)
  }

  function Replay<S>(vt: Vt<S>, s: S, ops: seq<PendingOp>): S {
    if ops == [] then s else Perform(vt, Replay(vt, s, ops[..|ops| - 1]), ops[|ops| - 1])
  }

  /** Recording text: it joins the text at the end, if there is any. */
  function Push(ops: seq<PendingOp>, data: Text): seq<PendingOp> {
    if ops != [] && ops[|ops| - 1].Data? then
      ops[..|ops| - 1] + [Data(ops[|ops| - 1].data + data)]
    else ops + [Data(data)]
  }

  // ---- What a list of operations records, however text is split --------------------------------------

  datatype Unit = CharUnit(c: Scalar) | SizeUnit(cols: nat, rows: nat)

  function TextUnits(t: Text): (r: seq<Unit>)
    ensures |r| == |t|
  {
    seq(|t|, i requires 0 <= i < |t| => CharUnit(t[i]))
  }

  function OpUnits(op: PendingOp): seq<Unit> {
    match op
    case Data(data) => TextUnits(data)
    case Resize(cols, rows) => [SizeUnit(cols, rows)]
  }

  function Units(ops: seq<PendingOp>): seq<Unit> {
    if ops == [] then [] else Units(ops[..|ops| - 1]) + OpUnits(ops[|ops| - 1])
  }

  function CharsIn(ops: seq<PendingOp>): nat {
    if ops == [] then 0
    else CharsIn(ops[..|ops| - 1]) + (if ops[|ops| - 1].Data? then |ops[|ops| - 1].data| else 0)
  }

  /** No text is empty, and none is next to another: there is nothing left to join. */
  ghost predicate Joined(ops: seq<PendingOp>) {
    forall i | 0 <= i < |ops| :: ops[i].Data? ==> ops[i].data != [] && (i + 1 < |ops| ==> ops[i + 1].Resize?)
  }

  lemma SnocParts(ops: seq<PendingOp>, op: PendingOp)
    ensures (ops + [op])[..|ops|] == ops && (ops + [op])[|ops|] == op
  {
  }

  lemma UnitsSnoc(ops: seq<PendingOp>, op: PendingOp)
    ensures Units(ops + [op]) == Units(ops) + OpUnits(op)
  {
    SnocParts(ops, op);
  }

  lemma CharsSnoc(ops: seq<PendingOp>, op: PendingOp)
    ensures CharsIn(ops + [op]) == CharsIn(ops) + if op.Data? then |op.data| else 0
  {
    SnocParts(ops, op);
  }

  lemma TextUnitsConcat(a: Text, b: Text)
    ensures TextUnits(a + b) == TextUnits(a) + TextUnits(b)
  {
  }

  lemma UnitsJoin(front: seq<PendingOp>, last: Text, data: Text)
    ensures Units(front + [Data(last + data)]) == Units(front + [Data(last)]) + TextUnits(data)
  {
    UnitsSnoc(front, Data(last + data));
    UnitsSnoc(front, Data(last));
    TextUnitsConcat(last, data);
    Associates(Units(front), TextUnits(last), TextUnits(data));
  }

  lemma PushRecords(ops: seq<PendingOp>, data: Text)
    ensures Units(Push(ops, data)) == Units(ops) + TextUnits(data)
    ensures CharsIn(Push(ops, data)) == CharsIn(ops) + |data|
  {
    if ops != [] && ops[|ops| - 1].Data? {
      var front, last := ops[..|ops| - 1], ops[|ops| - 1].data;
      assert ops == front + [Data(last)];
      UnitsJoin(front, last, data);
      CharsSnoc(front, Data(last + data));
    } else {
      UnitsSnoc(ops, Data(data));
      CharsSnoc(ops, Data(data));
    }
  }

  lemma PushJoins(ops: seq<PendingOp>, data: Text)
    requires Joined(ops) && data != []
    ensures Joined(Push(ops, data))
  {
  }

  lemma ResizeRecords(ops: seq<PendingOp>, cols: nat, rows: nat)
    ensures Units(ops + [Resize(cols, rows)]) == Units(ops) + [SizeUnit(cols, rows)]
    ensures CharsIn(ops + [Resize(cols, rows)]) == CharsIn(ops)
    ensures Joined(ops) ==> Joined(ops + [Resize(cols, rows)])
  {
    UnitsSnoc(ops, Resize(cols, rows));
    CharsSnoc(ops, Resize(cols, rows));
  }

  lemma ReplaySnoc<S>(vt: Vt<S>, s: S, ops: seq<PendingOp>, op: PendingOp)
    ensures Replay(vt, s, ops + [op]) == Perform(vt, Replay(vt, s, ops), op)
  {
    SnocParts(ops, op);
  }

  lemma PushReplays<S(!new)>(vt: Vt<S>, s: S, ops: seq<PendingOp>, data: Text)
    requires Streams(vt)
    ensures Replay(vt, s, Push(ops, data)) == vt.process(Replay(vt, s, ops), Encode(data))
  {
    if ops != [] && ops[|ops| - 1].Data? {
      var front, last := ops[..|ops| - 1], ops[|ops| - 1].data;
      SnocParts(front, Data(last + data));
      EncodeConcat(last, data);
      assert vt.process(vt.process(Replay(vt, s, front), Encode(last)), Encode(data))
          == vt.process(Replay(vt, s, front), Encode(last) + Encode(data));
    } else {
      SnocParts(ops, Data(data));
    }
  }

  lemma {:induction false} ReplayRespects<S(!new)>(vt: Vt<S>, same: (S, S) -> bool, s: S, t: S, ops: seq<PendingOp>)
    requires Respected(vt, same) && same(s, t)
    ensures same(Replay(vt, s, ops), Replay(vt, t, ops))
  {
    if ops != [] {
      ReplayRespects(vt, same, s, t, ops[..|ops| - 1]);
    }
  }
}
