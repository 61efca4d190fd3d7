/** Frames on the socket, a big-endian length and a body, and the loop that reads them: which frames are
    handled, and why the loop ends, does not depend on how the bytes arrive. */
module Frames {
  import opened Scanner
  import Utf8
  import opened Options

  type byte = Utf8.byte

  const MAX_FRAME_BYTES := 64 * 1024 * 1024
  const MAX_REQUEST_BUFFER_BYTES := MAX_FRAME_BYTES + 4
  const U32 := 0x1_0000_0000

  // ---- One frame ------------------------------------------------------------------------------------

  function BigEndian(n: nat): (s: seq<byte>)
    requires n < U32
    ensures |s| == 4
  {
    [n / 0x100_0000, n / 0x1_0000 % 0x100, n / 0x100 % 0x100, n % 0x100]
  }

  function FromBigEndian(s: seq<byte>): nat
    requires |s| >= 4
  {
    0x100_0000 * (s[0] as int) + 0x1_0000 * (s[1] as int) + 0x100 * (s[2] as int) + (s[3] as int)
  }

  lemma LengthReadsBack(n: nat, rest: seq<byte>)
    requires n < U32
    ensures FromBigEndian(BigEndian(n) + rest) == n
  {
    assert n / 0x100 == 0x100 * (n / 0x1_0000) + n / 0x100 % 0x100;
    assert n / 0x1_0000 == 0x100 * (n / 0x100_0000) + n / 0x1_0000 % 0x100;
  }

  lemma LengthWritesBack(s: seq<byte>)
    requires |s| >= 4
    ensures FromBigEndian(s) < U32 && BigEndian(FromBigEndian(s)) == s[..4]
  {
    var n := FromBigEndian(s);
    var a: int, b: int, c: int := s[0], s[1], s[2];
    assert n / 0x100 == 0x1_0000 * a + 0x100 * b + c;
    assert n / 0x1_0000 == 0x100 * a + b;
  }

  datatype FrameError = TooLarge(size: nat) | BadBody

  datatype Result<+T> = Ok(value: T) | Err(error: FrameError)

  datatype Frame = Frame(consumed: nat, body: seq<byte>)

  function EncodeFrame(body: seq<byte>): Result<seq<byte>> {
    if |body| > MAX_FRAME_BYTES then Err(TooLarge(|body| % U32)) else Ok(BigEndian(|body|) + body)
  }

  /** `valid` says which bodies parse. */
  function DecodeFrame(buf: seq<byte>, valid: seq<byte> -> bool): Result<Option<Frame>> {
    if |buf| < 4 then Ok(None)
    else
      var len := FromBigEndian(buf);
      if len > MAX_FRAME_BYTES then Err(TooLarge(len))
      else if |buf| < 4 + len then Ok(None)
      else if !valid(buf[4..4 + len]) then Err(BadBody)
      else Ok(Some(Frame(4 + len, buf[4..4 + len])))
  }

  lemma OnTheWire(body: seq<byte>, rest: seq<byte>)
    requires |body| < U32
    ensures var buf := BigEndian(|body|) + body + rest;
            FromBigEndian(buf) == |body| && buf[4..4 + |body|] == body
  {
    LengthReadsBack(|body|, body + rest);
    assert BigEndian(|body|) + body + rest == BigEndian(|body|) + (body + rest);
  }

  /** Decoding undoes encoding, whatever follows the frame. */
  lemma DecodeInvertsEncode(body: seq<byte>, rest: seq<byte>, valid: seq<byte> -> bool)
    ensures EncodeFrame(body).Ok? <==> |body| <= 64 * 1024 * 1024
    ensures EncodeFrame(body).Ok? ==>
              DecodeFrame(EncodeFrame(body).value + rest, valid)
              == if valid(body) then Ok(Some(Frame(4 + |body|, body))) else Err(BadBody)
  {
    if |body| <= MAX_FRAME_BYTES {
      OnTheWire(body, rest);
    }
  }

  lemma PartOfAFrameIsNotEnough(body: seq<byte>, part: seq<byte>, valid: seq<byte> -> bool)
    requires |body| <= MAX_FRAME_BYTES && part < EncodeFrame(body).value
    ensures DecodeFrame(part, valid) == Ok(None)
  {
    if |part| >= 4 {
      LengthReadsBack(|body|, part[4..]);
      assert part == BigEndian(|body|) + part[4..];
    }
  }

  /** A frame is only ever read where its encoding stands. */
  lemma EncodeInvertsDecode(buf: seq<byte>, valid: seq<byte> -> bool)
    requires DecodeFrame(buf, valid).Ok? && DecodeFrame(buf, valid).value.Some?
    ensures var frame := DecodeFrame(buf, valid).value.value;
            && valid(frame.body) && EncodeFrame(frame.body) == Ok(buf[..frame.consumed])
            && frame.consumed == 4 + |frame.body| <= |buf|
  {
    LengthWritesBack(buf);
    var len := FromBigEndian(buf);
    assert buf[..4] + buf[4..4 + len] == buf[..4 + len];
  }

  // ---- Reading a connection ---------------------------------------------------------------------------

  /** The recogniser behind the read loop; it stops at a frame that does not decode. */
  function Next(valid: seq<byte> -> bool): seq<byte> -> Step<seq<byte>> {
    (s: seq<byte>) =>
      var r := DecodeFrame(s, valid);
      if r.Ok? && r.value.Some? then Take(r.value.value.consumed, [r.value.value.body]) else Wait
  }

  lemma NextAdvances(valid: seq<byte> -> bool)
    ensures Advances(Next(valid))
  {
  }

  /** Once there is an answer, more bytes do not change it. */
  lemma DecodeIsStable(a: seq<byte>, b: seq<byte>, valid: seq<byte> -> bool)
    ensures var r := DecodeFrame(a, valid); r == Ok(None) || DecodeFrame(a + b, valid) == r
  {
    if |a| >= 4 {
      var len := FromBigEndian(a);
      if 4 + len <= |a| {
        assert (a + b)[4..4 + len] == a[4..4 + len];
      }
    }
  }

  lemma NextIsStable(valid: seq<byte> -> bool)
    ensures Stable(Next(valid))
  {
    forall a: seq<byte>, b: seq<byte> ensures StableAt(Next(valid), a, b) {
      DecodeIsStable(a, b, valid);
    }
  }

  function Decoded(data: seq<byte>, valid: seq<byte> -> bool): Scanned<byte, seq<byte>> {
    NextAdvances(valid);
    Scan(Next(valid), data)
  }

  function Wire(body: seq<byte>): seq<byte> {
    if EncodeFrame(body).Ok? then EncodeFrame(body).value else []
  }

  /** Frames that follow each other are decoded one by one, up to a part of a frame or one that is refused. */
  lemma {:induction false} FramesAreDecoded(bodies: seq<seq<byte>>, end: seq<byte>, valid: seq<byte> -> bool)
    requires forall i | 0 <= i < |bodies| :: valid(bodies[i]) && |bodies[i]| <= 64 * 1024 * 1024
    requires Next(valid)(end).Wait?
    ensures Decoded(Written(Wire, bodies) + end, valid) == Scanned(bodies, end)
  {
    NextAdvances(valid);
    if bodies == [] {
      assert [] + end == end;
    } else {
      FramesAreDecoded(bodies[1..], end, valid);
      FirstIsDecoded(bodies[0], Written(Wire, bodies[1..]) + end, valid);
      FirstOnTheWire(bodies, end);
      assert [bodies[0]] + bodies[1..] == bodies;
    }
  }

  lemma FirstOnTheWire(bodies: seq<seq<byte>>, end: seq<byte>)
    requires bodies != []
    ensures Written(Wire, bodies) + end == Wire(bodies[0]) + (Written(Wire, bodies[1..]) + end)
  {
    Associates(Wire(bodies[0]), Written(Wire, bodies[1..]), end);
  }

  lemma FirstIsDecoded(body: seq<byte>, rest: seq<byte>, valid: seq<byte> -> bool)
    requires valid(body) && |body| <= 64 * 1024 * 1024
    ensures var later := Decoded(rest, valid);
            Decoded(Wire(body) + rest, valid) == Scanned([body] + later.out, later.tail)
  {
    NextAdvances(valid);
    DecodeInvertsEncode(body, rest, valid);
    ScanTakes(Next(valid), Wire(body), body, rest);
  }

  /** The frames that are handled: all up to the first after which the connection is closed. */
  function Handled<T>(frames: seq<T>, closes: nat -> bool, number: nat): seq<T>
    decreases |frames|
  {
    if frames == [] then []
    else if closes(number) then [frames[0]]
    else [frames[0]] + Handled(frames[1..], closes, number + 1)
  }

  /** Every frame up to and with the first that closes the connection is handled, and none after it. */
  lemma {:induction false} HandledUpToClose<T>(frames: seq<T>, closes: nat -> bool, number: nat, k: nat)
    requires k <= |frames| && (forall j: nat | number <= j < number + k :: !closes(j))
    requires k < |frames| ==> closes(number + k)
    ensures Handled(frames, closes, number) == if k < |frames| then frames[..k + 1] else frames
    decreases |frames|
  {
    if frames != [] && k > 0 {
      HandledUpToClose(frames[1..], closes, number + 1, k - 1);
    }
  }

  lemma {:induction false} HandledAppend<T>(a: seq<T>, b: seq<T>, closes: nat -> bool, number: nat)
    requires forall k: nat | number <= k < number + |a| :: !closes(k)
    ensures Handled(a + b, closes, number) == a + Handled(b, closes, number + |a|)
    decreases |a|
  {
    if a == [] {
      assert a + b == b;
    } else {
      assert (a + b)[1..] == a[1..] + b;
      HandledAppend(a[1..], b, closes, number + 1);
      assert [a[0]] + (a[1..] + Handled(b, closes, number + |a|)) == a + Handled(b, closes, number + |a|);
    }
  }

  lemma {:induction false} HandledStops<T>(a: seq<T>, b: seq<T>, closes: nat -> bool, number: nat, k: nat)
    requires number <= k < number + |a| && closes(k)
    ensures Handled(a + b, closes, number) == Handled(a, closes, number)
    decreases |a|
  {
    assert (a + b)[1..] == a[1..] + b;
    if !closes(number) {
      HandledStops(a[1..], b, closes, number + 1, k);
    }
  }

  datatype Read = Bytes(data: seq<byte>) | Interrupted | Failed

  /** All that arrives before the end, or an error that is not an interruption. */
  function Received(arrivals: seq<Read>): seq<byte> {
    if arrivals == [] then []
    else match arrivals[0]
      case Bytes(data) => if data == [] then [] else data + Received(arrivals[1..])
      case Interrupted => Received(arrivals[1..])
      case Failed => []
  }

  function Uninterrupted(arrivals: seq<Read>): seq<Read> {
    if arrivals == [] then []
    else (if arrivals[0].Interrupted? then [] else [arrivals[0]]) + Uninterrupted(arrivals[1..])
  }

  /** Interruptions leave no trace. */
  lemma {:induction false} InterruptionsDoNotMatter(arrivals: seq<Read>)
    ensures Received(arrivals) == Received(Uninterrupted(arrivals))
  {
    if arrivals != [] {
      InterruptionsDoNotMatter(arrivals[1..]);
      var rest := Uninterrupted(arrivals[1..]);
      if arrivals[0].Interrupted? {
        assert Uninterrupted(arrivals) == [] + rest == rest;
      } else {
        assert Uninterrupted(arrivals) == [arrivals[0]] + rest && ([arrivals[0]] + rest)[1..] == rest;
      }
    }
  }

  function AsReads(parts: seq<seq<byte>>): seq<Read> {
    if parts == [] then [] else [Bytes(parts[0])] + AsReads(parts[1..])
  }

  /** Everything up to the end of the stream or a failure is received, and nothing after it. */
  lemma {:induction false} ReceivedUpToEnd(parts: seq<seq<byte>>, rest: seq<Read>)
    requires forall i | 0 <= i < |parts| :: parts[i] != []
    requires rest == [] || rest[0].Failed? || rest[0] == Bytes([])
    ensures Received(AsReads(parts) + rest) == Concat(parts)
    decreases |parts|
  {
    if parts == [] {
      assert AsReads(parts) + rest == rest;
    } else {
      var later := AsReads(parts[1..]) + rest;
      assert AsReads(parts) + rest == [Bytes(parts[0])] + later && ([Bytes(parts[0])] + later)[1..] == later;
      ReceivedUpToEnd(parts[1..], rest);
    }
  }

  datatype Ending = Eof | BadFrame | Closed | Overflow

  /** The loop has handled `handled` and goes on with `buffer`. */
  ghost predicate GoesOn<T>(next: seq<byte> -> Step<T>, closes: nat -> bool,
      data: seq<byte>, handled: seq<T>, buffer: seq<byte>)
    requires Advances(next)
  {
    ScannedTo(next, data, handled, buffer) && forall k: nat | k < |handled| :: !closes(k)
  }

  /** All that will ever be handled has been. */
  ghost predicate Over<T>(next: seq<byte> -> Step<T>, closes: nat -> bool, data: seq<byte>, handled: seq<T>)
    requires Advances(next)
  {
    handled == Handled(Scan(next, data).out, closes, 0)
  }

  lemma MoreData<T>(next: seq<byte> -> Step<T>, closes: nat -> bool,
      data: seq<byte>, handled: seq<T>, buffer: seq<byte>, more: seq<byte>)
    requires Advances(next) && Stable(next) && GoesOn(next, closes, data, handled, buffer)
    ensures GoesOn(next, closes, data + more, handled, buffer + more)
  {
    ScannedToMore(next, data, handled, buffer, more);
  }

  lemma OneStep<T>(next: seq<byte> -> Step<T>, closes: nat -> bool,
      data: seq<byte>, handled: seq<T>, buffer: seq<byte>, frame: T)
    requires Advances(next) && GoesOn(next, closes, data, handled, buffer)
    requires next(buffer).Take? && next(buffer).out == [frame]
    ensures !closes(|handled|) ==> GoesOn(next, closes, data, handled + [frame], buffer[next(buffer).len..])
    ensures closes(|handled|) ==> Over(next, closes, data, handled + [frame]) && |handled| < |Scan(next, data).out|
  {
    var rest := buffer[next(buffer).len..];
    ScannedToTrans(next, data, handled, buffer, [frame], rest);
    if closes(|handled|) {
      var later := Scan(next, rest).out;
      assert handled + [frame] + later == handled + ([frame] + later);
      HandledAppend(handled, [frame] + later, closes, 0);
    }
  }

  /** When no frame can be taken, everything decoded so far has been handled. */
  lemma NothingToTake<T>(next: seq<byte> -> Step<T>, closes: nat -> bool,
      data: seq<byte>, handled: seq<T>, buffer: seq<byte>)
    requires Advances(next) && GoesOn(next, closes, data, handled, buffer) && next(buffer).Wait?
    ensures Scan(next, data) == Scanned(handled, buffer) && Over(next, closes, data, handled)
  {
    assert handled + [] == handled;
    HandledAppend(handled, [], closes, 0);
  }

  /** Bytes that arrive after the connection is closed would not have been handled. */
  lemma OverAfterClose<T>(next: seq<byte> -> Step<T>, closes: nat -> bool,
      data: seq<byte>, more: seq<byte>, handled: seq<T>, k: nat)
    requires Advances(next) && Stable(next) && Over(next, closes, data, handled)
    requires k < |Scan(next, data).out| && closes(k)
    ensures Over(next, closes, data + more, handled) && k < |Scan(next, data + more).out|
  {
    ScanSplit(next, data, more);
    var first := Scan(next, data);
    HandledStops(first.out, Scan(next, first.tail + more).out, closes, 0, k);
  }

  /** Nor would bytes after a frame that does not decode. */
  lemma OverAfterError<T>(next: seq<byte> -> Step<T>, closes: nat -> bool,
      data: seq<byte>, more: seq<byte>, handled: seq<T>, buffer: seq<byte>)
    requires Advances(next) && Stable(next) && GoesOn(next, closes, data, handled, buffer)
    requires next(buffer).Wait? && next(buffer + more).Wait?
    ensures Over(next, closes, data + more, handled) && Scan(next, data + more) == Scanned(handled, buffer + more)
  {
    NothingToTake(next, closes, data, handled, buffer);
    ScanSplit(next, data, more);
    assert handled + [] == handled;
  }

  /** Why the loop ends: the first of these that applies. */
  ghost predicate EndsAs(all: Scanned<byte, seq<byte>>, valid: seq<byte> -> bool, closes: nat -> bool, ending: Ending) {
    ending == if exists k: nat :: k < |all.out| && closes(k) then Closed
              else if DecodeFrame(all.tail, valid).Err? then BadFrame
              else Eof
  }

  /** What the read loop must come to for the bytes of a connection. */
  ghost predicate Serves(all: seq<byte>, valid: seq<byte> -> bool, closes: nat -> bool,
      handled: seq<seq<byte>>, ending: Ending)
  {
    var scanned := Decoded(all, valid);
    handled == Handled(scanned.out, closes, 0) && EndsAs(scanned, valid, closes, ending)
  }

  /** The loop has read `data`, handled `handled`, and still has `buffer`. */
  ghost predicate Reading(valid: seq<byte> -> bool, closes: nat -> bool,
      data: seq<byte>, handled: seq<seq<byte>>, buffer: seq<byte>)
  {
    Advances(Next(valid)) && GoesOn(Next(valid), closes, data, handled, buffer)
  }

  lemma ReadsMore(valid: seq<byte> -> bool, closes: nat -> bool,
      data: seq<byte>, handled: seq<seq<byte>>, buffer: seq<byte>, more: seq<byte>)
    requires Reading(valid, closes, data, handled, buffer)
    ensures Reading(valid, closes, data + more, handled, buffer + more)
  {
    NextIsStable(valid);
    MoreData(Next(valid), closes, data, handled, buffer, more);
  }

  lemma ReadsFrame(valid: seq<byte> -> bool, closes: nat -> bool,
      data: seq<byte>, handled: seq<seq<byte>>, buffer: seq<byte>, frame: Frame, more: seq<byte>)
    requires Reading(valid, closes, data, handled, buffer)
    requires DecodeFrame(buffer, valid) == Ok(Some(frame))
    ensures frame.consumed <= |buffer|
    ensures var now := handled + [frame.body];
            if closes(|handled|) then Serves(data + more, valid, closes, now, Closed)
            else Reading(valid, closes, data, now, buffer[frame.consumed..])
  {
    OneStep(Next(valid), closes, data, handled, buffer, frame.body);
    if closes(|handled|) {
      NextIsStable(valid);
      OverAfterClose(Next(valid), closes, data, more, handled + [frame.body], |handled|);
    }
  }

  lemma EndsBad(valid: seq<byte> -> bool, closes: nat -> bool,
      data: seq<byte>, handled: seq<seq<byte>>, buffer: seq<byte>, more: seq<byte>)
    requires Reading(valid, closes, data, handled, buffer) && DecodeFrame(buffer, valid).Err?
    ensures Serves(data + more, valid, closes, handled, BadFrame)
  {
    NextIsStable(valid);
    DecodeIsStable(buffer, more, valid);
    OverAfterError(Next(valid), closes, data, more, handled, buffer);
  }

  lemma EndsAtEof(valid: seq<byte> -> bool, closes: nat -> bool,
      data: seq<byte>, handled: seq<seq<byte>>, buffer: seq<byte>)
    requires Reading(valid, closes, data, handled, buffer) && DecodeFrame(buffer, valid) == Ok(None)
    ensures Serves(data, valid, closes, handled, Eof)
  {
    NothingToTake(Next(valid), closes, data, handled, buffer);
  }

  lemma StartsFresh(valid: seq<byte> -> bool, closes: nat -> bool)
    ensures Reading(valid, closes, [], [], [])
  {
    NextAdvances(valid);
  }

  /** A buffer that needs more data is within its limit. */
  lemma BufferStaysSmall(buffer: seq<byte>, valid: seq<byte> -> bool)
    requires DecodeFrame(buffer, valid) == Ok(None)
    ensures |buffer| < MAX_REQUEST_BUFFER_BYTES
  {
  }

  lemma Arrives(arrivals: seq<Read>, data: seq<byte>, rest: seq<Read>)
    requires Received(arrivals) == data + Received(rest) && rest != [] && rest[0].Bytes? && rest[0].data != []
    ensures Received(arrivals) == data + rest[0].data + Received(rest[1..])
  {
  }

  /** Handles every frame that is whole.  `more` is what the connection will still bring. */
  method HandleBuffered(start: seq<byte>, already: seq<seq<byte>>, valid: seq<byte> -> bool, closes: nat -> bool,
      ghost data: seq<byte>, ghost more: seq<byte>)
    returns (handled: seq<seq<byte>>, buffer: seq<byte>, ending: Option<Ending>)
    requires Reading(valid, closes, data, already, start)
    ensures ending.None? ==> Reading(valid, closes, data, handled, buffer) && DecodeFrame(buffer, valid) == Ok(None)
    ensures ending.Some? ==> ending.value != Overflow && Serves(data + more, valid, closes, handled, ending.value)
  {
    handled, buffer := already, start;
    while true
      invariant Reading(valid, closes, data, handled, buffer)
      decreases |buffer|
    {
      var decoded := DecodeFrame(buffer, valid);
      if decoded.Err? {
        EndsBad(valid, closes, data, handled, buffer, more);
        return handled, buffer, Some(BadFrame);
      }
      if decoded.value.None? {
        return handled, buffer, None;
      }
      var frame := decoded.value.value;
      ReadsFrame(valid, closes, data, handled, buffer, frame, more);
      var number := |handled|;
      buffer := buffer[frame.consumed..];
      handled := handled + [frame.body];
      if closes(number) {
        return handled, buffer, Some(Closed);
      }
    }
  }

  /** The frames handled, and why the loop ends, depend on the bytes of the connection and not on
      how the reads cut them; `closes(k)` says that the connection is closed once frame k has been
      handled.  The overflow disconnect is unreachable. */
  method ReadLoop(arrivals: seq<Read>, valid: seq<byte> -> bool, closes: nat -> bool)
    returns (handled: seq<seq<byte>>, ending: Ending)
    ensures Serves(Received(arrivals), valid, closes, handled, ending)
    ensures ending != Overflow
  {
    handled := [];
    var buffer: seq<byte> := [];
    var rest := arrivals;
    ghost var data: seq<byte> := [];
    StartsFresh(valid, closes);
    while rest != []
      invariant Received(arrivals) == data + Received(rest)
      invariant Reading(valid, closes, data, handled, buffer) && DecodeFrame(buffer, valid) == Ok(None)
      decreases |rest|
    {
      var read := rest[0];
      if read == Failed || (read.Bytes? && read.data == []) {
        break;
      }
      if read == Interrupted {
        rest := rest[1..];
        continue;
      }
      Arrives(arrivals, data, rest);
      ReadsMore(valid, closes, data, handled, buffer, read.data);
      rest := rest[1..];
      data := data + read.data;
      var end;
      handled, buffer, end := HandleBuffered(buffer + read.data, handled, valid, closes, data, Received(rest));
      if end.Some? {
        return handled, end.value;
      }
      BufferStaysSmall(buffer, valid);
      if |buffer| > MAX_REQUEST_BUFFER_BYTES {
        return handled, Overflow;
      }
    }
    assert data + [] == data;
    EndsAtEof(valid, closes, data, handled, buffer);
    return handled, Eof;
  }
}
