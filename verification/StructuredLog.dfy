/** The replay log of a structured run, and its pages. */
module StructuredLog {
  // One log for each output stream; a client replays both in pages that share one budget.

  import opened Options
  import opened Scanner
  import opened Utf8
  import opened Windows
  import opened Bounds

  const RUN_LOG_MAX_BYTES := 8 * 1024 * 1024
  const REPLAY_PAGE_MAX_BYTES := 512 * 1024
  const REPLAY_PAGE_MIN_BYTES := 16384
  const PIPE_READ_BYTES := 8192

  function Bytes(c: Chunk): nat {
    |Encode(c.data)|
  }

  // ---- The log as a value ----------------------------------------------------------------------------

  datatype LogState = LogState(chunks: seq<Chunk>, number: nat, truncated: bool)

  const EMPTY := LogState([], 0, false)

  /** Numbered one after the other, up to `number`. */
  ghost predicate Consecutive(cs: seq<Chunk>, number: nat) {
    |cs| <= number && forall i | 0 <= i < |cs| :: cs[i].number == number - |cs| + 1 + i
  }

  /** The chunks are consecutive up to the last number given; they fit the limit, and something is
      missing in front exactly when the log says so. */
  ghost predicate LogOk(l: LogState) {
    && Consecutive(l.chunks, l.number)
    && Total(l.chunks, Bytes) <= RUN_LOG_MAX_BYTES
    && (l.truncated <==> |l.chunks| < l.number)
  }

  function Appended(l: LogState, data: Text): LogState {
    var all := l.chunks + [Chunk(l.number + 1, data)];
    var kept := Fit(all, Bytes, RUN_LOG_MAX_BYTES);
    LogState(kept, l.number + 1, l.truncated || |kept| < |all|)
  }

  lemma ConsecutiveSuffix(cs: seq<Chunk>, number: nat, k: nat)
    requires Consecutive(cs, number) && k <= |cs|
    ensures Consecutive(cs[k..], number)
  {
  }

  lemma ConsecutiveMore(cs: seq<Chunk>, number: nat, data: Text)
    requires Consecutive(cs, number)
    ensures Consecutive(cs + [Chunk(number + 1, data)], number + 1)
  {
  }

  lemma AppendedIsOk(l: LogState, data: Text)
    requires LogOk(l)
    ensures LogOk(Appended(l, data))
  {
    var all := l.chunks + [Chunk(l.number + 1, data)];
    ConsecutiveMore(l.chunks, l.number, data);
    FitIsConsecutive(all, l.number + 1);
  }

  lemma FitIsConsecutive(all: seq<Chunk>, number: nat)
    requires Consecutive(all, number)
    ensures var kept := Fit(all, Bytes, RUN_LOG_MAX_BYTES);
            Consecutive(kept, number) && Total(kept, Bytes) <= RUN_LOG_MAX_BYTES
  {
    FitIsLongest(all, Bytes, RUN_LOG_MAX_BYTES);
    ConsecutiveSuffix(all, number, |all| - |Fit(all, Bytes, RUN_LOG_MAX_BYTES)|);
  }

  function AppendedAll(l: LogState, texts: seq<Text>): LogState
    decreases |texts|
  {
    if texts == [] then l else AppendedAll(Appended(l, texts[0]), texts[1..])
  }

  lemma {:induction false} AppendedAllKeeps(l: LogState, texts: seq<Text>)
    requires LogOk(l)
    ensures var r := AppendedAll(l, texts);
            && LogOk(r) && r.number == l.number + |texts|
            && r.chunks == FitEach(l.chunks, Numbered(l.number, texts), Bytes, RUN_LOG_MAX_BYTES)
    decreases |texts|
  {
    if texts != [] {
      AppendedIsOk(l, texts[0]);
      AppendedAllKeeps(Appended(l, texts[0]), texts[1..]);
      assert Numbered(l.number, texts)[1..] == Numbered(l.number + 1, texts[1..]);
    }
  }

  /** However many chunks come, the log holds the longest run of the newest that fits 8 MiB, and says
      it is truncated exactly when they do not all fit. */
  lemma LogIsFit(texts: seq<Text>)
    ensures var l := AppendedAll(EMPTY, texts); var all := Numbered(0, texts);
            && LogOk(l) && l.number == |texts| && l.chunks == Fit(all, Bytes, 8 * 1024 * 1024)
            && (l.truncated <==> Total(all, Bytes) > 8 * 1024 * 1024)
  {
    var all := Numbered(0, texts);
    AppendedAllKeeps(EMPTY, texts);
    FitEachIsFit([], all, Bytes, RUN_LOG_MAX_BYTES);
    assert [] + all == all;
    FitIsLongest(all, Bytes, RUN_LOG_MAX_BYTES);
    assert all[0..] == all;
  }

  // ---- One page ------------------------------------------------------------------------------------------

  datatype ReplayStream = ReplayStream(chunks: seq<Chunk>, next: nat, complete: bool, resetRequired: bool)

  /** The number of the oldest chunk kept, or the next to come. */
  function First(l: LogState): (n: nat)
    requires l.chunks != [] ==> l.chunks[0].number > 0
    ensures n > 0
  {
    if l.chunks == [] then l.number + 1 else l.chunks[0].number
  }

  function ResetRequired(l: LogState, after: nat): bool
    requires l.chunks != [] ==> l.chunks[0].number > 0
  {
    after > l.number || after < First(l) - 1
  }

  function Cursor(l: LogState, after: nat): nat
    requires l.chunks != [] ==> l.chunks[0].number > 0
  {
    if ResetRequired(l, after) then First(l) - 1 else after
  }

  /** As many chunks as fit, in order, stopping at the first that does not. */
  function Taken(cs: seq<Chunk>, remaining: nat): (r: seq<Chunk>)
    ensures r <= cs
  {
    if cs == [] || Bytes(cs[0]) > remaining then []
    else [cs[0]] + Taken(cs[1..], remaining - Bytes(cs[0]))
  }

  /** From a cursor on: the chunks taken, the cursor after them, and the room left. */
  datatype Paging = Paging(taken: seq<Chunk>, next: nat, left: nat)

  function PagingFrom(cs: seq<Chunk>, cursor: nat, next: nat, remaining: nat): Paging {
    if cs == [] then Paging([], next, remaining)
    else if cs[0].number <= cursor then PagingFrom(cs[1..], cursor, next, remaining)
    else if Bytes(cs[0]) > remaining then Paging([], next, remaining)
    else
      var rest := PagingFrom(cs[1..], cursor, cs[0].number, remaining - Bytes(cs[0]));
      rest.(taken := [cs[0]] + rest.taken)
  }

  lemma PagingTakes(cs: seq<Chunk>, cursor: nat, next: nat, left: nat, taken: seq<Chunk>)
    requires cs != [] && cs[0].number > cursor && Bytes(cs[0]) <= left
    ensures var p := PagingFrom(cs, cursor, next, left);
            var q := PagingFrom(cs[1..], cursor, cs[0].number, left - Bytes(cs[0]));
            taken + p.taken == taken + [cs[0]] + q.taken && p.next == q.next && p.left == q.left
  {
  }

  class Log {
    var chunks: seq<Chunk>
    var size: nat
    var number: nat
    var truncated: bool

    ghost predicate Valid()
      reads this
    {
      size == Total(chunks, Bytes) && LogOk(Now())
    }

    ghost function Now(): LogState
      reads this
    {
      LogState(chunks, number, truncated)
    }

    constructor ()
      ensures Valid() && Now() == EMPTY
    {
      chunks, size, number, truncated := [], 0, 0, false;
    }

    /** Drops the oldest chunks until the rest fits. */
    method Evict()
      requires size == Total(chunks, Bytes)
      modifies `chunks, `size, `truncated
      ensures size == Total(chunks, Bytes) && chunks == Fit(old(chunks), Bytes, RUN_LOG_MAX_BYTES)
      ensures truncated <==> old(truncated) || |chunks| < |old(chunks)|
    {
      while size > RUN_LOG_MAX_BYTES
        invariant size == Total(chunks, Bytes) && |chunks| <= |old(chunks)|
        invariant Fit(chunks, Bytes, RUN_LOG_MAX_BYTES) == Fit(old(chunks), Bytes, RUN_LOG_MAX_BYTES)
        invariant truncated <==> old(truncated) || |chunks| < |old(chunks)|
        decreases |chunks|
      {
        if chunks == [] {
          break;
        }
        size := size - |Encode(chunks[0].data)|;
        chunks := chunks[1..];
        truncated := true;
      }
    }

    method Append(data: Text) returns (n: nat)
      requires Valid()
      modifies this
      ensures Valid() && Now() == Appended(old(Now()), data) && n == number
    {
      ghost var before := Now();
      AppendedIsOk(before, data);
      number := number + 1;
      var newest := Chunk(number, data);
      TotalAppend(chunks, [newest], Bytes);
      size := size + |Encode(data)|;
      chunks := chunks + [newest];
      Evict();
      assert Now() == Appended(before, data);
      n := number;
    }

    method Page(after: nat, remaining: nat) returns (page: ReplayStream, left: nat)
      requires Valid()
      ensures var c := Cursor(Now(), after); var p := PagingFrom(chunks, c, c, remaining);
              page == ReplayStream(p.taken, p.next, p.next == number, ResetRequired(Now(), after)) && left == p.left
    {
      var first := if chunks == [] then number + 1 else chunks[0].number;
      var reset := after > number || after < first - 1;
      var cursor: nat := if reset then first - 1 else after;
      var taken: seq<Chunk> := [];
      var next: nat := cursor;
      left := remaining;
      var rest := chunks;
      ghost var all := PagingFrom(chunks, cursor, cursor, remaining);
      while rest != []
        invariant var p := PagingFrom(rest, cursor, next, left);
                  all == Paging(taken + p.taken, p.next, p.left)
        decreases |rest|
      {
        var chunk := rest[0];
        if chunk.number <= cursor {
          rest := rest[1..];
          continue;
        }
        if |Encode(chunk.data)| > left {
          assert all == Paging(taken + [], next, left);
          break;
        }
        PagingTakes(rest, cursor, next, left, taken);
        rest := rest[1..];
        left := left - |Encode(chunk.data)|;
        next := chunk.number;
        taken := taken + [chunk];
      }
      assert taken + [] == taken;
      page := ReplayStream(taken, next, next == number, reset);
    }
  }

  // ---- What a page brings ----------------------------------------------------------------------------------

  /** A page is the longest run of the chunks above the cursor that its room allows. */
  lemma {:induction false} PagingMeans(cs: seq<Chunk>, cursor: nat, next: nat, remaining: nat)
    ensures var p := PagingFrom(cs, cursor, next, remaining); var newer := Newer(cs, cursor);
            p.taken == Taken(newer, remaining) && Total(p.taken, Bytes) + p.left == remaining
    decreases |cs|
  {
    if cs != [] {
      if cs[0].number <= cursor {
        PagingMeans(cs[1..], cursor, next, remaining);
      } else {
        var newer := Newer(cs, cursor);
        assert newer[0] == cs[0] && newer[1..] == Newer(cs[1..], cursor);
        if Bytes(cs[0]) <= remaining {
          PagingMeans(cs[1..], cursor, cs[0].number, remaining - Bytes(cs[0]));
          var rest := PagingFrom(cs[1..], cursor, cs[0].number, remaining - Bytes(cs[0]));
          assert ([cs[0]] + rest.taken)[1..] == rest.taken;
        }
      }
    }
  }

  /** What is above a cursor within the log is its end. */
  lemma {:induction false} NewerIsSuffix(cs: seq<Chunk>, number: nat, cursor: nat)
    requires Consecutive(cs, number) && number - |cs| <= cursor <= number
    ensures Newer(cs, cursor) == cs[|cs| - (number - cursor)..]
    decreases |cs|
  {
    if cs != [] {
      ConsecutiveSuffix(cs, number, 1);
      if cursor > number - |cs| {
        NewerIsSuffix(cs[1..], number, cursor);
        assert cs[1..][|cs| - 1 - (number - cursor)..] == cs[|cs| - (number - cursor)..];
      } else {
        NewerOfAll(cs, cursor);
      }
    }
  }

  lemma {:induction false} NewerOfAll(cs: seq<Chunk>, cursor: nat)
    requires forall c | c in cs :: c.number > cursor
    ensures Newer(cs, cursor) == cs
  {
    if cs != [] {
      NewerOfAll(cs[1..], cursor);
    }
  }

  lemma {:induction false} PagingNext(cs: seq<Chunk>, cursor: nat, next: nat, number: nat, remaining: nat)
    requires Consecutive(cs, number) && number - |cs| <= next && next >= cursor
    requires next == (if cursor > number - |cs| then cursor else number - |cs|) && next <= number
    ensures var p := PagingFrom(cs, cursor, next, remaining); p.next == next + |p.taken|
    decreases |cs|
  {
    if cs != [] {
      ConsecutiveSuffix(cs, number, 1);
      if cs[0].number <= cursor {
        PagingNext(cs[1..], cursor, next, number, remaining);
      } else if Bytes(cs[0]) <= remaining {
        PagingNext(cs[1..], cursor, cs[0].number, number, remaining - Bytes(cs[0]));
      }
    }
  }

  function PageOf(l: LogState, after: nat, remaining: nat): ReplayStream
    requires l.chunks != [] ==> l.chunks[0].number > 0
  {
    var c := Cursor(l, after);
    var p := PagingFrom(l.chunks, c, c, remaining);
    ReplayStream(p.taken, p.next, p.next == l.number, ResetRequired(l, after))
  }

  function LeftOf(l: LogState, after: nat, remaining: nat): nat
    requires l.chunks != [] ==> l.chunks[0].number > 0
  {
    PagingFrom(l.chunks, Cursor(l, after), Cursor(l, after), remaining).left
  }

  /** The oldest entry still there is the one after `Dropped`. */
  function Dropped(l: LogState): int {
    l.number - |l.chunks|
  }

  lemma CursorIsWithin(l: LogState, after: nat)
    requires LogOk(l)
    ensures First(l) - 1 == Dropped(l) && Dropped(l) <= Cursor(l, after) <= l.number
    ensures Dropped(l) <= after <= l.number ==> Cursor(l, after) == after
  {
  }

  lemma NewerOfLater(l: LogState, c: nat, m: nat)
    requires LogOk(l) && Dropped(l) <= c && c + m <= l.number
    ensures |Newer(l.chunks, c)| == l.number - c && Newer(l.chunks, c + m) == Newer(l.chunks, c)[m..]
  {
    NewerIsSuffix(l.chunks, l.number, c);
    NewerIsSuffix(l.chunks, l.number, c + m);
    var k := |l.chunks| - (l.number - c);
    assert l.chunks[k..][m..] == l.chunks[k + m..];
  }

  lemma PagingWithin(l: LogState, c: nat, remaining: nat)
    requires LogOk(l) && Dropped(l) <= c <= l.number
    ensures var p := PagingFrom(l.chunks, c, c, remaining); var newer := Newer(l.chunks, c);
            && p.taken == Taken(newer, remaining) && p.next == c + |p.taken| <= l.number
            && p.left == remaining - Total(p.taken, Bytes)
            && Newer(l.chunks, p.next) == newer[|p.taken|..] && |newer| == l.number - c
  {
    var p := PagingFrom(l.chunks, c, c, remaining);
    PagingMeans(l.chunks, c, c, remaining);
    PagingNext(l.chunks, c, c, l.number, remaining);
    NewerOfLater(l, c, 0);
    NewerOfLater(l, c, |p.taken|);
  }

  lemma PagingRest(l: LogState, c: nat, remaining: nat)
    requires LogOk(l) && Dropped(l) <= c <= l.number
    ensures var p := PagingFrom(l.chunks, c, c, remaining); var later := Newer(l.chunks, p.next);
            && Newer(l.chunks, c) == p.taken + later
            && (p.next == l.number <==> later == [])
            && (later != [] ==> Bytes(later[0]) > p.left)
  {
    var newer := Newer(l.chunks, c);
    PagingWithin(l, c, remaining);
    TakenStops(newer, remaining);
    var n := |Taken(newer, remaining)|;
    assert newer == newer[..n] + newer[n..];
  }

  /** A reset is asked for exactly when the client is not somewhere within the log.  The chunks are
      consecutive from the cursor on and end at `next`; the page is complete exactly when they are all
      there are; and it stops short only of a chunk for which there is no room. */
  lemma PageMeaning(l: LogState, after: nat, remaining: nat)
    requires LogOk(l)
    ensures var p := PageOf(l, after, remaining); var c := Cursor(l, after); var later := Newer(l.chunks, p.next);
            && (p.resetRequired <==> !(Dropped(l) <= after <= l.number))
            && Newer(l.chunks, c) == p.chunks + later
            && p.next == c + |p.chunks| <= l.number
            && (p.complete <==> later == [])
            && Total(p.chunks, Bytes) + LeftOf(l, after, remaining) == remaining
            && (later != [] ==> Bytes(later[0]) > LeftOf(l, after, remaining))
  {
    CursorIsWithin(l, after);
    PagingWithin(l, Cursor(l, after), remaining);
    PagingMeans(l.chunks, Cursor(l, after), Cursor(l, after), remaining);
    PagingRest(l, Cursor(l, after), remaining);
  }

  lemma {:induction false} TakenStops(cs: seq<Chunk>, remaining: nat)
    ensures var t := Taken(cs, remaining);
            && Total(t, Bytes) <= remaining
            && (|t| < |cs| ==> Bytes(cs[|t|]) > remaining - Total(t, Bytes))
  {
    if cs != [] && Bytes(cs[0]) <= remaining {
      TakenStops(cs[1..], remaining - Bytes(cs[0]));
      var rest := Taken(cs[1..], remaining - Bytes(cs[0]));
      assert ([cs[0]] + rest)[1..] == rest;
    }
  }

  /** On its own a page can bring nothing although it is not complete: exactly when the next chunk is
      larger than its room. */
  lemma PageStalls(l: LogState, after: nat, remaining: nat)
    requires LogOk(l)
    ensures var p := PageOf(l, after, remaining); var newer := Newer(l.chunks, Cursor(l, after));
            p.chunks == [] && !p.complete <==> newer != [] && Bytes(newer[0]) > remaining
  {
    CursorIsWithin(l, after);
    PagingWithin(l, Cursor(l, after), remaining);
  }

  // ---- Attaching to both streams ---------------------------------------------------------------------------

  /** The room for a response: what the client asks for, within limits. */
  function Room(maxBytes: Option<nat>): nat {
    var asked := if maxBytes.None? then REPLAY_PAGE_MAX_BYTES else maxBytes.value;
    if asked < REPLAY_PAGE_MIN_BYTES then REPLAY_PAGE_MIN_BYTES
    else if asked > REPLAY_PAGE_MAX_BYTES then REPLAY_PAGE_MAX_BYTES
    else asked
  }

  datatype Attached = Attached(stdout: ReplayStream, stderr: ReplayStream)

  /** The second stream gets the room that the first has left. */
  function AttachTo(out: LogState, err: LogState, afterOut: nat, afterErr: nat, maxBytes: Option<nat>): Attached
    requires out.chunks != [] ==> out.chunks[0].number > 0
    requires err.chunks != [] ==> err.chunks[0].number > 0
  {
    Attached(PageOf(out, afterOut, Room(maxBytes)), PageOf(err, afterErr, LeftOf(out, afterOut, Room(maxBytes))))
  }

  class RunInner {
    const stdout: Log
    const stderr: Log

    constructor ()
      ensures fresh(stdout) && fresh(stderr) && stdout != stderr
      ensures stdout.Valid() && stderr.Valid() && stdout.Now() == EMPTY && stderr.Now() == EMPTY
    {
      stdout := new Log();
      stderr := new Log();
    }

    method Attach(afterOut: nat, afterErr: nat, maxBytes: Option<nat>) returns (r: Attached)
      requires stdout.Valid() && stderr.Valid()
      ensures r == AttachTo(stdout.Now(), stderr.Now(), afterOut, afterErr, maxBytes)
    {
      var remaining := if maxBytes.None? then REPLAY_PAGE_MAX_BYTES else maxBytes.value;
      if remaining < REPLAY_PAGE_MIN_BYTES {
        remaining := REPLAY_PAGE_MIN_BYTES;
      } else if remaining > REPLAY_PAGE_MAX_BYTES {
        remaining := REPLAY_PAGE_MAX_BYTES;
      }
      var out, left := stdout.Page(afterOut, remaining);
      var err, _ := stderr.Page(afterErr, left);
      r := Attached(out, err);
    }
  }

  /** The chunks of a response never exceed 512 KiB, whatever the client asks for. */
  lemma ResponseIsBounded(out: LogState, err: LogState, afterOut: nat, afterErr: nat, maxBytes: Option<nat>)
    requires LogOk(out) && LogOk(err)
    ensures var r := AttachTo(out, err, afterOut, afterErr, maxBytes);
            Total(r.stdout.chunks, Bytes) + Total(r.stderr.chunks, Bytes) <= 512 * 1024
  {
    PageMeaning(out, afterOut, Room(maxBytes));
    PageMeaning(err, afterErr, LeftOf(out, afterOut, Room(maxBytes)));
  }

  function Smaller(a: nat, b: nat): nat {
    if a < b then a else b
  }

  function Larger(a: nat, b: nat): nat {
    if a < b then b else a
  }

  /** The next chunk of a stream is larger than `left`. */
  predicate StoppedBy(l: LogState, page: ReplayStream, left: int) {
    var later := Newer(l.chunks, page.next);
    later != [] && Bytes(later[0]) > left
  }

  /** A response has no more than `limit` bytes of chunks, and a page is incomplete only for a chunk that does
      not fit what is left of that. */
  predicate FillsUpTo(limit: nat, out: LogState, err: LogState, r: Attached) {
    var first, second := Total(r.stdout.chunks, Bytes), Total(r.stderr.chunks, Bytes);
    && first + second <= limit
    && (!r.stdout.complete ==> StoppedBy(out, r.stdout, limit - first))
    && (!r.stderr.complete ==> StoppedBy(err, r.stderr, limit - first - second))
  }

  /** A response keeps to the size the client asks for, raised to 16 KiB and never more than 512 KiB, and makes the
      most of it. */
  lemma ResponseFillsRoom(out: LogState, err: LogState, afterOut: nat, afterErr: nat, maxBytes: Option<nat>)
    requires LogOk(out) && LogOk(err)
    ensures var limit := if maxBytes.None? then 512 * 1024 else Smaller(512 * 1024, Larger(16384, maxBytes.value));
            FillsUpTo(limit, out, err, AttachTo(out, err, afterOut, afterErr, maxBytes))
  {
    PageMeaning(out, afterOut, Room(maxBytes));
    PageMeaning(err, afterErr, LeftOf(out, afterOut, Room(maxBytes)));
  }

  // ---- Replaying an exited run -----------------------------------------------------------------------------

  /** A pipe is read 8 KiB at a time, and a decoded chunk is at most three bytes longer. */
  ghost predicate FromPipe(l: LogState) {
    LogOk(l) && forall c | c in l.chunks :: Bytes(c) <= PIPE_READ_BYTES + 3
  }

  lemma DecodedFitsPipe(pending: seq<byte>, bytes: seq<byte>)
    requires |pending| <= 3 && |bytes| <= PIPE_READ_BYTES
    ensures Bytes(Chunk(0, Decode(pending + bytes).out)) <= PIPE_READ_BYTES + 3
  {
    PushSize(pending, bytes);
  }

  lemma {:induction false} NewerIsWithin(cs: seq<Chunk>, after: nat)
    ensures forall c | c in Newer(cs, after) :: c in cs
  {
    if cs != [] {
      NewerIsWithin(cs[1..], after);
    }
  }

  /** Unless both pages are complete, one of them brings something. */
  lemma AttachProgresses(out: LogState, err: LogState, afterOut: nat, afterErr: nat, maxBytes: Option<nat>)
    requires FromPipe(out) && FromPipe(err)
    ensures var r := AttachTo(out, err, afterOut, afterErr, maxBytes);
            (r.stdout.complete && r.stderr.complete) || |r.stdout.chunks| + |r.stderr.chunks| > 0
  {
    var r := AttachTo(out, err, afterOut, afterErr, maxBytes);
    PageMeaning(out, afterOut, Room(maxBytes));
    PageMeaning(err, afterErr, LeftOf(out, afterOut, Room(maxBytes)));
    NewerIsWithin(out.chunks, r.stdout.next);
    NewerIsWithin(err.chunks, r.stderr.next);
  }

  datatype Replayed = Replayed(stdout: seq<Chunk>, stderr: seq<Chunk>)

  /** What a client has read when it attaches with the cursors returned to it until both streams are
      complete.  `asks` are the sizes it asks for; the run has exited, so its logs stay as they are. */
  ghost function Replay(out: LogState, err: LogState, afterOut: nat, afterErr: nat, asks: nat -> Option<nat>,
      turn: nat): Replayed
    requires FromPipe(out) && FromPipe(err)
    decreases out.number - Cursor(out, afterOut) + (err.number - Cursor(err, afterErr))
  {
    var r := AttachTo(out, err, afterOut, afterErr, asks(turn));
    if r.stdout.complete && r.stderr.complete then Replayed(r.stdout.chunks, r.stderr.chunks)
    else
      AttachAdvances(out, err, afterOut, afterErr, asks(turn));
      var rest := Replay(out, err, r.stdout.next, r.stderr.next, asks, turn + 1);
      Replayed(r.stdout.chunks + rest.stdout, r.stderr.chunks + rest.stderr)
  }

  /** Each turn leaves strictly less to read. */
  lemma AttachAdvances(out: LogState, err: LogState, afterOut: nat, afterErr: nat, maxBytes: Option<nat>)
    requires FromPipe(out) && FromPipe(err)
    ensures var r := AttachTo(out, err, afterOut, afterErr, maxBytes);
            && Cursor(out, r.stdout.next) == r.stdout.next == Cursor(out, afterOut) + |r.stdout.chunks| <= out.number
            && Cursor(err, r.stderr.next) == r.stderr.next == Cursor(err, afterErr) + |r.stderr.chunks| <= err.number
            && (!(r.stdout.complete && r.stderr.complete) ==>
                  out.number - r.stdout.next + (err.number - r.stderr.next)
                  < out.number - Cursor(out, afterOut) + (err.number - Cursor(err, afterErr)))
  {
    var r := AttachTo(out, err, afterOut, afterErr, maxBytes);
    AttachProgresses(out, err, afterOut, afterErr, maxBytes);
    PageMeaning(out, afterOut, Room(maxBytes));
    PageMeaning(err, afterErr, LeftOf(out, afterOut, Room(maxBytes)));
    CursorIsWithin(out, afterOut);
    CursorIsWithin(err, afterErr);
    CursorIsWithin(out, r.stdout.next);
    CursorIsWithin(err, r.stderr.next);
  }

  /** The client ends with every chunk that is still there above its cursors, once and in order,
      whatever sizes it asks for. */
  lemma {:induction false} ReplayIsComplete(out: LogState, err: LogState, afterOut: nat, afterErr: nat,
      asks: nat -> Option<nat>, turn: nat)
    requires FromPipe(out) && FromPipe(err)
    ensures Replay(out, err, afterOut, afterErr, asks, turn)
         == Replayed(Newer(out.chunks, Cursor(out, afterOut)), Newer(err.chunks, Cursor(err, afterErr)))
    decreases out.number - Cursor(out, afterOut) + (err.number - Cursor(err, afterErr))
  {
    var r := AttachTo(out, err, afterOut, afterErr, asks(turn));
    PageMeaning(out, afterOut, Room(asks(turn)));
    PageMeaning(err, afterErr, LeftOf(out, afterOut, Room(asks(turn))));
    if !(r.stdout.complete && r.stderr.complete) {
      AttachAdvances(out, err, afterOut, afterErr, asks(turn));
      ReplayIsComplete(out, err, r.stdout.next, r.stderr.next, asks, turn + 1);
    }
  }

  lemma {:induction false} NumberedData(number: nat, texts: seq<Text>, c: Chunk)
    requires c in Numbered(number, texts)
    ensures c.data in texts
    decreases |texts|
  {
    if c != Numbered(number, texts)[0] {
      NumberedData(number + 1, texts[1..], c);
    }
  }

  lemma LogIsFromPipe(texts: seq<Text>)
    requires forall t | t in texts :: |Encode(t)| <= PIPE_READ_BYTES + 3
    ensures FromPipe(AppendedAll(EMPTY, texts))
  {
    LogIsFit(texts);
    var all := Numbered(0, texts);
    FitIsLongest(all, Bytes, RUN_LOG_MAX_BYTES);
    forall c | c in AppendedAll(EMPTY, texts).chunks ensures Bytes(c) <= PIPE_READ_BYTES + 3 {
      assert c in all;
      NumberedData(0, texts, c);
    }
  }

  /** A client that starts from nothing rebuilds both logs: the newest chunks that fit 8 MiB. */
  lemma ReplayRebuilds(outTexts: seq<Text>, errTexts: seq<Text>, asks: nat -> Option<nat>)
    requires forall t | t in outTexts + errTexts :: |Encode(t)| <= PIPE_READ_BYTES + 3
    ensures var out, err := AppendedAll(EMPTY, outTexts), AppendedAll(EMPTY, errTexts);
            && FromPipe(out) && FromPipe(err)
            && Replay(out, err, 0, 0, asks, 0)
            == Replayed(Fit(Numbered(0, outTexts), Bytes, RUN_LOG_MAX_BYTES),
                        Fit(Numbered(0, errTexts), Bytes, RUN_LOG_MAX_BYTES))
  {
    var out, err := AppendedAll(EMPTY, outTexts), AppendedAll(EMPTY, errTexts);
    LogIsFromPipe(outTexts);
    LogIsFromPipe(errTexts);
    LogIsFit(outTexts);
    LogIsFit(errTexts);
    ReplayIsComplete(out, err, 0, 0, asks, 0);
    FromTheStart(out);
    FromTheStart(err);
  }

  lemma FromTheStart(l: LogState)
    requires LogOk(l)
    ensures Newer(l.chunks, Cursor(l, 0)) == l.chunks
  {
    CursorIsWithin(l, 0);
    NewerIsSuffix(l.chunks, l.number, Cursor(l, 0));
  }

  // ---- A page that brings nothing although there is more -------------------------------------------------

  /** A log that fits is all on its first page. */
  lemma WholeLogFits(l: LogState, remaining: nat)
    requires LogOk(l) && Total(l.chunks, Bytes) <= remaining
    ensures PageOf(l, 0, remaining).chunks == l.chunks && PageOf(l, 0, remaining).complete
    ensures LeftOf(l, 0, remaining) == remaining - Total(l.chunks, Bytes)
  {
    PageMeaning(l, 0, remaining);
    FromTheStart(l);
    var p := PageOf(l, 0, remaining);
    var later := Newer(l.chunks, p.next);
    TotalAppend(p.chunks, later, Bytes);
    assert p.chunks + [] == p.chunks;
  }

  /** A read that fills the buffer of the pipe. */
  function FullRead(): (t: Text)
    ensures |Encode(t)| == PIPE_READ_BYTES
  {
    var t: Text := seq(PIPE_READ_BYTES, _ => 0x61);
    AsciiLength(t);
    t
  }

  lemma TwoFullReads()
    ensures var out := AppendedAll(EMPTY, [FullRead(), FullRead()]);
            LogOk(out) && |out.chunks| == 2 && Total(out.chunks, Bytes) == REPLAY_PAGE_MIN_BYTES
  {
    var texts := [FullRead(), FullRead()];
    var all := Numbered(0, texts);
    assert texts[1..] == [FullRead()];
    assert [FullRead()][1..] == [];
    assert all == [Chunk(1, FullRead()), Chunk(2, FullRead())];
    assert all[1..] == [Chunk(2, FullRead())];
    assert [Chunk(2, FullRead())][1..] == [];
    LogIsFit(texts);
  }

  function FullLog(): LogState {
    AppendedAll(EMPTY, [FullRead(), FullRead()])
  }

  /** A stream that is not complete brings something as soon as the other is. */
  lemma NextAttachBrings(out: LogState, err: LogState, afterOut: nat, afterErr: nat, maxBytes: Option<nat>)
    requires FromPipe(out) && FromPipe(err)
    requires var r := AttachTo(out, err, afterOut, afterErr, maxBytes); r.stdout.complete && !r.stderr.complete
    ensures var r := AttachTo(out, err, afterOut, afterErr, maxBytes);
            AttachTo(out, err, r.stdout.next, r.stderr.next, maxBytes).stderr.chunks != []
  {
    var r := AttachTo(out, err, afterOut, afterErr, maxBytes);
    var s := AttachTo(out, err, r.stdout.next, r.stderr.next, maxBytes);
    AttachAdvances(out, err, afterOut, afterErr, maxBytes);
    AttachAdvances(out, err, r.stdout.next, r.stderr.next, maxBytes);
    AttachProgresses(out, err, r.stdout.next, r.stderr.next, maxBytes);
  }

  lemma FullLogTakesAll()
    ensures var l, n := FullLog(), REPLAY_PAGE_MIN_BYTES;
            && FromPipe(l) && PageOf(l, 0, n).chunks == l.chunks && PageOf(l, 0, n).complete && LeftOf(l, 0, n) == 0
  {
    TwoFullReads();
    LogIsFromPipe([FullRead(), FullRead()]);
    WholeLogFits(FullLog(), REPLAY_PAGE_MIN_BYTES);
  }

  lemma NoRoomNoPage(l: LogState)
    requires LogOk(l) && l.chunks != [] && l.chunks[0].data != []
    ensures PageOf(l, 0, 0).chunks == [] && !PageOf(l, 0, 0).complete
  {
    FromTheStart(l);
    AsciiLength(l.chunks[0].data);
    PageStalls(l, 0, 0);
  }

  /** Two full reads of stdout take all the room of the smallest response: whatever stderr has retained,
      its page is empty and not complete, and only the next attach brings some of it. */
  lemma StdoutTakesAllRoom(err: LogState)
    requires FromPipe(err) && err.chunks != [] && err.chunks[0].data != []
    ensures LogOk(FullLog())
    ensures var r := AttachTo(FullLog(), err, 0, 0, Some(REPLAY_PAGE_MIN_BYTES));
            && r.stdout.chunks == FullLog().chunks && r.stdout.complete
            && r.stderr.chunks == [] && !r.stderr.complete
            && AttachTo(FullLog(), err, r.stdout.next, r.stderr.next, Some(REPLAY_PAGE_MIN_BYTES)).stderr.chunks != []
  {
    FullLogTakesAll();
    NoRoomNoPage(err);
    NextAttachBrings(FullLog(), err, 0, 0, Some(REPLAY_PAGE_MIN_BYTES));
  }
}
