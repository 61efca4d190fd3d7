/** The thread that reads a PTY: reads are gathered into batches, decoded, and appended. */
module Reader {
  import opened Scanner
  import opened Utf8

  const READ_BUFFER_BYTES := 64 * 1024

  datatype ReadOutcome = Got(bytes: seq<byte>) | End | Interrupted | Retryable | Broken

  /** `Quiet` also stands for a batch whose time is up. */
  datatype PollOutcome = Ready | Quiet | PollInterrupted | PollFailed

  function BytesIn(script: seq<ReadOutcome>): seq<byte> {
    if script == [] then []
    else (if script[0].Got? then script[0].bytes else []) + BytesIn(script[1..])
  }

  function Work(script: seq<ReadOutcome>): nat {
    if script == [] then 0 else 1 + (if script[0].Got? then |script[0].bytes| else 0) + Work(script[1..])
  }

  /** Bytes, and reads that were interrupted. */
  predicate OnlyData(script: seq<ReadOutcome>) {
    forall r | r in script :: r.Interrupted? || (r.Got? && r.bytes != [])
  }

  lemma PartRead(script: seq<ReadOutcome>, n: nat)
    requires script != [] && script[0].Got? && 0 < n < |script[0].bytes|
    ensures var bytes := script[0].bytes; var rest := [Got(bytes[n..])] + script[1..];
            && BytesIn(script) == bytes[..n] + BytesIn(rest) && Work(rest) < Work(script)
            && (OnlyData(script) ==> OnlyData(rest))
  {
    var bytes := script[0].bytes;
    assert ([Got(bytes[n..])] + script[1..])[1..] == script[1..];
    assert bytes == bytes[..n] + bytes[n..];
    Associates(bytes[..n], bytes[n..], BytesIn(script[1..]));
  }

  /** The session has been running every time it was asked. */
  predicate SaidAlive(alive: seq<bool>, left: seq<bool>) {
    var k := |alive| - |left|;
    k >= 0 && left == alive[k..] && forall i | 0 <= i < k :: alive[i]
  }

  /** So it has, but not the last time. */
  predicate SaidDead(alive: seq<bool>, left: seq<bool>) {
    if left == [] && forall i | 0 <= i < |alive| :: alive[i] then true
    else
      var k := |alive| - |left|;
      k > 0 && left == alive[k..] && !alive[k - 1] && forall i | 0 <= i < k - 1 :: alive[i]
  }

  lemma NothingAsked(alive: seq<bool>)
    ensures SaidAlive(alive, alive)
  {
  }

  /** What the operating system and the clock will answer, in order, and what the last read was answered. */
  class World {
    var script: seq<ReadOutcome>
    var polls: seq<PollOutcome>
    var alive: seq<bool>
    var bursts: seq<bool>
    ghost var lastRead: ReadOutcome

    constructor (script: seq<ReadOutcome>, polls: seq<PollOutcome>, alive: seq<bool>, bursts: seq<bool>)
      ensures this.script == script && this.polls == polls && this.alive == alive && this.bursts == bursts
    {
      this.script, this.polls, this.alive, this.bursts := script, polls, alive, bursts;
      lastRead := Interrupted;
    }

    /** Reads at most `space` bytes; what does not fit stays for the next read. */
    method Read(space: nat) returns (r: ReadOutcome)
      requires space > 0
      modifies `script, `lastRead
      ensures lastRead == r
      ensures OnlyData(old(script)) ==> OnlyData(script) && (r.Got? || r.Interrupted? || (r.End? && script == []))
      ensures r.Got? ==> 0 < |r.bytes| <= space && old(BytesIn(script)) == r.bytes + BytesIn(script)
      ensures !r.Got? ==> old(BytesIn(script)) == BytesIn(script)
      ensures Work(script) <= old(Work(script)) && (r != End ==> Work(script) < old(Work(script)))
    {
      if script == [] {
        lastRead := End;
        return End;
      }
      r := script[0];
      if r.Got? && |r.bytes| > space {
        PartRead(script, space);
        script := [Got(r.bytes[space..])] + script[1..];
        r := Got(r.bytes[..space]);
      } else {
        r := if r == Got([]) then End else r;
        script := script[1..];
      }
      lastRead := r;
    }

    method Poll() returns (r: PollOutcome)
      modifies `polls
      ensures if old(polls) == [] then r == Quiet && polls == [] else r == old(polls)[0] && polls == old(polls)[1..]
    {
      if polls == [] {
        return Quiet;
      }
      r := polls[0];
      polls := polls[1..];
    }

    /** Whether the session is running and not retired. */
    method Alive() returns (r: bool)
      modifies `alive
      ensures if old(alive) == [] then !r && alive == [] else r == old(alive)[0] && alive == old(alive)[1..]
      ensures if r then SaidAlive(old(alive), alive) else SaidDead(old(alive), alive)
    {
      if alive == [] {
        return false;
      }
      r := alive[0];
      alive := alive[1..];
    }

    /** Whether the last append was a moment ago. */
    method InBurst() returns (r: bool)
      modifies `bursts
      ensures r <==> old(bursts) != [] && old(bursts)[0]
    {
      if bursts == [] {
        return false;
      }
      r := bursts[0];
      bursts := bursts[1..];
    }
  }

  predicate Ends(r: ReadOutcome) {
    r.End? || r.Retryable? || r.Broken?
  }

  predicate GoesOnAfter(poll: PollOutcome) {
    poll.Ready? || poll.PollInterrupted?
  }

  /** All polls taken said that there may be more. */
  predicate AllGoOn(polls: seq<PollOutcome>, left: seq<PollOutcome>) {
    var k := |polls| - |left|;
    k >= 0 && left == polls[k..] && forall i | 0 <= i < k :: GoesOnAfter(polls[i])
  }

  /** A poll said that there is no more, or there was no poll left, or a read brought no bytes although a poll had
      said that there is more; until then all polls said that there may be. */
  predicate WaitedFor(polls: seq<PollOutcome>, left: seq<PollOutcome>, last: ReadOutcome) {
    if Ends(last) then AllGoOn(polls, left) && |left| < |polls| && polls[|polls| - |left| - 1].Ready?
    else if left == [] && AllGoOn(polls, left) then true
    else
      var k := |polls| - |left| - 1;
      k >= 0 && left == polls[k + 1..] && !GoesOnAfter(polls[k]) && AllGoOn(polls, polls[k..])
  }

  lemma PollTaken(polls: seq<PollOutcome>, left: seq<PollOutcome>)
    requires AllGoOn(polls, left) && left != []
    ensures if GoesOnAfter(left[0]) then AllGoOn(polls, left[1..]) else WaitedFor(polls, left[1..], Interrupted)
    ensures left[0].Ready? ==> forall last | Ends(last) :: WaitedFor(polls, left[1..], last)
  {
    var k := |polls| - |left|;
    assert left[0] == polls[k] && left[1..] == polls[k + 1..];
  }

  /** Gathers reads until the buffer is full or nothing more comes at once, or does not wait at all.  Only the first
      read can fail: a later failure keeps the bytes already read. */
  method ReadBatch(world: World, capacity: nat, coalesce: bool) returns (r: ReadOutcome)
    requires capacity > 0
    modifies world`script, world`polls, world`lastRead
    ensures r.Got? ==> 0 < |r.bytes| <= capacity && old(BytesIn(world.script)) == r.bytes + BytesIn(world.script)
    ensures !r.Got? ==> old(BytesIn(world.script)) == BytesIn(world.script) && world.lastRead == r
    ensures if r.Got? && coalesce then |r.bytes| == capacity || WaitedFor(old(world.polls), world.polls, world.lastRead)
            else world.polls == old(world.polls)
    ensures OnlyData(old(world.script)) ==>
              OnlyData(world.script) && (r.Got? || r.Interrupted? || (r.End? && world.script == []))
    ensures Work(world.script) <= old(Work(world.script)) && (r != End ==> Work(world.script) < old(Work(world.script)))
  {
    r := world.Read(capacity);
    if !r.Got? || !coalesce {
      return;
    }
    var buffer := r.bytes;
    while |buffer| < capacity
      invariant 0 < |buffer| <= capacity && old(BytesIn(world.script)) == buffer + BytesIn(world.script)
      invariant Work(world.script) < old(Work(world.script)) && !Ends(world.lastRead)
      invariant OnlyData(old(world.script)) ==> OnlyData(world.script)
      invariant AllGoOn(old(world.polls), world.polls)
      decreases |world.polls|, capacity - |buffer|
    {
      if world.polls != [] {
        PollTaken(old(world.polls), world.polls);
      }
      var poll := world.Poll();
      match poll {
        case Quiet => break;
        case PollFailed => break;
        case PollInterrupted => continue;
        case Ready =>
      }
      var more := world.Read(capacity - |buffer|);
      match more {
        case Got(bytes) => buffer := buffer + bytes;
        case Interrupted => continue;
        case End => break;
        case Retryable => break;
        case Broken => break;
      }
    }
    r := Got(buffer);
  }

  /** Texts of at least one scalar, and no more than a full buffer with a scalar's leftovers. */
  ghost predicate AppendsOk(appended: seq<Text>) {
    forall i | 0 <= i < |appended| :: 0 < |appended[i]| <= READ_BUFFER_BYTES + 3
  }

  /** The bytes read so far have all been decoded, and every text has been appended. */
  ghost predicate Kept(read: seq<byte>, appended: seq<Text>, pending: seq<byte>) {
    Decode(read) == Scanned(Concat(appended), pending) && AppendsOk(appended)
  }

  lemma KeepsMore(read: seq<byte>, appended: seq<Text>, pending: seq<byte>, bytes: seq<byte>, text: Text,
      left: seq<byte>)
    requires Kept(read, appended, pending) && |bytes| <= READ_BUFFER_BYTES
    requires Decode(pending + bytes) == Scanned(text, left)
    ensures Kept(read + bytes, if text == [] then appended else appended + [text], left)
  {
    DecodeSplit(read, bytes);
    DecodeSize(read);
    PushSize(pending, bytes);
    if text == [] {
      assert Concat(appended) + [] == Concat(appended);
    } else {
      ConcatSnoc(appended, text);
    }
  }

  lemma NothingRead()
    ensures Kept([], [], [])
  {
  }

  /** Decodes a batch; its text, if there is any, is appended. */
  method Feed(decoder: IncrementalUtf8Decoder, appended: seq<Text>, bytes: seq<byte>, ghost read: seq<byte>)
    returns (more: seq<Text>)
    requires Kept(read, appended, decoder.pending) && |bytes| <= READ_BUFFER_BYTES
    modifies decoder
    ensures Kept(read + bytes, more, decoder.pending)
  {
    ghost var pending := decoder.pending;
    var text := decoder.Push(bytes);
    KeepsMore(read, appended, pending, bytes, text, decoder.pending);
    more := if text == [] then appended else appended + [text];
  }

  /** Why the loop ends: the PTY fails, or is at its end or out of order and the session no longer alive. */
  predicate EndsLoop(last: ReadOutcome, alive: seq<bool>, left: seq<bool>) {
    if last.Broken? then SaidAlive(alive, left)
    else (last.End? || last.Retryable?) && SaidDead(alive, left)
  }

  predicate Gathers(already: seq<Text>, bursts: seq<bool>) {
    already != [] && bursts != [] && bursts[0]
  }

  /** A batch; only within a burst of output it waits for more. */
  method ReadNext(world: World, already: seq<Text>) returns (r: ReadOutcome)
    modifies world
    ensures world.alive == old(world.alive)
    ensures r.Got? ==>
              0 < |r.bytes| <= READ_BUFFER_BYTES && old(BytesIn(world.script)) == r.bytes + BytesIn(world.script)
    ensures !r.Got? ==> old(BytesIn(world.script)) == BytesIn(world.script) && world.lastRead == r
    ensures if r.Got? && Gathers(already, old(world.bursts))
            then |r.bytes| == READ_BUFFER_BYTES || WaitedFor(old(world.polls), world.polls, world.lastRead)
            else world.polls == old(world.polls)
    ensures OnlyData(old(world.script)) ==>
              OnlyData(world.script) && (r.Got? || r.Interrupted? || (r.End? && world.script == []))
    ensures Work(world.script) <= old(Work(world.script)) && (r != End ==> Work(world.script) < old(Work(world.script)))
  {
    var coalesce := false;
    if already != [] {
      coalesce := world.InBurst();
    }
    r := ReadBatch(world, READ_BUFFER_BYTES, coalesce);
  }

  /** One turn of the loop: a batch, and whether to go on. */
  method ReadOnce(world: World, decoder: IncrementalUtf8Decoder, already: seq<Text>, ghost read: seq<byte>)
    returns (appended: seq<Text>, ghost more: seq<byte>, goesOn: bool)
    requires Kept(read, already, decoder.pending)
    modifies world, decoder
    ensures old(BytesIn(world.script)) == more + BytesIn(world.script)
    ensures Kept(read + more, appended, decoder.pending)
    ensures OnlyData(old(world.script)) ==> OnlyData(world.script) && (!goesOn ==> world.script == [])
    ensures if goesOn then SaidAlive(old(world.alive), world.alive)
            else EndsLoop(world.lastRead, old(world.alive), world.alive)
    ensures if Gathers(already, old(world.bursts)) && more != []
            then |more| == READ_BUFFER_BYTES || WaitedFor(old(world.polls), world.polls, world.lastRead)
            else world.polls == old(world.polls)
    ensures goesOn ==>
              || Work(world.script) < old(Work(world.script))
              || (Work(world.script) == old(Work(world.script)) && |world.alive| < |old(world.alive)|)
  {
    var outcome := ReadNext(world, already);
    assert read + [] == read;
    NothingAsked(world.alive);
    appended, more, goesOn := already, [], true;
    match outcome {
      case Got(bytes) =>
        more := bytes;
        appended := Feed(decoder, appended, bytes, read);
      case Interrupted =>
      case End => goesOn := world.Alive();
      case Retryable => goesOn := world.Alive();
      case Broken => goesOn := false;
    }
  }

  lemma AliveAgain(alive: seq<bool>, middle: seq<bool>, left: seq<bool>)
    requires SaidAlive(alive, middle) && SaidAlive(middle, left)
    ensures SaidAlive(alive, left)
  {
    DropDrop(alive, |alive| - |middle|, |middle| - |left|);
    assert forall i | |alive| - |middle| <= i < |alive| - |left| :: alive[i] == middle[i - (|alive| - |middle|)];
  }

  lemma DeadAfterAlive(alive: seq<bool>, middle: seq<bool>, left: seq<bool>)
    requires SaidAlive(alive, middle) && SaidDead(middle, left)
    ensures SaidDead(alive, left)
  {
    var k := |alive| - |middle|;
    assert forall i | k <= i < |alive| :: alive[i] == middle[i - k];
    if !(left == [] && forall i | 0 <= i < |middle| :: middle[i]) {
      DropDrop(alive, k, |middle| - |left|);
      assert !alive[|alive| - |left| - 1];
    }
  }

  /** Everything appended is the decoding of the bytes read: how the reads came and how they were gathered makes no
      difference.  The loop goes on until a read fails, or there is nothing to read and the session is no longer
      alive; interruptions never end it, so if nothing else happens all bytes are read. */
  method ReadLoop(world: World) returns (appended: seq<Text>, ghost read: seq<byte>)
    modifies world
    ensures old(BytesIn(world.script)) == read + BytesIn(world.script)
    ensures Concat(appended) == Decode(read).out && AppendsOk(appended)
    ensures EndsLoop(world.lastRead, old(world.alive), world.alive)
    ensures OnlyData(old(world.script)) ==>
              BytesIn(world.script) == [] && Concat(appended) == Decode(old(BytesIn(world.script))).out
  {
    var decoder := new IncrementalUtf8Decoder();
    appended, read := [], [];
    NothingRead();
    var goesOn := true;
    while goesOn
      invariant fresh(decoder)
      invariant old(BytesIn(world.script)) == read + BytesIn(world.script)
      invariant Kept(read, appended, decoder.pending)
      invariant OnlyData(old(world.script)) ==> OnlyData(world.script) && (!goesOn ==> world.script == [])
      invariant if goesOn then SaidAlive(old(world.alive), world.alive)
                else EndsLoop(world.lastRead, old(world.alive), world.alive)
      decreases goesOn, Work(world.script), |world.alive|
    {
      ghost var more;
      ghost var before := world.alive;
      appended, more, goesOn := ReadOnce(world, decoder, appended, read);
      Associates(read, more, BytesIn(world.script));
      read := read + more;
      if goesOn || world.lastRead.Broken? {
        AliveAgain(old(world.alive), before, world.alive);
      } else {
        DeadAfterAlive(old(world.alive), before, world.alive);
      }
    }
    decoder.DiscardTail();
    assert read + [] == read;
  }
}
