/** The threads that read the two pipes of a structured run. */
module PipeReader {
  import opened Scanner
  import opened Utf8
  import opened Bounds
  import opened StructuredLog
  import opened Reader

  /** All bytes read have been decoded, and every text that is not empty has been appended. */
  ghost predicate PipeKept(read: seq<byte>, appended: seq<Text>, pending: seq<byte>) {
    && Decode(read) == Scanned(Concat(appended), pending)
    && forall i | 0 <= i < |appended| :: appended[i] != [] && |Encode(appended[i])| <= 8192 + 3
  }

  lemma PipeStart()
    ensures PipeKept([], [], [])
  {
  }

  lemma PipeKeepsMore(read: seq<byte>, appended: seq<Text>, pending: seq<byte>, bytes: seq<byte>, text: Text,
      left: seq<byte>)
    requires PipeKept(read, appended, pending) && |bytes| <= PIPE_READ_BYTES
    requires Decode(pending + bytes) == Scanned(text, left)
    ensures PipeKept(read + bytes, if text == [] then appended else appended + [text], left)
  {
    DecodeSplit(read, bytes);
    DecodeSize(read);
    DecodedFitsPipe(pending, bytes);
    if text == [] {
      assert Concat(appended) + [] == Concat(appended);
    } else {
      ConcatSnoc(appended, text);
    }
  }

  /** Every text appended is what some reads decode to, in order and nothing left out; the thread goes on until the
      pipe ends or fails, and interruptions never end it. */
  method ReadPipe(world: World) returns (appended: seq<Text>, ghost read: seq<byte>)
    modifies world
    ensures old(BytesIn(world.script)) == read + BytesIn(world.script)
    ensures Concat(appended) == Decode(read).out
    ensures forall i | 0 <= i < |appended| :: appended[i] != [] && |Encode(appended[i])| <= 8192 + 3
    ensures Ends(world.lastRead)
    ensures OnlyData(old(world.script)) ==>
              BytesIn(world.script) == [] && Concat(appended) == Decode(old(BytesIn(world.script))).out
  {
    var decoder := new IncrementalUtf8Decoder();
    appended, read := [], [];
    PipeStart();
    var goesOn := true;
    while goesOn
      invariant fresh(decoder)
      invariant old(BytesIn(world.script)) == read + BytesIn(world.script)
      invariant PipeKept(read, appended, decoder.pending)
      invariant OnlyData(old(world.script)) ==> OnlyData(world.script) && (!goesOn ==> world.script == [])
      invariant !goesOn ==> Ends(world.lastRead)
      decreases goesOn, Work(world.script)
    {
      var outcome := world.Read(PIPE_READ_BYTES);
      match outcome {
        case Got(bytes) =>
          ghost var pending := decoder.pending;
          var text := decoder.Push(bytes);
          PipeKeepsMore(read, appended, pending, bytes, text, decoder.pending);
          Associates(read, bytes, BytesIn(world.script));
          read := read + bytes;
          appended := if text == [] then appended else appended + [text];
        case Interrupted =>
        case End => goesOn := false;
        case Retryable => goesOn := false;
        case Broken => goesOn := false;
      }
    }
    decoder.DiscardTail();
    assert read + [] == read;
  }
}
