/** The two bounded windows of a session: the newest text, and the newest numbered chunks. */
module Bounds {
  import opened Scanner
  import opened Utf8
  import opened Windows

  // ---- TextWindow ---------------------------------------------------------------------------

  lemma NothingKept(text: Text, chunk: Text, maxChars: nat)
    requires |text| <= maxChars && (chunk == [] || maxChars == 0)
    ensures Tail(text + chunk, maxChars) == text
  {
  }

  lemma ConcatOne(part: Text)
    ensures Concat([part]) == part
  {
    assert [part][1..] == [];
    assert part + Concat([]) == part;
  }

  class TextWindow {
    const maxChars: nat
    var chars: nat
    var segments: seq<Text>

    ghost predicate Valid()
      reads this
    {
      chars == |Concat(segments)| <= maxChars
    }

    function Value(): Text
      reads this
    {
      Concat(segments)
    }

    constructor (maxChars: nat)
      ensures Valid() && Value() == [] && this.maxChars == maxChars
    {
      this.maxChars := maxChars;
      chars := 0;
      segments := [];
    }

    method Push(chunk: Text)
      requires Valid()
      modifies this
      ensures Valid() && Value() == Tail(old(Value()) + chunk, maxChars)
    {
      if chunk == [] || maxChars == 0 {
        NothingKept(Concat(segments), chunk, maxChars);
        return;
      }
      if |chunk| >= maxChars {
        TailForgets(Concat(segments), chunk, maxChars);
        ConcatOne(Tail(chunk, maxChars));
        segments := [Tail(chunk, maxChars)];
        chars := maxChars;
        return;
      }
      ConcatSnoc(segments, chunk);
      segments := segments + [chunk];
      chars := chars + |chunk|;
      Trim();
    }

    method Trim()
      requires chars == |Concat(segments)|
      modifies this
      ensures Valid() && Value() == Tail(old(Value()), maxChars)
    {
      var overflow := if chars > maxChars then chars - maxChars else 0;
      while overflow > 0
        invariant chars == |Concat(segments)|
        invariant overflow == if chars > maxChars then chars - maxChars else 0
        invariant Tail(Concat(segments), maxChars) == Tail(old(Concat(segments)), maxChars)
        decreases |segments|, overflow
      {
        var front, rest := segments[0], segments[1..];
        if |front| <= overflow {
          TailForgets(front, Concat(rest), maxChars);
          segments := rest;
          chars := chars - |front|;
          overflow := overflow - |front|;
          continue;
        }
        var keep := |front| - overflow;
        TailDrops(front, Concat(rest), maxChars);
        var trimmed := Tail(front, keep);
        assert Concat([trimmed] + rest) == trimmed + Concat(rest) by {
          assert ([trimmed] + rest)[1..] == rest;
        }
        segments := [trimmed] + rest;
        chars := chars - overflow;
        overflow := 0;
      }
    }
  }

  // ---- ChunkWindow --------------------------------------------------------------------------

  datatype Chunk = Chunk(number: nat, data: Text)

  function Chars(c: Chunk): nat {
    |c.data|
  }

  /** What is stored of a chunk: its end, if it is longer than the whole window. */
  function Stored(c: Chunk, maxChars: nat): Chunk {
    c.(data := Tail(c.data, maxChars))
  }

  class ChunkWindow {
    const maxChars: nat
    var chars: nat
    var entries: seq<Chunk>

    ghost predicate Valid()
      reads this
    {
      chars == Total(entries, Chars) <= maxChars
    }

    constructor (maxChars: nat)
      ensures Valid() && entries == [] && this.maxChars == maxChars
    {
      this.maxChars := maxChars;
      chars := 0;
      entries := [];
    }

    method Push(number: nat, chunk: Text)
      requires Valid()
      modifies this
      ensures Valid()
      ensures entries == Fit(old(entries) + [Stored(Chunk(number, chunk), maxChars)], Chars, maxChars)
    {
      var stored := if maxChars == 0 then [] else if |chunk| > maxChars then Tail(chunk, maxChars) else chunk;
      var newest := Chunk(number, stored);
      TotalAppend(entries, [newest], Chars);
      entries := entries + [newest];
      chars := chars + |stored|;
      ghost var all := entries;
      FitKeepsNewest(all, Chars, maxChars);
      while chars > maxChars && |entries| > 1
        invariant entries != [] && entries[|entries| - 1] == newest
        invariant chars == Total(entries, Chars)
        invariant Fit(entries, Chars, maxChars) == Fit(all, Chars, maxChars)
        decreases |entries|
      {
        chars := chars - |entries[0].data|;
        entries := entries[1..];
      }
      assert |entries| == 1 ==> Total(entries, Chars) == Chars(newest) + Total(entries[1..], Chars);
    }
  }

  /** The texts with the numbers that follow `number`. */
  function Numbered(number: nat, texts: seq<Text>): (r: seq<Chunk>)
    ensures |r| == |texts|
    decreases |texts|
  {
    if texts == [] then [] else [Chunk(number + 1, texts[0])] + Numbered(number + 1, texts[1..])
  }

  lemma {:induction false} NumberedAt(number: nat, texts: seq<Text>, i: nat)
    requires i < |texts|
    ensures Numbered(number, texts)[i] == Chunk(number + i + 1, texts[i])
    decreases |texts|
  {
    if i > 0 {
      NumberedAt(number + 1, texts[1..], i - 1);
    }
  }

  /** The chunks numbered above `after`: what `attach` hands out. */
  function Newer(cs: seq<Chunk>, after: nat): seq<Chunk> {
    if cs == [] then []
    else if cs[0].number > after then [cs[0]] + Newer(cs[1..], after)
    else Newer(cs[1..], after)
  }

  // ---- Any number of pushes -------------------------------------------------------------------

  /** The text left after pushing each chunk in turn. */
  function TextAfter(start: Text, chunks: seq<Text>, maxChars: nat): Text
    decreases |chunks|
  {
    if chunks == [] then start
    else TextAfter(Tail(start + chunks[0], maxChars), chunks[1..], maxChars)
  }

  /** After any pushes the text window holds exactly the last maxChars scalars of everything
      pushed, however it was cut. */
  lemma {:induction false} TextWindowIsTail(start: Text, chunks: seq<Text>, maxChars: nat)
    requires |start| <= maxChars
    ensures TextAfter(start, chunks, maxChars) == Tail(start + Concat(chunks), maxChars)
    decreases |chunks|
  {
    if chunks == [] {
      assert start + Concat(chunks) == start;
    } else {
      var next := Tail(start + chunks[0], maxChars);
      TextWindowIsTail(next, chunks[1..], maxChars);
      TailAppend(start + chunks[0], Concat(chunks[1..]), maxChars);
      assert start + Concat(chunks) == start + chunks[0] + Concat(chunks[1..]);
    }
  }

  function StoredAll(cs: seq<Chunk>, maxChars: nat): (r: seq<Chunk>)
    ensures |r| == |cs| && forall i | 0 <= i < |cs| :: r[i] == Stored(cs[i], maxChars)
  {
    if cs == [] then [] else [Stored(cs[0], maxChars)] + StoredAll(cs[1..], maxChars)
  }

  /** Pushing one by one into an empty window, dropping as we go, keeps the longest run of newest
      chunks that fits: no chunk is dropped too early, none too late. */
  lemma ChunkWindowIsFit(cs: seq<Chunk>, maxChars: nat)
    ensures var all := StoredAll(cs, maxChars);
            FitEach([], all, Chars, maxChars) == Fit(all, Chars, maxChars)
  {
    var all := StoredAll(cs, maxChars);
    FitEachIsFit([], all, Chars, maxChars);
    assert [] + all == all;
  }

  function Datas(cs: seq<Chunk>): (r: seq<Text>)
    ensures |r| == |cs|
  {
    if cs == [] then [] else [cs[0].data] + Datas(cs[1..])
  }

  lemma {:induction false} TotalIsLength(cs: seq<Chunk>)
    ensures Total(cs, Chars) == |Concat(Datas(cs))|
  {
    if cs != [] {
      TotalIsLength(cs[1..]);
    }
  }

  /** `kept` is the end of `whole`: all of it, or n scalars. */
  ghost predicate EndOf(kept: Text, whole: Text, n: nat) {
    kept == Tail(whole, |kept|) && (kept == whole || |kept| == n)
  }

  lemma EndGrows(first: Text, stored: Text, rest: Text, whole: Text, n: nat)
    requires EndOf(rest, whole, n) && stored == Tail(first, n) && |stored| + |rest| <= n
    ensures EndOf(stored + rest, first + whole, n)
  {
    if rest == whole {
      TailDrops(first, rest, |stored + rest|);
    } else {
      TailForgets(first, whole, |rest|);
      assert stored + rest == rest;
    }
  }

  lemma {:induction false} FittingTextIsSuffix(cs: seq<Chunk>, maxChars: nat)
    requires Total(StoredAll(cs, maxChars), Chars) <= maxChars
    ensures EndOf(Concat(Datas(StoredAll(cs, maxChars))), Concat(Datas(cs)), maxChars)
  {
    if cs != [] {
      var all := StoredAll(cs, maxChars);
      assert all[1..] == StoredAll(cs[1..], maxChars);
      FittingTextIsSuffix(cs[1..], maxChars);
      TotalIsLength(all[1..]);
      EndGrows(cs[0].data, all[0].data, Concat(Datas(all[1..])), Concat(Datas(cs[1..])), maxChars);
    }
  }

  /** Text in front of `whole` does not matter to an end of it. */
  lemma EndOfMore(first: Text, whole: Text, kept: Text)
    requires kept == Tail(whole, |kept|)
    ensures kept == Tail(first + whole, |kept|)
  {
    TailForgets(first, whole, |kept|);
  }

  lemma DatasHead(cs: seq<Chunk>)
    requires cs != []
    ensures Concat(Datas(cs)) == cs[0].data + Concat(Datas(cs[1..]))
  {
    assert Datas(cs)[1..] == Datas(cs[1..]);
  }

  /** The chunks kept, put together, are the end of everything pushed: a cut inside a chunk that
      is longer than the window never leaves older text in front of it. */
  lemma {:induction false} KeptTextIsSuffix(cs: seq<Chunk>, maxChars: nat)
    ensures var kept := Concat(Datas(Fit(StoredAll(cs, maxChars), Chars, maxChars)));
            kept == Tail(Concat(Datas(cs)), |kept|) && |kept| <= maxChars
  {
    var all := StoredAll(cs, maxChars);
    if Total(all, Chars) <= maxChars {
      FittingTextIsSuffix(cs, maxChars);
      TotalIsLength(all);
    } else {
      KeptTextIsSuffix(cs[1..], maxChars);
      assert all[1..] == StoredAll(cs[1..], maxChars);
      DatasHead(cs);
      EndOfMore(cs[0].data, Concat(Datas(cs[1..])), Concat(Datas(Fit(all[1..], Chars, maxChars))));
    }
  }
}
