/** Streaming recognisers.  A recogniser looks at the front of its input and either takes some
    of it, putting out zero or more results, or waits for more input.  If its answer never
    changes when more input arrives, the results do not depend on how the input is cut. */
module Scanner {
  datatype Step<+O> = Take(len: nat, out: seq<O>) | Wait

  datatype Scanned<+I, +O> = Scanned(out: seq<O>, tail: seq<I>)

  /** Taking means taking something that is there. */
  ghost predicate Advances<I(!new), O>(next: seq<I> -> Step<O>) {
    forall s :: next(s).Take? ==> 1 <= next(s).len <= |s|
  }

  /** An answer other than Wait does not change when more input arrives. */
  ghost predicate StableAt<I, O>(next: seq<I> -> Step<O>, a: seq<I>, b: seq<I>) {
    next(a).Take? ==> next(a + b) == next(a)
  }

  ghost predicate Stable<I(!new), O>(next: seq<I> -> Step<O>) {
    forall a, b :: StableAt(next, a, b)
  }

  function Scan<I(!new), O>(next: seq<I> -> Step<O>, s: seq<I>): (r: Scanned<I, O>)
    requires Advances(next)
    ensures next(r.tail).Wait? && |r.tail| <= |s|
    decreases |s|
  {
    match next(s)
    case Wait => Scanned([], s)
    case Take(n, out) => var rest := Scan(next, s[n..]); Scanned(out + rest.out, rest.tail)
  }

  /** Cutting the input in two and carrying the tail over changes nothing. */
  lemma {:induction false} ScanSplit<I(!new), O>(next: seq<I> -> Step<O>, a: seq<I>, b: seq<I>)
    requires Advances(next) && Stable(next)
    ensures var first := Scan(next, a); var second := Scan(next, first.tail + b);
            Scan(next, a + b) == Scanned(first.out + second.out, second.tail)
    decreases |a|
  {
    match next(a)
    case Wait =>
      assert Scan(next, a) == Scanned([], a);
    case Take(n, out) =>
      assert StableAt(next, a, b);
      assert (a + b)[n..] == a[n..] + b;
      ScanSplit(next, a[n..], b);
      var first := Scan(next, a[n..]);
      var second := Scan(next, first.tail + b);
      assert out + (first.out + second.out) == out + first.out + second.out;
  }

  /** Every item written out, one after the other. */
  function Written<I, O>(write: O -> seq<I>, items: seq<O>): seq<I> {
    if items == [] then [] else write(items[0]) + Written(write, items[1..])
  }

  lemma {:induction false} WrittenConcat<I, O>(write: O -> seq<I>, a: seq<O>, b: seq<O>)
    ensures Written(write, a + b) == Written(write, a) + Written(write, b)
  {
    if a == [] {
      assert a + b == b;
    } else {
      assert (a + b)[1..] == a[1..] + b;
      WrittenConcat(write, a[1..], b);
    }
  }

  /** `next` takes what `write` wrote for one item, whatever comes after it. */
  ghost predicate Reads<I(!new), O(!new)>(next: seq<I> -> Step<O>, write: O -> seq<I>) {
    forall c, rest :: next(write(c) + rest) == Take(|write(c)|, [c])
  }

  lemma ScanTakes<I(!new), O(!new)>(next: seq<I> -> Step<O>, w: seq<I>, item: O, rest: seq<I>)
    requires Advances(next) && next(w + rest) == Take(|w|, [item])
    ensures Scan(next, w + rest) == Scanned([item] + Scan(next, rest).out, Scan(next, rest).tail)
  {
    assert (w + rest)[|w|..] == rest;
  }

  /** Reading undoes writing, and stops at an end the recogniser does not take. */
  lemma {:induction false} ScanInvertsWritten<I(!new), O(!new)>(
      next: seq<I> -> Step<O>, write: O -> seq<I>, items: seq<O>, end: seq<I>)
    requires Advances(next) && Reads(next, write) && next(end).Wait?
    ensures Scan(next, Written(write, items) + end) == Scanned(items, end)
  {
    if items == [] {
      assert [] + end == end;
    } else {
      var w, rest := write(items[0]), Written(write, items[1..]) + end;
      Associates(w, Written(write, items[1..]), end);
      ScanInvertsWritten(next, write, items[1..], end);
      ScanTakes(next, w, items[0], rest);
    }
  }

  lemma DropDrop<T>(s: seq<T>, m: nat, n: nat)
    requires m + n <= |s|
    ensures s[m..][n..] == s[m + n..]
  {
  }

  lemma Associates<T>(a: seq<T>, b: seq<T>, c: seq<T>)
    ensures a + (b + c) == a + b + c
  {
  }

  function Concat<T>(parts: seq<seq<T>>): seq<T> {
    if parts == [] then [] else parts[0] + Concat(parts[1..])
  }

  lemma {:induction false} ConcatSnoc<T>(parts: seq<seq<T>>, last: seq<T>)
    ensures Concat(parts + [last]) == Concat(parts) + last
  {
    if parts == [] {
      assert parts + [last] == [last];
    } else {
      assert (parts + [last])[1..] == parts[1..] + [last];
      ConcatSnoc(parts[1..], last);
    }
  }

  /** Everything put out, and the final tail, after one scan for each chunk with the tail of
      the one before in front. */
  function ScanAll<I(!new), O>(next: seq<I> -> Step<O>, tail: seq<I>, chunks: seq<seq<I>>)
    : Scanned<I, O>
    requires Advances(next)
    decreases |chunks|
  {
    if chunks == [] then Scanned([], tail)
    else
      var first := Scan(next, tail + chunks[0]);
      var rest := ScanAll(next, first.tail, chunks[1..]);
      Scanned(first.out + rest.out, rest.tail)
  }

  /** Results and final tail depend on the input only, not on how it is cut. */
  lemma {:induction false} ChunkIndependent<I(!new), O>(
      next: seq<I> -> Step<O>, tail: seq<I>, chunks: seq<seq<I>>)
    requires Advances(next) && Stable(next) && next(tail).Wait?
    ensures ScanAll(next, tail, chunks) == Scan(next, tail + Concat(chunks))
    decreases |chunks|
  {
    if chunks == [] {
      assert tail + Concat(chunks) == tail;
    } else {
      var first := Scan(next, tail + chunks[0]);
      ScanSplit(next, tail + chunks[0], Concat(chunks[1..]));
      assert tail + Concat(chunks) == tail + chunks[0] + Concat(chunks[1..]);
      ChunkIndependent(next, first.tail, chunks[1..]);
    }
  }

  /** The longest run of steps that each put something out.  It stops where the recogniser waits,
      or at a step that puts out nothing; `rest` is the input from there, or after that step. */
  datatype Ran<+I, +O> = Ran(out: seq<O>, rest: seq<I>, waits: bool)

  function Run<I(!new), O>(next: seq<I> -> Step<O>, s: seq<I>): (r: Ran<I, O>)
    requires Advances(next)
    ensures r.waits ==> next(r.rest).Wait?
    ensures !r.waits ==> |r.rest| < |s|
    decreases |s|
  {
    match next(s)
    case Wait => Ran([], s, true)
    case Take(n, out) =>
      if out == [] then Ran([], s[n..], false)
      else var r := Run(next, s[n..]); Ran(out + r.out, r.rest, r.waits)
  }

  /** `out` has been put out, and scanning `data` goes on with `rest`. */
  ghost predicate ScannedTo<I(!new), O>(
      next: seq<I> -> Step<O>, data: seq<I>, out: seq<O>, rest: seq<I>)
    requires Advances(next)
  {
    Scan(next, data) == Scanned(out + Scan(next, rest).out, Scan(next, rest).tail)
  }

  lemma ScannedToTrans<I(!new), O>(next: seq<I> -> Step<O>,
      a: seq<I>, out: seq<O>, b: seq<I>, more: seq<O>, c: seq<I>)
    requires Advances(next) && ScannedTo(next, a, out, b) && ScannedTo(next, b, more, c)
    ensures ScannedTo(next, a, out + more, c)
  {
    var end := Scan(next, c);
    assert out + (more + end.out) == out + more + end.out;
  }

  /** How far a scan has got does not change when more input arrives. */
  lemma ScannedToMore<I(!new), O>(next: seq<I> -> Step<O>, data: seq<I>, out: seq<O>, rest: seq<I>, more: seq<I>)
    requires Advances(next) && Stable(next) && ScannedTo(next, data, out, rest)
    ensures ScannedTo(next, data + more, out, rest + more)
  {
    ScanSplit(next, data, more);
    ScanSplit(next, rest, more);
    SameTail(next, Scan(next, data), out, Scan(next, rest), more);
  }

  lemma SameTail<I(!new), O>(
      next: seq<I> -> Step<O>, first: Scanned<I, O>, out: seq<O>, rest: Scanned<I, O>, more: seq<I>)
    requires Advances(next) && first == Scanned(out + rest.out, rest.tail)
    ensures var later := Scan(next, first.tail + more);
            later == Scan(next, rest.tail + more) && first.out + later.out == out + (rest.out + later.out)
  {
  }

  lemma {:induction false} RunScans<I(!new), O>(next: seq<I> -> Step<O>, s: seq<I>)
    requires Advances(next)
    ensures ScannedTo(next, s, Run(next, s).out, Run(next, s).rest)
    decreases |s|
  {
    match next(s)
    case Wait =>
    case Take(n, out) =>
      if out != [] {
        RunScans(next, s[n..]);
        var r := Run(next, s[n..]);
        ScannedToTrans(next, s, out, s[n..], r.out, r.rest);
      }
  }
}
