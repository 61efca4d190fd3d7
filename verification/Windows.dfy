/** Two ways to keep the newest part of something: the last n elements of a sequence, and the
    longest run of newest entries whose total weight stays within a limit. */
module Windows {
  function Tail<T>(s: seq<T>, n: nat): (t: seq<T>)
    ensures |t| == if |s| <= n then |s| else n
  {
    if |s| <= n then s else s[|s| - n..]
  }

  /** Trimming before appending makes no difference once the result is trimmed. */
  lemma TailAppend<T>(a: seq<T>, b: seq<T>, n: nat)
    ensures Tail(Tail(a, n) + b, n) == Tail(a + b, n)
  {
  }

  /** Text in front of the last n elements does not matter. */
  lemma TailDrops<T>(a: seq<T>, b: seq<T>, n: nat)
    requires |b| <= n
    ensures Tail(a + b, n) == Tail(a, n - |b|) + b
  {
  }

  lemma TailForgets<T>(a: seq<T>, b: seq<T>, n: nat)
    requires |b| >= n
    ensures Tail(a + b, n) == Tail(b, n)
  {
  }

  function Total<T>(es: seq<T>, weight: T -> nat): nat {
    if es == [] then 0 else weight(es[0]) + Total(es[1..], weight)
  }

  lemma {:induction false} TotalAppend<T>(a: seq<T>, b: seq<T>, weight: T -> nat)
    ensures Total(a + b, weight) == Total(a, weight) + Total(b, weight)
  {
    if a == [] {
      assert a + b == b;
    } else {
      assert (a + b)[1..] == a[1..] + b;
      TotalAppend(a[1..], b, weight);
    }
  }

  /** What is left when oldest entries are dropped one by one until the rest fits. */
  function Fit<T>(es: seq<T>, weight: T -> nat, limit: nat): (r: seq<T>)
    ensures |r| <= |es|
  {
    if Total(es, weight) <= limit then es else Fit(es[1..], weight, limit)
  }

  /** The rest is a run of newest entries, it fits, and one entry more would not. */
  lemma {:induction false} FitIsLongest<T>(es: seq<T>, weight: T -> nat, limit: nat)
    ensures var r := Fit(es, weight, limit); var k := |es| - |r|;
            && r == es[k..] && Total(r, weight) <= limit
            && (k > 0 ==> Total(es[k - 1..], weight) > limit)
  {
    if Total(es, weight) <= limit {
      assert es[0..] == es;
    } else {
      FitIsLongest(es[1..], weight, limit);
      var k := |es| - |Fit(es, weight, limit)|;
      assert es[1..][k - 1..] == es[k..];
      if k > 1 {
        assert es[1..][k - 2..] == es[k - 1..];
      } else {
        assert es[0..] == es;
      }
    }
  }

  /** Dropping early makes no difference: an entry that had to go once has to go later too. */
  lemma {:induction false} FitAppend<T>(a: seq<T>, b: seq<T>, weight: T -> nat, limit: nat)
    ensures Fit(Fit(a, weight, limit) + b, weight, limit) == Fit(a + b, weight, limit)
  {
    if Total(a, weight) > limit {
      TotalAppend(a, b, weight);
      assert (a + b)[1..] == a[1..] + b;
      FitAppend(a[1..], b, weight, limit);
    }
  }

  /** An entry that fits on its own is never dropped when it is the newest. */
  lemma {:induction false} FitKeepsNewest<T>(es: seq<T>, weight: T -> nat, limit: nat)
    requires es != [] && weight(es[|es| - 1]) <= limit
    ensures var r := Fit(es, weight, limit); r != [] && r[|r| - 1] == es[|es| - 1]
  {
    if Total(es, weight) > limit {
      assert Total(es[1..], weight) > 0 || es[1..] != [];
      FitKeepsNewest(es[1..], weight, limit);
    }
  }

  /** What is left when entries arrive one by one and the excess is dropped each time. */
  function FitEach<T>(start: seq<T>, es: seq<T>, weight: T -> nat, limit: nat): seq<T>
    decreases |es|
  {
    if es == [] then start
    else FitEach(Fit(start + [es[0]], weight, limit), es[1..], weight, limit)
  }

  lemma {:induction false} FitEachIsFit<T>(start: seq<T>, es: seq<T>, weight: T -> nat, limit: nat)
    requires Total(start, weight) <= limit
    ensures FitEach(start, es, weight, limit) == Fit(start + es, weight, limit)
    decreases |es|
  {
    if es == [] {
      assert start + es == start;
    } else {
      var all := start + [es[0]];
      FitIsLongest(all, weight, limit);
      FitEachIsFit(Fit(all, weight, limit), es[1..], weight, limit);
      FitAppend(all, es[1..], weight, limit);
      assert start + es == all + es[1..];
    }
  }
}
