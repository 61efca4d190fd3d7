/** UTF-8 as fixed by section 4 of RFC 3629, and the incremental decoder that turns PTY and
    pipe reads into text.  Bytes that no scalar can contain are dropped; an unfinished scalar at
    the end of a read is kept for the next one. */
module Utf8 {
  import opened Scanner

  type byte = b: int | 0 <= b < 256

  /** A Unicode scalar value: what Rust calls a `char`. */
  type Scalar = c: int | 0 <= c < 0xD800 || 0xE000 <= c <= 0x10FFFF

  type Text = seq<Scalar>

  // ---- Encoding -----------------------------------------------------------------------------

  function EncodeScalar(c: Scalar): (s: seq<byte>)
    ensures 1 <= |s| <= 4
  {
    if c < 0x80 then [c as byte]
    else if c < 0x800 then [0xC0 + c / 64, 0x80 + c % 64]
    else if c < 0x10000 then [0xE0 + c / 4096, 0x80 + c / 64 % 64, 0x80 + c % 64]
    else [0xF0 + c / 262144, 0x80 + c / 4096 % 64, 0x80 + c / 64 % 64, 0x80 + c % 64]
  }

  function Encode(t: Text): seq<byte> {
    if t == [] then [] else EncodeScalar(t[0]) + Encode(t[1..])
  }

  lemma {:induction false} EncodeConcat(a: Text, b: Text)
    ensures Encode(a + b) == Encode(a) + Encode(b)
  {
    if a == [] {
      assert a + b == b;
    } else {
      assert (a + b)[1..] == a[1..] + b;
      EncodeConcat(a[1..], b);
    }
  }

  lemma {:induction false} EncodeLength(t: Text)
    ensures |t| <= |Encode(t)| <= 4 * |t|
  {
    if t != [] {
      EncodeLength(t[1..]);
    }
  }

  predicate IsAscii(t: Text) {
    forall i | 0 <= i < |t| :: t[i] < 0x80
  }

  /** Only ASCII text has as many bytes as characters. */
  lemma {:induction false} AsciiLength(t: Text)
    ensures |Encode(t)| >= |t| && (|Encode(t)| == |t| <==> IsAscii(t))
  {
    if t != [] {
      AsciiLength(t[1..]);
      assert IsAscii(t) <==> t[0] < 0x80 && IsAscii(t[1..]);
    }
  }

  // ---- Well-formed sequences, transcribed from the grammar of RFC 3629 section 4 --------------

  predicate IsTail(b: byte) {
    0x80 <= b <= 0xBF
  }

  predicate WellFormed(s: seq<byte>) {
    || (|s| == 1 && s[0] <= 0x7F)
    || (|s| == 2 && 0xC2 <= s[0] <= 0xDF && IsTail(s[1]))
    || (|s| == 3 && s[0] == 0xE0 && 0xA0 <= s[1] <= 0xBF && IsTail(s[2]))
    || (|s| == 3 && 0xE1 <= s[0] <= 0xEC && IsTail(s[1]) && IsTail(s[2]))
    || (|s| == 3 && s[0] == 0xED && 0x80 <= s[1] <= 0x9F && IsTail(s[2]))
    || (|s| == 3 && 0xEE <= s[0] <= 0xEF && IsTail(s[1]) && IsTail(s[2]))
    || (|s| == 4 && s[0] == 0xF0 && 0x90 <= s[1] <= 0xBF && IsTail(s[2]) && IsTail(s[3]))
    || (|s| == 4 && 0xF1 <= s[0] <= 0xF3 && IsTail(s[1]) && IsTail(s[2]) && IsTail(s[3]))
    || (|s| == 4 && s[0] == 0xF4 && 0x80 <= s[1] <= 0x8F && IsTail(s[2]) && IsTail(s[3]))
  }

  /** The scalar a well-formed sequence stands for. */
  function Value(s: seq<byte>): Scalar
    requires WellFormed(s)
  {
    var first: int := s[0] as int;
    var last: int := s[|s| - 1] as int - 0x80;
    if |s| == 1 then first
    else if |s| == 2 then 64 * (first - 0xC0) + last
    else
      var second: int := s[1] as int - 0x80;
      if |s| == 3 then 4096 * (first - 0xE0) + 64 * second + last
      else 262144 * (first - 0xF0) + 4096 * second + 64 * (s[2] as int - 0x80) + last
  }

  /** Base-64 digits are recovered from the number they make up. */
  lemma Digits(a: nat, b: nat, c: nat, d: nat)
    requires b < 64 && c < 64 && d < 64
    ensures var n := 262144 * a + 4096 * b + 64 * c + d;
            n / 262144 == a && n / 4096 % 64 == b && n / 64 % 64 == c && n % 64 == d
  {
    var n := 262144 * a + 4096 * b + 64 * c + d;
    assert n / 64 == 4096 * a + 64 * b + c;
    assert n / 4096 == 64 * a + b;
  }

  lemma EncodeInvertsValue3(s: seq<byte>)
    requires WellFormed(s) && |s| == 3
    ensures EncodeScalar(Value(s)) == s
  {
    var a, b, c := s[0] as int - 0xE0, s[1] as int - 0x80, s[2] as int - 0x80;
    assert 0 <= a < 16 && 0 <= b < 64 && 0 <= c < 64 && 32 <= 64 * a + b;
    Digits(0, a, b, c);
  }

  lemma EncodeInvertsValue4(s: seq<byte>)
    requires WellFormed(s) && |s| == 4
    ensures EncodeScalar(Value(s)) == s
  {
    var a, b, c, d := s[0] as int - 0xF0, s[1] as int - 0x80, s[2] as int - 0x80, s[3] as int - 0x80;
    assert 0 <= a <= 4 && 0 <= b < 64 && 0 <= c < 64 && 0 <= d < 64 && 16 <= 64 * a + b;
    Digits(a, b, c, d);
  }

  lemma EncodeInvertsValue(s: seq<byte>)
    requires WellFormed(s)
    ensures EncodeScalar(Value(s)) == s
  {
    if |s| == 4 {
      EncodeInvertsValue4(s);
    } else if |s| == 3 {
      EncodeInvertsValue3(s);
    } else if |s| == 2 {
      assert Value(s) == 64 * (s[0] as int - 0xC0) + (s[1] as int - 0x80);
    }
  }

  lemma ValueInvertsEncode(c: Scalar)
    ensures WellFormed(EncodeScalar(c)) && Value(EncodeScalar(c)) == c
  {
    var s := EncodeScalar(c);
    var high, mid, low := c / 4096, c / 64 % 64, c % 64;
    assert c == 4096 * high + 64 * mid + low;
    if 0x10000 <= c {
      var a, b := high / 64, high % 64;
      assert c / 262144 == a && high == 64 * a + b;
      assert 0 <= a <= 4 && (a == 0 ==> 16 <= b) && (a == 4 ==> b < 16);
    } else if 0x800 <= c {
      assert 0 <= high < 16 && (high == 0 ==> 32 <= mid) && (high == 13 ==> mid < 32);
    }
  }

  // ---- One step of validation -----------------------------------------------------------------

  /** The length of the sequences that start with `b`; none do if it is 0. */
  function Width(b: byte): nat {
    if b <= 0x7F then 1
    else if 0xC2 <= b <= 0xDF then 2
    else if 0xE0 <= b <= 0xEF then 3
    else if 0xF0 <= b <= 0xF4 then 4
    else 0
  }

  /** Byte `k` may follow the ones before it. */
  predicate Fits(s: seq<byte>, k: nat)
    requires 1 <= k < |s|
  {
    IsTail(s[k])
    && (k == 1 && s[0] == 0xE0 ==> 0xA0 <= s[1])
    && (k == 1 && s[0] == 0xED ==> s[1] <= 0x9F)
    && (k == 1 && s[0] == 0xF0 ==> 0x90 <= s[1])
    && (k == 1 && s[0] == 0xF4 ==> s[1] <= 0x8F)
  }

  predicate FitsUpTo(s: seq<byte>, i: nat)
    requires i <= |s|
  {
    forall k | 1 <= k < i :: Fits(s, k)
  }

  lemma WellFormedShape(s: seq<byte>)
    requires s != []
    ensures WellFormed(s) <==> |s| == Width(s[0]) && FitsUpTo(s, |s|)
  {
    assert |s| >= 2 && FitsUpTo(s, |s|) ==> Fits(s, 1);
    assert |s| >= 3 && FitsUpTo(s, |s|) ==> Fits(s, 2);
    assert |s| >= 4 && FitsUpTo(s, |s|) ==> Fits(s, 3);
  }

  /** Whether a byte fits depends on the bytes up to it. */
  lemma FitsPrefix(s: seq<byte>, t: seq<byte>)
    requires s <= t && FitsUpTo(s, |s|)
    ensures FitsUpTo(t, |s|)
  {
    forall k | 1 <= k < |s| ensures Fits(t, k) {
      assert Fits(s, k) && t[k] == s[k] && t[0] == s[0] && t[1] == s[1];
    }
  }

  lemma TakeFits(s: seq<byte>, i: nat)
    requires 1 <= i <= |s| && i == Width(s[0]) && FitsUpTo(s, i)
    ensures WellFormed(s[..i])
  {
    var w := s[..i];
    forall k | 1 <= k < i ensures Fits(w, k) {
      assert Fits(s, k);
    }
    WellFormedShape(w);
  }

  /** What `str::from_utf8` sees at the front of its input: a scalar, bytes that no scalar can
      contain (taken, nothing put out), or a scalar that the input cuts short. */
  function Next(s: seq<byte>): Step<Scalar> {
    if s == [] then Wait
    else if Width(s[0]) == 0 then Take(1, [])
    else Follow(s, 1)
  }

  function Follow(s: seq<byte>, i: nat): (r: Step<Scalar>)
    requires 1 <= i <= |s| && i <= Width(s[0]) && FitsUpTo(s, i)
    ensures r.Take? ==> 1 <= r.len <= |s|
    ensures r.Wait? ==> |s| < Width(s[0])
    decreases Width(s[0]) - i
  {
    if i == Width(s[0]) then
      TakeFits(s, i);
      Take(i, [Value(s[..i])])
    else if |s| == i then Wait
    else if !Fits(s, i) then Take(i, [])
    else Follow(s, i + 1)
  }

  lemma NextAdvances()
    ensures Advances(Next)
  {
  }

  lemma {:induction false} FollowFindsScalar(w: seq<byte>, rest: seq<byte>, i: nat)
    requires WellFormed(w) && 1 <= i <= |w|
    ensures var s := w + rest; FitsUpTo(s, i) && i <= Width(s[0]) && Follow(s, i) == Take(|w|, [Value(w)])
    decreases |w| - i
  {
    WellFormedShape(w);
    var s := w + rest;
    assert forall k | 1 <= k < |w| :: Fits(w, k) && Fits(s, k);
    if i < |w| {
      FollowFindsScalar(w, rest, i + 1);
    } else {
      assert s[..i] == w;
    }
  }

  /** A well-formed sequence at the front of the input is found, whatever follows it. */
  lemma NextFindsScalar(w: seq<byte>, rest: seq<byte>)
    requires WellFormed(w)
    ensures Next(w + rest) == Take(|w|, [Value(w)])
  {
    FollowFindsScalar(w, rest, 1);
  }

  lemma {:induction false} FollowTakesScalar(s: seq<byte>, i: nat)
    requires 1 <= i <= |s| && i <= Width(s[0]) && FitsUpTo(s, i)
    requires Follow(s, i).Take? && Follow(s, i).out != []
    ensures var n := Follow(s, i).len; WellFormed(s[..n]) && Follow(s, i).out == [Value(s[..n])]
    decreases Width(s[0]) - i
  {
    if i < Width(s[0]) {
      FollowTakesScalar(s, i + 1);
    } else {
      TakeFits(s, i);
    }
  }

  /** Every scalar put out is the value of a well-formed sequence at the front. */
  lemma NextTakesScalar(s: seq<byte>)
    requires Next(s).Take? && Next(s).out != []
    ensures var n := Next(s).len;
            n <= |s| && WellFormed(s[..n]) && Next(s).out == [Value(s[..n])]
  {
    FollowTakesScalar(s, 1);
  }

  lemma {:induction false} FollowIsStable(a: seq<byte>, b: seq<byte>, i: nat)
    requires 1 <= i <= |a| && i <= Width(a[0]) && FitsUpTo(a, i) && Follow(a, i).Take?
    ensures FitsUpTo(a + b, i) && Follow(a + b, i) == Follow(a, i)
    decreases Width(a[0]) - i
  {
    var s := a + b;
    assert forall k | 1 <= k < i :: Fits(a, k) && Fits(s, k);
    assert s[..i] == a[..i];
    if i < Width(a[0]) && i < |a| && Fits(a, i) {
      FollowIsStable(a, b, i + 1);
    }
  }

  /** An answer other than Wait does not change when more bytes arrive. */
  lemma NextIsStable()
    ensures Stable(Next)
  {
    forall a: seq<byte>, b: seq<byte> ensures StableAt(Next, a, b) {
      if Next(a).Take? && Width(a[0]) != 0 {
        FollowIsStable(a, b, 1);
      }
    }
  }

  /** Some well-formed sequence that starts with `s`. */
  ghost function Completion(s: seq<byte>): (w: seq<byte>)
    requires s != [] && |s| <= Width(s[0]) && FitsUpTo(s, |s|)
    ensures WellFormed(w) && s <= w
    decreases Width(s[0]) - |s|
  {
    if |s| == Width(s[0]) then
      WellFormedShape(s);
      s
    else
      var b := if |s| > 1 || s[0] == 0xED || s[0] == 0xF4 then 0x80 else if s[0] == 0xF0 then 0x90 else 0xA0;
      FitsPrefix(s, s + [b]);
      Completion(s + [b])
  }

  lemma {:induction false} FollowWaits(s: seq<byte>, i: nat)
    requires 1 <= i <= |s| < Width(s[0]) && FitsUpTo(s, |s|)
    ensures Follow(s, i).Wait?
    decreases |s| - i
  {
    if i < |s| {
      FollowWaits(s, i + 1);
    }
  }

  lemma {:induction false} WaitFits(s: seq<byte>, i: nat)
    requires 1 <= i <= |s| && i <= Width(s[0]) && FitsUpTo(s, i) && Follow(s, i).Wait?
    ensures FitsUpTo(s, |s|)
    decreases |s| - i
  {
    if i < |s| {
      WaitFits(s, i + 1);
    }
  }

  lemma CutSequenceWaits(s: seq<byte>, w: seq<byte>)
    requires s != [] && WellFormed(w) && s < w
    ensures Next(s).Wait?
  {
    WellFormedShape(w);
    assert forall k | 1 <= k < |s| :: Fits(w, k) && Fits(s, k);
    FollowWaits(s, 1);
  }

  /** What the answers mean: a scalar is put out exactly when the input starts with a
      well-formed sequence, the decoder waits exactly when the input is cut inside one, and
      bytes are dropped exactly when neither holds. */
  lemma NextMeaning(s: seq<byte>)
    requires s != []
    ensures Next(s).Take? && Next(s).out != [] <==> exists w :: WellFormed(w) && w <= s
    ensures Next(s).Wait? <==> exists w :: WellFormed(w) && s < w
  {
    if Next(s).Take? && Next(s).out != [] {
      NextTakesScalar(s);
      var w := s[..Next(s).len];
      assert WellFormed(w) && w <= s;
    }
    if Next(s).Wait? {
      WaitFits(s, 1);
      var w := Completion(s);
      WellFormedShape(w);
      assert WellFormed(w) && s < w;
    }
    forall w | WellFormed(w) && s < w ensures Next(s).Wait? {
      CutSequenceWaits(s, w);
    }
    forall w | WellFormed(w) && w <= s ensures Next(s).Take? && Next(s).out != [] {
      NextFindsScalar(w, s[|w|..]);
      assert w + s[|w|..] == s;
    }
  }

  // ---- Decoding a whole input -------------------------------------------------------------------

  /** Scalars in order, impossible bytes skipped, an unfinished scalar left as the tail. */
  function Decode(s: seq<byte>): Scanned<byte, Scalar> {
    NextAdvances();
    Scan(Next, s)
  }

  lemma DecodeSplit(a: seq<byte>, b: seq<byte>)
    ensures var first := Decode(a); var second := Decode(first.tail + b);
            Decode(a + b) == Scanned(first.out + second.out, second.tail)
  {
    NextAdvances();
    NextIsStable();
    ScanSplit(Next, a, b);
  }

  lemma WaitIsShort(s: seq<byte>)
    requires Next(s).Wait?
    ensures |s| <= 3
  {
  }

  /** Decoding never yields more bytes of text than it was given. */
  lemma {:induction false} DecodeSize(s: seq<byte>)
    ensures |Encode(Decode(s).out)| + |Decode(s).tail| <= |s|
    ensures |Decode(s).tail| <= 3
    decreases |s|
  {
    NextAdvances();
    var d := Decode(s);
    if Next(s).Wait? {
      WaitIsShort(s);
    } else {
      var n, out := Next(s).len, Next(s).out;
      DecodeSize(s[n..]);
      if out == [] {
        assert d.out == Decode(s[n..]).out;
      } else {
        NextTakesScalar(s);
        EncodeInvertsValue(s[..n]);
        assert d.out[1..] == Decode(s[n..]).out;
      }
    }
  }

  lemma {:induction false} DecodeInvertsEncode(t: Text)
    ensures Decode(Encode(t)) == Scanned(t, [])
  {
    NextAdvances();
    if t != [] {
      var w, rest := EncodeScalar(t[0]), Encode(t[1..]);
      ValueInvertsEncode(t[0]);
      NextFindsScalar(w, rest);
      assert (w + rest)[|w|..] == rest;
      DecodeInvertsEncode(t[1..]);
    }
  }

  // ---- The decoder -----------------------------------------------------------------------------------

  /** The result of `str::from_utf8`: the longest valid prefix as text, and what follows it, or
      follows the bad bytes after it.  `waits` when the input just ends there. */
  function FromUtf8(s: seq<byte>): Ran<byte, Scalar> {
    NextAdvances();
    Run(Next, s)
  }

  /** Decoding `data` has put out `out` and goes on with `rest`. */
  ghost predicate DecodedTo(data: seq<byte>, out: Text, rest: seq<byte>) {
    Decode(data) == Scanned(out + Decode(rest).out, Decode(rest).tail)
  }

  lemma RoundDecodes(data: seq<byte>, out: Text, rest: seq<byte>)
    requires DecodedTo(data, out, rest)
    ensures var r := FromUtf8(rest); DecodedTo(data, out + r.out, r.rest)
  {
    NextAdvances();
    RunScans(Next, rest);
    ScannedToTrans(Next, data, out, rest, FromUtf8(rest).out, FromUtf8(rest).rest);
  }

  lemma WaitingDecodes(data: seq<byte>, out: Text, rest: seq<byte>)
    requires DecodedTo(data, out, rest) && Next(rest).Wait?
    ensures Decode(data) == Scanned(out, rest)
  {
    assert out + [] == out;
  }

  class IncrementalUtf8Decoder {
    var pending: seq<byte>

    constructor ()
      ensures pending == []
    {
      pending := [];
    }

    method Push(bytes: seq<byte>) returns (out: Text)
      modifies this
      ensures Scanned(out, pending) == Decode(old(pending) + bytes)
    {
      if bytes == [] && pending == [] {
        return [];
      }
      var data := pending + bytes;
      out := [];
      pending := [];
      var rest := data;
      while rest != []
        invariant DecodedTo(data, out, rest)
        decreases |rest|
      {
        var found := FromUtf8(rest);
        RoundDecodes(data, out, rest);
        out := out + found.out;
        rest := found.rest;
        if found.waits {
          break;
        }
      }
      WaitingDecodes(data, out, rest);
      pending := rest;
    }

    /** End of the stream: the unfinished scalar is dropped, nothing stands in for it. */
    method DiscardTail()
      modifies this
      ensures pending == []
    {
      pending := [];
    }
  }

  // ---- Any cutting of the input ------------------------------------------------------------------------

  /** Everything put out and the final pending bytes after one push for each chunk, starting
      from a decoder that already holds `pending`. */
  function PushAll(pending: seq<byte>, chunks: seq<seq<byte>>): Scanned<byte, Scalar> {
    NextAdvances();
    ScanAll(Next, pending, chunks)
  }

  /** Outputs and final pending bytes depend on the bytes only, not on how they are cut. */
  lemma DecoderIsChunkIndependent(chunks: seq<seq<byte>>)
    ensures PushAll([], chunks) == Decode(Concat(chunks))
  {
    NextAdvances();
    NextIsStable();
    ChunkIndependent(Next, [], chunks);
    assert [] + Concat(chunks) == Concat(chunks);
  }

  /** However the encoding of a text is cut, a fresh decoder yields the text, nothing pending. */
  lemma AnyCutDecodes(t: Text, chunks: seq<seq<byte>>)
    requires Concat(chunks) == Encode(t)
    ensures PushAll([], chunks) == Scanned(t, [])
  {
    DecoderIsChunkIndependent(chunks);
    DecodeInvertsEncode(t);
  }

  /** After any pushes the pending bytes are at most three and are a proper prefix of a
      well-formed sequence. */
  lemma PendingIsAPrefix(chunks: seq<seq<byte>>)
    ensures var p := PushAll([], chunks).tail;
            |p| <= 3 && (p == [] || exists w :: WellFormed(w) && p < w)
  {
    NextAdvances();
    DecoderIsChunkIndependent(chunks);
    DecodeSize(Concat(chunks));
    var p := PushAll([], chunks).tail;
    if p != [] {
      NextMeaning(p);
    }
  }

  /** One read of n bytes never yields more than n + 3 bytes of text. */
  lemma PushSize(pending: seq<byte>, bytes: seq<byte>)
    requires |pending| <= 3
    ensures var out := Decode(pending + bytes).out; |out| <= |Encode(out)| <= |bytes| + 3
  {
    DecodeSize(pending + bytes);
    EncodeLength(Decode(pending + bytes).out);
  }
}
