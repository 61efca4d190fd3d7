/** The connections that events are broadcast to. */
module Hub {
  // Sending never waits: a connection that cannot take an event is dropped.  One broadcast runs on its own
  // here; Resume and StructuredResume have the interleavings.

  type Id = nat

  /** How long a queue may get, and whether a connection that has been closed refuses a frame at once.  The
      connections of the structured daemon have no such flag: theirs refuse when the queue is full or its
      receiver is gone. */
  datatype Policy = Policy(depth: nat, heedsClosed: bool)

  const PTY_DAEMON := Policy(1024, true)
  const STRUCTURED_DAEMON := Policy(256, false)

  /** `gone`: the thread that writes the queue to the socket has ended. */
  datatype Conn<+F> = Conn(authed: bool, closed: bool, gone: bool, queue: seq<F>)

  predicate Takes<F>(conn: Conn<F>, p: Policy) {
    !conn.gone && (p.heedsClosed ==> !conn.closed) && |conn.queue| < p.depth
  }

  /** A client that has authenticated and cannot take an event. */
  predicate Slow<F>(conn: Conn<F>, p: Policy) {
    conn.authed && !Takes(conn, p)
  }

  /** What a broadcast does to a connection: nothing if it has not authenticated, one frame more if it
      can take it, and the end of it otherwise. */
  function Served<F>(conn: Conn<F>, frame: F, p: Policy): Conn<F> {
    if !conn.authed then conn
    else if Takes(conn, p) then conn.(queue := conn.queue + [frame])
    else conn.(closed := true)
  }

  function ServedAll<F>(conns: map<Id, Conn<F>>, clients: seq<Id>, frame: F, p: Policy): map<Id, Conn<F>> {
    map c | c in conns :: if c in clients then Served(conns[c], frame, p) else conns[c]
  }

  function IsSlow<F>(conns: map<Id, Conn<F>>, p: Policy): Id -> bool {
    (c: Id) => c in conns && Slow(conns[c], p)
  }

  /** The first n, without those that are slow, in the same order. */
  function Keep(ids: seq<Id>, n: nat, slow: Id -> bool): seq<Id>
    requires n <= |ids|
  {
    if n == 0 then [] else Keep(ids, n - 1, slow) + (if slow(ids[n - 1]) then [] else [ids[n - 1]])
  }

  /** The slow ones among the first n. */
  function SlowOnes(ids: seq<Id>, n: nat, slow: Id -> bool): seq<Id>
    requires n <= |ids|
  {
    if n == 0 then [] else SlowOnes(ids, n - 1, slow) + (if slow(ids[n - 1]) then [ids[n - 1]] else [])
  }

  function Fast<F>(conns: map<Id, Conn<F>>, clients: seq<Id>, p: Policy): seq<Id> {
    Keep(clients, |clients|, IsSlow(conns, p))
  }

  /** A connection that has been sent to and not yet been dropped. */
  function Sent<F>(conn: Conn<F>, frame: F, p: Policy): Conn<F> {
    if conn.authed && Takes(conn, p) then conn.(queue := conn.queue + [frame]) else conn
  }

  function Serves<F>(frame: F, p: Policy): Conn<F> -> Conn<F> {
    (conn: Conn<F>) => Served(conn, frame, p)
  }

  function Sends<F>(frame: F, p: Policy): Conn<F> -> Conn<F> {
    (conn: Conn<F>) => Sent(conn, frame, p)
  }

  /** The first n connections of a list are stepped, one after the other. */
  function Each<F>(conns: map<Id, Conn<F>>, ids: seq<Id>, n: nat, step: Conn<F> -> Conn<F>): (r: map<Id, Conn<F>>)
    requires n <= |ids|
    ensures r.Keys == conns.Keys
  {
    if n == 0 then conns
    else
      var r, c := Each(conns, ids, n - 1, step), ids[n - 1];
      if c in r then r[c := step(r[c])] else r
  }

  predicate Distinct(ids: seq<Id>) {
    forall i, j | 0 <= i < j < |ids| :: ids[i] != ids[j]
  }

  function Without(ids: seq<Id>, id: Id): (r: seq<Id>)
    ensures forall c | c in r :: c in ids && c != id
    ensures id !in ids ==> r == ids
  {
    if ids == [] then [] else (if ids[0] == id then [] else [ids[0]]) + Without(ids[1..], id)
  }

  function WithoutAll(ids: seq<Id>, gone: seq<Id>): seq<Id> {
    if gone == [] then ids else Without(WithoutAll(ids, gone[..|gone| - 1]), gone[|gone| - 1])
  }

  class ConnTable<F> {
    const policy: Policy
    var nextId: Id
    var conns: map<Id, Conn<F>>
    var clients: seq<Id>

    ghost predicate Valid()
      reads this
    {
      Distinct(clients) && (forall c | c in clients :: c in conns) && forall c | c in conns :: c < nextId
    }

    constructor (policy: Policy)
      ensures Valid() && this.policy == policy && conns == map[] && clients == []
    {
      this.policy := policy;
      nextId, conns, clients := 1, map[], [];
    }

    method Connect() returns (c: Id)
      requires Valid()
      modifies this
      ensures Valid() && c !in old(conns) && clients == old(clients) + [c]
      ensures conns == old(conns)[c := Conn(false, false, false, [])]
    {
      c := nextId;
      assert forall k | 0 <= k < |clients| :: clients[k] in clients;
      nextId := nextId + 1;
      conns := conns[c := Conn(false, false, false, [])];
      clients := clients + [c];
    }

    method TrySend(c: Id, frame: F) returns (ok: bool)
      requires c in conns
      modifies `conns
      ensures ok <==> Takes(old(conns)[c], policy)
      ensures conns ==
              if ok then old(conns)[c := old(conns)[c].(queue := old(conns)[c].queue + [frame])] else old(conns)
    {
      if conns[c].gone || (policy.heedsClosed && conns[c].closed) || |conns[c].queue| >= policy.depth {
        return false;
      }
      conns := conns[c := conns[c].(queue := conns[c].queue + [frame])];
      return true;
    }

    method Close(c: Id)
      requires c in conns
      modifies `conns
      ensures conns == old(conns)[c := old(conns)[c].(closed := true)]
    {
      conns := conns[c := conns[c].(closed := true)];
    }

    method Disconnect(c: Id)
      requires c in conns
      modifies `conns, `clients
      ensures conns == old(conns)[c := old(conns)[c].(closed := true)] && clients == Without(old(clients), c)
    {
      Close(c);
      var kept: seq<Id> := [];
      var rest := clients;
      while rest != []
        invariant kept + Without(rest, c) == Without(clients, c)
        decreases |rest|
      {
        if rest[0] != c {
          kept := kept + [rest[0]];
        }
        rest := rest[1..];
      }
      assert kept + [] == kept;
      clients := kept;
    }

    method Send(c: Id, frame: F) returns (ok: bool)
      requires c in conns
      modifies `conns
      ensures conns == old(conns)[c := Sent(old(conns)[c], frame, policy)] && (!ok <==> Slow(old(conns)[c], policy))
    {
      ok := true;
      if conns[c].authed {
        ok := TrySend(c, frame);
      }
      assert old(conns)[c := old(conns)[c]] == old(conns);
    }

    /** Sends to each; nothing is dropped yet. */
    method SendToAll(ids: seq<Id>, frame: F) returns (slow: seq<Id>)
      requires Distinct(ids) && forall c | c in ids :: c in conns
      modifies `conns
      ensures conns == Each(old(conns), ids, |ids|, Sends(frame, policy))
      ensures slow == SlowOnes(ids, |ids|, IsSlow(old(conns), policy))
    {
      ghost var before, isSlow, sends := conns, IsSlow(conns, policy), Sends(frame, policy);
      slow := [];
      var i := 0;
      while i < |ids|
        invariant 0 <= i <= |ids| && slow == SlowOnes(ids, i, isSlow) && conns == Each(before, ids, i, sends)
      {
        EachLeaves(before, ids, i, sends);
        var ok := Send(ids[i], frame);
        if !ok {
          slow := slow + [ids[i]];
        }
        i := i + 1;
      }
    }

    method DropAll(slow: seq<Id>)
      requires forall c | c in slow :: c in conns
      modifies `conns, `clients
      ensures conns.Keys == old(conns).Keys && clients == WithoutAll(old(clients), slow)
      ensures forall c | c in conns :: conns[c] == if c in slow then old(conns)[c].(closed := true) else old(conns)[c]
    {
      var j := 0;
      while j < |slow|
        invariant 0 <= j <= |slow| && conns.Keys == old(conns).Keys && clients == WithoutAll(old(clients), slow[..j])
        invariant forall c | c in conns ::
                    conns[c] == if c in slow[..j] then old(conns)[c].(closed := true) else old(conns)[c]
      {
        assert slow[..j + 1] == slow[..j] + [slow[j]] && slow[..j + 1][..j] == slow[..j];
        Disconnect(slow[j]);
        j := j + 1;
      }
      assert slow[..j] == slow;
    }

    /** The PTY daemon: sends to a copy of the list, and then disconnects the slow. */
    method Broadcast(frame: F)
      requires Valid()
      modifies `conns, `clients
      ensures Valid()
      ensures conns == ServedAll(old(conns), old(clients), frame, policy)
      ensures clients == Fast(old(conns), old(clients), policy)
    {
      ghost var before, all := conns, clients;
      DroppingLeavesFast(all, IsSlow(before, policy));
      SlowAreSlow(all, |all|, IsSlow(before, policy));
      var slow := SendToAll(clients, frame);
      ghost var sent := conns;
      DropAll(slow);
      SentThenDropped(before, sent, conns, all, slow, frame, policy);
    }

    method Serve(c: Id, frame: F) returns (keep: bool)
      requires c in conns
      modifies `conns
      ensures conns == old(conns)[c := Served(old(conns)[c], frame, policy)] && (keep <==> !Slow(old(conns)[c], policy))
    {
      if !conns[c].authed {
        return true;
      }
      keep := TrySend(c, frame);
      if !keep {
        Close(c);
      }
    }

    /** Sends to each and tells which can stay. */
    method ServeEach(ids: seq<Id>, frame: F) returns (kept: seq<Id>)
      requires Distinct(ids) && forall c | c in ids :: c in conns
      modifies `conns
      ensures conns == Each(old(conns), ids, |ids|, Serves(frame, policy))
      ensures kept == Keep(ids, |ids|, IsSlow(old(conns), policy))
    {
      ghost var before, isSlow, serves := conns, IsSlow(conns, policy), Serves(frame, policy);
      kept := [];
      var i := 0;
      while i < |ids|
        invariant 0 <= i <= |ids| && kept == Keep(ids, i, isSlow) && conns == Each(before, ids, i, serves)
      {
        EachLeaves(before, ids, i, serves);
        var keep := Serve(ids[i], frame);
        if keep {
          kept := kept + [ids[i]];
        }
        i := i + 1;
      }
    }

    /** The structured daemon: sends and drops in one pass. */
    method Publish(frame: F)
      requires Valid()
      modifies `conns, `clients
      ensures Valid()
      ensures conns == ServedAll(old(conns), old(clients), frame, policy)
      ensures clients == Fast(old(conns), old(clients), policy)
    {
      EachServes(conns, clients, frame, policy);
      KeepIsDistinct(clients, |clients|, IsSlow(conns, policy));
      clients := ServeEach(clients, frame);
    }
  }

  lemma NotEarlier(ids: seq<Id>, i: nat)
    requires Distinct(ids) && i < |ids|
    ensures ids[i] !in ids[..i] && forall c :: c in ids[..i + 1] <==> c in ids[..i] || c == ids[i]
  {
    assert ids[..i + 1] == ids[..i] + [ids[i]];
  }

  lemma {:induction false} EachMeans<F>(conns: map<Id, Conn<F>>, ids: seq<Id>, n: nat, step: Conn<F> -> Conn<F>)
    requires n <= |ids| && Distinct(ids)
    ensures var r := Each(conns, ids, n, step);
            forall c | c in conns :: r[c] == if c in ids[..n] then step(conns[c]) else conns[c]
  {
    if n > 0 {
      EachMeans(conns, ids, n - 1, step);
      NotEarlier(ids, n - 1);
    }
  }

  lemma EachLeaves<F>(conns: map<Id, Conn<F>>, ids: seq<Id>, i: nat, step: Conn<F> -> Conn<F>)
    requires i < |ids| && Distinct(ids) && ids[i] in conns
    ensures Each(conns, ids, i, step)[ids[i]] == conns[ids[i]]
  {
    EachMeans(conns, ids, i, step);
    NotEarlier(ids, i);
  }

  lemma EachServes<F>(conns: map<Id, Conn<F>>, ids: seq<Id>, frame: F, p: Policy)
    requires Distinct(ids)
    ensures Each(conns, ids, |ids|, Serves(frame, p)) == ServedAll(conns, ids, frame, p)
  {
    EachMeans(conns, ids, |ids|, Serves(frame, p));
    assert ids[..|ids|] == ids;
  }

  lemma SlowOnesAre<F>(conns: map<Id, Conn<F>>, all: seq<Id>, p: Policy, c: Id)
    requires c in conns
    ensures c in SlowOnes(all, |all|, IsSlow(conns, p)) <==> c in all && Slow(conns[c], p)
  {
    SlowAreSlow(all, |all|, IsSlow(conns, p));
    if c in all {
      var k :| 0 <= k < |all| && all[k] == c;
    }
  }

  lemma SentThenDropped<F>(before: map<Id, Conn<F>>, sent: map<Id, Conn<F>>, after: map<Id, Conn<F>>, all: seq<Id>,
      slow: seq<Id>, frame: F, p: Policy)
    requires Distinct(all) && sent == Each(before, all, |all|, Sends(frame, p)) && after.Keys == sent.Keys
    requires forall c | c in after :: after[c] == if c in slow then sent[c].(closed := true) else sent[c]
    requires slow == SlowOnes(all, |all|, IsSlow(before, p))
    ensures after == ServedAll(before, all, frame, p)
  {
    forall c | c in before ensures c in slow <==> c in all && Slow(before[c], p) {
      SlowOnesAre(before, all, p, c);
    }
    EachMeans(before, all, |all|, Sends(frame, p));
    assert all[..|all|] == all;
  }

  // ---- Taking the slow out one by one leaves the others ----------------------------------------------------

  lemma {:induction false} WithoutConcat(a: seq<Id>, b: seq<Id>, id: Id)
    ensures Without(a + b, id) == Without(a, id) + Without(b, id)
  {
    if a == [] {
      assert a + b == b;
    } else {
      assert (a + b)[1..] == a[1..] + b;
      WithoutConcat(a[1..], b, id);
    }
  }

  lemma TakeOut(front: seq<Id>, c: Id, rest: seq<Id>)
    requires c !in front && c !in rest
    ensures Without(front + ([c] + rest), c) == front + rest
  {
    WithoutConcat(front, [c] + rest, c);
    assert ([c] + rest)[1..] == rest;
    assert [] + rest == rest;
  }

  lemma WithoutAllSnoc(ids: seq<Id>, gone: seq<Id>, c: Id)
    ensures WithoutAll(ids, gone + [c]) == Without(WithoutAll(ids, gone), c)
  {
    assert (gone + [c])[..|gone|] == gone;
  }

  lemma AtOnce(ids: seq<Id>, n: nat)
    requires 0 < n <= |ids| && Distinct(ids)
    ensures ids[n - 1..] == [ids[n - 1]] + ids[n..] && ids[n - 1] !in ids[n..]
  {
    assert forall k | 0 <= k < |ids| - n :: ids[n..][k] == ids[n + k];
  }

  lemma KeepSame(ids: seq<Id>, n: nat, slow: Id -> bool)
    requires 0 < n <= |ids| && slow(ids[n - 1])
    ensures Keep(ids, n, slow) == Keep(ids, n - 1, slow)
  {
    assert Keep(ids, n - 1, slow) + [] == Keep(ids, n - 1, slow);
  }

  lemma DropOne(ids: seq<Id>, n: nat, slow: Id -> bool)
    requires 0 < n <= |ids| && Distinct(ids) && slow(ids[n - 1])
    ensures Without(Keep(ids, n - 1, slow) + ids[n - 1..], ids[n - 1]) == Keep(ids, n, slow) + ids[n..]
  {
    KeepIsDistinct(ids, n - 1, slow);
    AtOnce(ids, n);
    TakeOut(Keep(ids, n - 1, slow), ids[n - 1], ids[n..]);
    KeepSame(ids, n, slow);
  }

  lemma KeepOne(ids: seq<Id>, n: nat, slow: Id -> bool)
    requires 0 < n <= |ids| && !slow(ids[n - 1])
    ensures Keep(ids, n - 1, slow) + ids[n - 1..] == Keep(ids, n, slow) + ids[n..]
    ensures SlowOnes(ids, n, slow) == SlowOnes(ids, n - 1, slow)
  {
    assert ids[n - 1..] == [ids[n - 1]] + ids[n..];
  }

  lemma NoneDropped(ids: seq<Id>)
    ensures WithoutAll(ids, []) == ids && [] + ids[0..] == ids
  {
  }

  lemma DropNext(ids: seq<Id>, n: nat, slow: Id -> bool)
    requires 0 < n <= |ids| && Distinct(ids) && slow(ids[n - 1])
    requires WithoutAll(ids, SlowOnes(ids, n - 1, slow)) == Keep(ids, n - 1, slow) + ids[n - 1..]
    ensures WithoutAll(ids, SlowOnes(ids, n, slow)) == Keep(ids, n, slow) + ids[n..]
  {
    WithoutAllSnoc(ids, SlowOnes(ids, n - 1, slow), ids[n - 1]);
    DropOne(ids, n, slow);
  }

  /** Taking out the slow among the first n leaves the fast among them, and the others. */
  lemma {:induction false} DroppingLeaves(ids: seq<Id>, n: nat, slow: Id -> bool)
    requires n <= |ids| && Distinct(ids)
    ensures WithoutAll(ids, SlowOnes(ids, n, slow)) == Keep(ids, n, slow) + ids[n..]
  {
    if n == 0 {
      NoneDropped(ids);
    } else {
      DroppingLeaves(ids, n - 1, slow);
      if slow(ids[n - 1]) {
        DropNext(ids, n, slow);
      } else {
        KeepOne(ids, n, slow);
      }
    }
  }

  lemma {:induction false} KeepIsDistinct(ids: seq<Id>, n: nat, slow: Id -> bool)
    requires n <= |ids| && Distinct(ids)
    ensures Distinct(Keep(ids, n, slow)) && forall c | c in Keep(ids, n, slow) :: c in ids
    ensures forall k | n <= k < |ids| :: ids[k] !in Keep(ids, n, slow)
  {
    if n > 0 {
      KeepIsDistinct(ids, n - 1, slow);
    }
  }

  lemma DroppingLeavesFast(ids: seq<Id>, slow: Id -> bool)
    requires Distinct(ids)
    ensures var fast := Keep(ids, |ids|, slow);
            && WithoutAll(ids, SlowOnes(ids, |ids|, slow)) == fast
            && Distinct(fast) && forall c | c in fast :: c in ids
  {
    DroppingLeaves(ids, |ids|, slow);
    KeepIsDistinct(ids, |ids|, slow);
    assert Keep(ids, |ids|, slow) + ids[|ids|..] == Keep(ids, |ids|, slow);
  }

  lemma {:induction false} SlowAreSlow(ids: seq<Id>, n: nat, slow: Id -> bool)
    requires n <= |ids|
    ensures forall c | c in SlowOnes(ids, n, slow) :: c in ids && slow(c)
    ensures forall k | 0 <= k < n && slow(ids[k]) :: ids[k] in SlowOnes(ids, n, slow)
  {
    if n > 0 {
      SlowAreSlow(ids, n - 1, slow);
    }
  }

  /** Nobody misses an event unnoticed: an authenticated client that stays in the list has it in its
      queue, and one that does not is closed. */
  lemma NobodyMissesUnnoticed<F>(conns: map<Id, Conn<F>>, clients: seq<Id>, frame: F, p: Policy, c: Id)
    requires c in clients && c in conns && conns[c].authed
    ensures var after := ServedAll(conns, clients, frame, p)[c];
            if c in Fast(conns, clients, p) then after == conns[c].(queue := conns[c].queue + [frame])
            else after.closed && after.queue == conns[c].queue
  {
    assert clients[..|clients|] == clients;
    KeepsExactly(clients, |clients|, IsSlow(conns, p), c);
  }

  /** A client stays if it has not authenticated, or if its queue has room and is still read; in the PTY daemon it
      must not have been closed either. */
  lemma RoomIsEnough<F>(conns: map<Id, Conn<F>>, clients: seq<Id>, c: Id)
    requires c in clients && c in conns
    ensures var conn := conns[c];
            && (c in Fast(conns, clients, PTY_DAEMON) <==>
                  !conn.authed || (!conn.gone && !conn.closed && |conn.queue| < 1024))
            && (c in Fast(conns, clients, STRUCTURED_DAEMON) <==>
                  !conn.authed || (!conn.gone && |conn.queue| < 256))
  {
    assert clients[..|clients|] == clients;
    KeepsExactly(clients, |clients|, IsSlow(conns, PTY_DAEMON), c);
    KeepsExactly(clients, |clients|, IsSlow(conns, STRUCTURED_DAEMON), c);
  }

  lemma {:induction false} KeepsExactly(ids: seq<Id>, n: nat, slow: Id -> bool, c: Id)
    requires n <= |ids|
    ensures c in Keep(ids, n, slow) <==> c in ids[..n] && !slow(c)
  {
    if n > 0 {
      KeepsExactly(ids, n - 1, slow, c);
      assert ids[..n] == ids[..n - 1] + [ids[n - 1]];
    } else {
      assert ids[..0] == [];
    }
  }
}
