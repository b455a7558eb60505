/**
 Fragmentation and reassembly of messages over a channel (`ipc.cpp`).  The sender cuts
 a message into 64-byte fragments; the receiver sees the fragments of many messages
 interleaved and collects them in a cache that it prunes when it grows large.
 */
module Reassembly {

  type Byte = x: int | 0 <= x < 256
  type MsgId = x: int | 0 <= x < 0x1_0000_0000

  const LEN: nat := 64
  const CACHE: nat := 1024
  const FAR: nat := 8192

  datatype Message = Message(conn: int, bytes: seq<Byte>)

  /** One slot on the wire; `data` is the whole slot, padded with zeros. */
  datatype Fragment = Fragment(conn: int, id: MsgId, remain: int, data: seq<Byte>)

  function Min(a: int, b: int): int { if a < b then a else b }

  function Zeros(n: nat): (r: seq<Byte>)
    ensures |r| == n
  {
    seq(n, i => 0)
  }

  // ------------------------------------------------------------------- sending

  /** How many fragments a message of `n` bytes takes. */
  function Count(n: nat): nat { (n + LEN - 1) / LEN }

  function Slot(m: Message, k: nat): (r: seq<Byte>)
    requires k * LEN < |m.bytes|
    ensures |r| == LEN
  {
    var part := m.bytes[k * LEN..Min(k * LEN + LEN, |m.bytes|)];
    part + Zeros(LEN - |part|)
  }

  /** The `k`-th fragment; `remain` is what is left after a full one and goes negative in a short last one. */
  function Frag(id: MsgId, m: Message, k: nat): Fragment
    requires k < Count(|m.bytes|)
  {
    Fragment(m.conn, id, |m.bytes| - k * LEN - LEN, Slot(m, k))
  }

  function Fragments(id: MsgId, m: Message, n: nat): (r: seq<Fragment>)
    requires n <= Count(|m.bytes|)
    ensures |r| == n && forall k :: 0 <= k < n ==> r[k] == Frag(id, m, k)
  {
    seq(n, k requires 0 <= k < n => Frag(id, m, k))
  }

  lemma CountIs(n: nat)
    ensures n % LEN == 0 ==> Count(n) == n / LEN
    ensures n % LEN > 0 ==> Count(n) == n / LEN + 1
  {
  }

  /** The fragment loop of `send`: full fragments, then a short one if anything remains. */
  method Send(id: MsgId, m: Message) returns (frags: seq<Fragment>)
    requires 0 < |m.bytes| < 0x8000_0000
    ensures frags == Fragments(id, m, Count(|m.bytes|))
  {
    frags := [];
    var offset, size := 0, |m.bytes|;
    CountIs(size);
    for i := 0 to size / LEN
      invariant offset == i * LEN
      invariant i <= Count(size) && frags == Fragments(id, m, i)
    {
      var slot := m.bytes[offset..offset + LEN];
      assert slot == Slot(m, i);
      frags := frags + [Fragment(m.conn, id, size - offset - LEN, slot)];
      offset := offset + LEN;
    }
    var remain := size - offset;
    if remain > 0 {
      frags := frags + [Fragment(m.conn, id, remain - LEN, m.bytes[offset..] + Zeros(LEN - remain))];
      assert m.bytes[offset..] == m.bytes[offset..Min(offset + LEN, size)];
      assert frags == Fragments(id, m, size / LEN + 1);
    }
  }

  // ----------------------------------------------------------------- receiving

  /** A partial message: `size` bytes are allocated, of which the first `fill` are written with `data`. */
  datatype Cache = Cache(fill: nat, size: nat, data: seq<Byte>)

  type Partial = map<MsgId, Cache>

  /** `cache_t::append`. */
  function Append(c: Cache, data: seq<Byte>, size: nat): Cache
    requires size <= |data|
  {
    if c.fill >= c.size || size == 0 then c
    else
      var fill := Min(c.fill + size, c.size);
      Cache(fill, c.size, c.data + data[..fill - c.fill])
  }

  /** The ids that a first fragment makes the cache forget. */
  function Doomed(rc: Partial, id: MsgId): set<MsgId> {
    if |rc| > CACHE then set x | x in rc && (x - id > FAR || id - x > FAR) else {}
  }

  /** What one popped fragment does: the new cache, and the buffer returned if any. */
  datatype Outcome = Outcome(rc: Partial, outs: seq<Cache>)

  function Accept(me: int, rc: Partial, f: Fragment): Outcome
    requires |f.data| == LEN && LEN + f.remain >= 0
  {
    var remain := LEN + f.remain;
    if f.conn == me then Outcome(rc, [])
    else if f.id !in rc then
      if remain <= LEN then Outcome(rc, [Cache(remain, remain, f.data[..remain])])
      else Outcome((rc - Doomed(rc, f.id))[f.id := Cache(LEN, remain, f.data)], [])
    else if f.remain <= 0 then Outcome(rc - {f.id}, [Append(rc[f.id], f.data, remain)])
    else Outcome(rc[f.id := Append(rc[f.id], f.data, LEN)], [])
  }

  /** The fragments the ring can deliver. */
  predicate WellFormed(q: seq<Fragment>) {
    forall i :: 0 <= i < |q| ==> |q[i].data| == LEN && LEN + q[i].remain >= 0
  }

  /** All fragments of a queue, one after the other. */
  function AcceptAll(me: int, rc: Partial, q: seq<Fragment>): Outcome
    requires WellFormed(q)
  {
    if q == [] then Outcome(rc, [])
    else
      var before := AcceptAll(me, rc, q[..|q| - 1]);
      var now := Accept(me, before.rc, q[|q| - 1]);
      Outcome(now.rc, before.outs + now.outs)
  }

  class Receiver {
    const me: int
    var rc: Partial

    constructor (me: int)
      ensures this.me == me && rc == map[]
    {
      this.me := me;
      rc := map[];
    }

    /** `recv`: pops fragments until one completes a message or the queue is empty. */
    method Recv(q: seq<Fragment>) returns (buff: seq<Cache>, used: nat)
      requires WellFormed(q)
      modifies this
      ensures used <= |q| && |buff| <= 1 && (buff == [] ==> used == |q|)
      ensures Outcome(rc, buff) == AcceptAll(me, old(rc), q[..used])
    {
      buff, used := [], 0;
      while used < |q| && buff == []
        invariant used <= |q| && |buff| <= 1
        invariant Outcome(rc, buff) == AcceptAll(me, old(rc), q[..used])
      {
        assert q[..used + 1][..used] == q[..used];
        var f := q[used];
        used := used + 1;
        if f.conn == me { continue; }
        var remain := LEN + f.remain;
        if f.id !in rc {
          if remain <= LEN {
            buff := [Cache(remain, remain, f.data[..remain])];
          } else {
            rc := rc - Doomed(rc, f.id);
            rc := rc[f.id := Cache(LEN, remain, f.data)];
          }
        } else if f.remain <= 0 {
          buff := [Append(rc[f.id], f.data, remain)];
          rc := rc - {f.id};
        } else {
          rc := rc[f.id := Append(rc[f.id], f.data, LEN)];
        }
      }
    }
  }

  // ------------------------------------------------------------- every interleaving

  type Messages = map<MsgId, Message>

  /** What `send` accepts. */
  predicate Sendable(msgs: Messages) {
    forall x :: x in msgs ==> 0 < |msgs[x].bytes| < 0x8000_0000
  }

  /**
   A run in which every message's fragments arrive in order: how many of each have
   arrived, how many had arrived when the cache last forgot the message, what went over
   the wire, the receiver's cache, what it returned, and which messages that completed.
   */
  datatype State = State(pos: map<MsgId, nat>, from: map<MsgId, nat>, wire: seq<Fragment>,
                         rc: Partial, outs: seq<Cache>, done: seq<MsgId>)

  function Init(msgs: Messages): State {
    State(map x | x in msgs :: 0, map x | x in msgs :: 0, [], map[], [], [])
  }

  predicate Enabled(msgs: Messages, st: State, x: MsgId) {
    x in msgs && x in st.pos && st.pos[x] < Count(|msgs[x].bytes|)
  }

  /** The messages forgotten when this fragment arrives. */
  function Forgotten(me: int, rc: Partial, f: Fragment): set<MsgId> {
    if f.conn != me && f.id !in rc && f.remain > 0 then Doomed(rc, f.id) else {}
  }

  /** The next fragment of message `x` arrives. */
  function Deliver(me: int, msgs: Messages, st: State, x: MsgId): State
    requires Enabled(msgs, st, x)
  {
    var f := Frag(x, msgs[x], st.pos[x]);
    var r := Accept(me, st.rc, f);
    var gone := Forgotten(me, st.rc, f);
    State(st.pos[x := st.pos[x] + 1],
          map y | y in st.from :: if y in gone && y in st.pos then st.pos[y] else st.from[y],
          st.wire + [f], r.rc, st.outs + r.outs, if r.outs == [] then st.done else st.done + [x])
  }

  /** A schedule names the message whose next fragment arrives; a message that has none left is passed over. */
  function Exec(me: int, msgs: Messages, schedule: seq<MsgId>): State {
    if schedule == [] then Init(msgs)
    else
      var st := Exec(me, msgs, schedule[..|schedule| - 1]);
      var x := schedule[|schedule| - 1];
      if Enabled(msgs, st, x) then Deliver(me, msgs, st, x) else st
  }

  /** The bytes from fragment `s` on. */
  function Suffix(m: Message, s: nat): Cache
    requires s * LEN <= |m.bytes|
  {
    Cache(|m.bytes| - s * LEN, |m.bytes| - s * LEN, m.bytes[s * LEN..])
  }

  /** Where one message stands: `k` fragments arrived, the cache holds those from `s` on. */
  ghost predicate Stands(me: int, m: Message, k: nat, s: nat, x: MsgId, rc: Partial) {
    && s <= k <= Count(|m.bytes|) && s < Count(|m.bytes|)
    && (x in rc <==> m.conn != me && s < k < Count(|m.bytes|))
    && (x in rc ==> k * LEN <= |m.bytes| && rc[x] == Cache((k - s) * LEN, |m.bytes| - s * LEN, m.bytes[s * LEN..k * LEN]))
  }

  ghost predicate AllStand(me: int, msgs: Messages, st: State) {
    && st.pos.Keys == msgs.Keys && st.from.Keys == msgs.Keys && st.rc.Keys <= msgs.Keys
    && forall x {:trigger msgs[x]} :: x in msgs ==> Stands(me, msgs[x], st.pos[x], st.from[x], x, st.rc)
  }

  /** A message has completed exactly when all its fragments arrived, unless it is the receiver's own. */
  ghost predicate Completed(me: int, msgs: Messages, st: State) {
    && (forall x {:trigger x in st.done} :: x in st.done <==>
          x in msgs && x in st.pos && msgs[x].conn != me && st.pos[x] == Count(|msgs[x].bytes|))
    && forall i, j :: 0 <= i < j < |st.done| ==> st.done[i] != st.done[j]
  }

  /** The receiver returned the completed messages in order of completion, each from where the cache last forgot it. */
  ghost predicate Returned(msgs: Messages, st: State) {
    && |st.outs| == |st.done|
    && forall i :: 0 <= i < |st.outs| ==>
         var x := st.done[i];
         x in msgs && x in st.from && st.from[x] * LEN <= |msgs[x].bytes| && st.outs[i] == Suffix(msgs[x], st.from[x])
  }

  ghost predicate Inv(me: int, msgs: Messages, st: State) {
    && AllStand(me, msgs, st) && Completed(me, msgs, st) && Returned(msgs, st)
    && WellFormed(st.wire) && Outcome(st.rc, st.outs) == AcceptAll(me, map[], st.wire)
  }

  /** The message whose fragment arrives. */
  lemma SelfStands(me: int, m: Message, k: nat, s: nat, x: MsgId, rc: Partial)
    requires Stands(me, m, k, s, x, rc) && k < Count(|m.bytes|) && 0 < |m.bytes|
    ensures Stands(me, m, k + 1, s, x, Accept(me, rc, Frag(x, m, k)).rc)
    ensures s * LEN <= |m.bytes|
    ensures Accept(me, rc, Frag(x, m, k)).outs == if m.conn != me && k + 1 == Count(|m.bytes|) then [Suffix(m, s)] else []
  {
    if x in rc { CachedStands(me, m, k, s, x, rc); } else { FreshStands(me, m, k, s, x, rc); }
  }

  lemma CachedStands(me: int, m: Message, k: nat, s: nat, x: MsgId, rc: Partial)
    requires Stands(me, m, k, s, x, rc) && k < Count(|m.bytes|) && x in rc
    ensures Stands(me, m, k + 1, s, x, Accept(me, rc, Frag(x, m, k)).rc)
    ensures Accept(me, rc, Frag(x, m, k)).outs == if k + 1 == Count(|m.bytes|) then [Suffix(m, s)] else []
  {
    var f := Frag(x, m, k);
    var c := rc[x];
    if f.remain <= 0 {
      assert c.data + f.data[..|m.bytes| - k * LEN] == m.bytes[s * LEN..];
    } else {
      assert c.data + f.data == m.bytes[s * LEN..(k + 1) * LEN];
      assert f.data[..LEN] == f.data;
    }
  }

  lemma FreshStands(me: int, m: Message, k: nat, s: nat, x: MsgId, rc: Partial)
    requires Stands(me, m, k, s, x, rc) && k < Count(|m.bytes|) && x !in rc
    ensures Stands(me, m, k + 1, s, x, Accept(me, rc, Frag(x, m, k)).rc)
    ensures s * LEN <= |m.bytes|
    ensures Accept(me, rc, Frag(x, m, k)).outs == if m.conn != me && k + 1 == Count(|m.bytes|) then [Suffix(m, s)] else []
  {
    var f := Frag(x, m, k);
    if f.remain <= 0 {
      assert f.data[..LEN + f.remain] == m.bytes[k * LEN..];
    } else {
      assert f.data == m.bytes[k * LEN..(k + 1) * LEN];
    }
  }

  lemma DoomedKnown(rc: Partial, id: MsgId)
    ensures Doomed(rc, id) <= rc.Keys
  {
  }

  /** Any other message: it stays as it is or, if forgotten, starts over. */
  lemma OtherStands(me: int, m: Message, k: nat, s: nat, y: MsgId, rc: Partial, f: Fragment)
    requires Stands(me, m, k, s, y, rc) && y != f.id && |f.data| == LEN && LEN + f.remain >= 0
    ensures Stands(me, m, k, if y in Forgotten(me, rc, f) then k else s, y, Accept(me, rc, f).rc)
  {
    DoomedKnown(rc, f.id);
  }

  lemma DeliverStands(me: int, msgs: Messages, st: State, x: MsgId)
    requires AllStand(me, msgs, st) && Sendable(msgs) && Enabled(msgs, st, x)
    ensures AllStand(me, msgs, Deliver(me, msgs, st, x))
  {
    var st' := Deliver(me, msgs, st, x);
    KnownIds(me, msgs, st, x);
    forall y | y in msgs ensures Stands(me, msgs[y], st'.pos[y], st'.from[y], y, st'.rc) {
      if y == x { DeliverSelf(me, msgs, st, x); } else { DeliverOther(me, msgs, st, x, y); }
    }
  }

  lemma KnownIds(me: int, msgs: Messages, st: State, x: MsgId)
    requires AllStand(me, msgs, st) && Enabled(msgs, st, x)
    ensures var st' := Deliver(me, msgs, st, x);
            st'.pos.Keys == msgs.Keys && st'.from.Keys == msgs.Keys && st'.rc.Keys <= msgs.Keys
  {
  }

  lemma DeliverSelf(me: int, msgs: Messages, st: State, x: MsgId)
    requires AllStand(me, msgs, st) && Sendable(msgs) && Enabled(msgs, st, x)
    ensures var st' := Deliver(me, msgs, st, x); Stands(me, msgs[x], st'.pos[x], st'.from[x], x, st'.rc)
  {
    assert Stands(me, msgs[x], st.pos[x], st.from[x], x, st.rc);
    DoomedKnown(st.rc, x);
    SelfStands(me, msgs[x], st.pos[x], st.from[x], x, st.rc);
  }

  lemma DeliverOther(me: int, msgs: Messages, st: State, x: MsgId, y: MsgId)
    requires AllStand(me, msgs, st) && Sendable(msgs) && Enabled(msgs, st, x) && y in msgs && y != x
    ensures var st' := Deliver(me, msgs, st, x); Stands(me, msgs[y], st'.pos[y], st'.from[y], y, st'.rc)
  {
    assert Stands(me, msgs[y], st.pos[y], st.from[y], y, st.rc);
    OtherStands(me, msgs[y], st.pos[y], st.from[y], y, st.rc, Frag(x, msgs[x], st.pos[x]));
  }

  lemma DeliverCompletes(me: int, msgs: Messages, st: State, x: MsgId)
    requires AllStand(me, msgs, st) && Completed(me, msgs, st) && Sendable(msgs) && Enabled(msgs, st, x)
    ensures Completed(me, msgs, Deliver(me, msgs, st, x))
  {
    SelfStands(me, msgs[x], st.pos[x], st.from[x], x, st.rc);
    assert x !in st.done;
  }

  /** A completed message is not in the cache, so it is never forgotten again. */
  lemma DeliverReturns(me: int, msgs: Messages, st: State, x: MsgId)
    requires AllStand(me, msgs, st) && Completed(me, msgs, st) && Returned(msgs, st) && Sendable(msgs) && Enabled(msgs, st, x)
    ensures Returned(msgs, Deliver(me, msgs, st, x))
  {
    var st' := Deliver(me, msgs, st, x);
    SelfStands(me, msgs[x], st.pos[x], st.from[x], x, st.rc);
    DoomedKnown(st.rc, x);
    forall i | 0 <= i < |st.done| ensures st'.from[st.done[i]] == st.from[st.done[i]] {
      var y := st.done[i];
      assert y in st.done && Stands(me, msgs[y], st.pos[y], st.from[y], y, st.rc);
    }
    assert st'.from[x] == st.from[x];
  }

  lemma DeliverInv(me: int, msgs: Messages, st: State, x: MsgId)
    requires Inv(me, msgs, st) && Sendable(msgs) && Enabled(msgs, st, x)
    ensures Inv(me, msgs, Deliver(me, msgs, st, x))
  {
    DeliverStands(me, msgs, st, x);
    DeliverCompletes(me, msgs, st, x);
    DeliverReturns(me, msgs, st, x);
    DeliverWire(me, msgs, st, x);
  }

  lemma DeliverWire(me: int, msgs: Messages, st: State, x: MsgId)
    requires WellFormed(st.wire) && Outcome(st.rc, st.outs) == AcceptAll(me, map[], st.wire) && Enabled(msgs, st, x)
    ensures var st' := Deliver(me, msgs, st, x);
            WellFormed(st'.wire) && Outcome(st'.rc, st'.outs) == AcceptAll(me, map[], st'.wire)
  {
    var f := Frag(x, msgs[x], st.pos[x]);
    assert (st.wire + [f])[..|st.wire|] == st.wire;
  }

  /**
   Reassembly inverts fragmentation.  For every interleaving of the fragment streams,
   the receiver has returned exactly the messages all of whose fragments arrived, each
   once and in order of completion; and message `x` came back from fragment
   `from[x]` on, where `from[x]` is 0 unless the cache forgot it on the way.
   */
  lemma {:induction false} ReassemblyExact(me: int, msgs: Messages, schedule: seq<MsgId>)
    requires Sendable(msgs)
    ensures Inv(me, msgs, Exec(me, msgs, schedule))
  {
    if schedule != [] {
      var st := Exec(me, msgs, schedule[..|schedule| - 1]);
      ReassemblyExact(me, msgs, schedule[..|schedule| - 1]);
      var x := schedule[|schedule| - 1];
      if Enabled(msgs, st, x) { DeliverInv(me, msgs, st, x); }
    }
  }

  /** A returned buffer holds the message's exact bytes if and only if the cache never forgot it. */
  lemma IntactIffNeverForgotten(me: int, msgs: Messages, schedule: seq<MsgId>, i: nat)
    requires Sendable(msgs) && i < |Exec(me, msgs, schedule).outs|
    ensures var st := Exec(me, msgs, schedule);
            && |st.done| == |st.outs| && st.done[i] in msgs && st.done[i] in st.from
            && (st.outs[i].data == msgs[st.done[i]].bytes <==> st.from[st.done[i]] == 0)
            && |st.outs[i].data| == st.outs[i].size
  {
    ReassemblyExact(me, msgs, schedule);
  }

  // --------------------------------------------- what makes the cache forget

  /** How many fragments of `x` are on the wire. */
  function Arrivals(wire: seq<Fragment>, x: MsgId): nat {
    if wire == [] then 0 else Arrivals(wire[..|wire| - 1], x) + if wire[|wire| - 1].id == x then 1 else 0
  }

  /**
   The guard of the pruning branch, for the fragment at `k` and message `x`: somebody
   else's fragment with more to come finds no entry of its own in a cache of more than
   1024, its id is more than 8192 away from `x`, and `x` has arrived in part.
   */
  ghost predicate PrunedAt(me: int, msgs: Messages, wire: seq<Fragment>, k: nat, x: MsgId)
    requires k < |wire| && WellFormed(wire) && x in msgs
  {
    var rc, f := AcceptAll(me, map[], wire[..k]).rc, wire[k];
    && f.conn != me && f.remain > 0 && f.id !in rc && |rc| > CACHE && (x - f.id > FAR || f.id - x > FAR)
    && msgs[x].conn != me && 0 < Arrivals(wire[..k], x) < Count(|msgs[x].bytes|)
  }

  ghost predicate Pruned(me: int, msgs: Messages, wire: seq<Fragment>, x: MsgId)
    requires WellFormed(wire) && x in msgs
  {
    exists k :: 0 <= k < |wire| && PrunedAt(me, msgs, wire, k, x)
  }

  /** Positions count arrivals, and a message was forgotten exactly when the guard held for it. */
  ghost predicate Accounted(me: int, msgs: Messages, st: State, x: MsgId) {
    && WellFormed(st.wire) && x in msgs && x in st.pos && x in st.from
    && st.pos[x] == Arrivals(st.wire, x) && (st.from[x] != 0 <==> Pruned(me, msgs, st.wire, x))
  }

  lemma PrunedSnoc(me: int, msgs: Messages, wire: seq<Fragment>, f: Fragment, x: MsgId)
    requires WellFormed(wire + [f]) && WellFormed(wire) && x in msgs
    ensures Pruned(me, msgs, wire + [f], x) <==> Pruned(me, msgs, wire, x) || PrunedAt(me, msgs, wire + [f], |wire|, x)
  {
    var all := wire + [f];
    forall k | 0 <= k < |wire| ensures PrunedAt(me, msgs, all, k, x) <==> PrunedAt(me, msgs, wire, k, x) {
      assert all[..k] == wire[..k];
    }
    if Pruned(me, msgs, wire, x) {
      var k :| 0 <= k < |wire| && PrunedAt(me, msgs, wire, k, x);
      assert PrunedAt(me, msgs, all, k, x);
    }
    if Pruned(me, msgs, all, x) && !PrunedAt(me, msgs, all, |wire|, x) {
      var k :| 0 <= k < |all| && PrunedAt(me, msgs, all, k, x);
      assert PrunedAt(me, msgs, wire, k, x);
    }
  }

  /** In one step, being forgotten and the guard are the same. */
  lemma ForgottenIffGuard(me: int, msgs: Messages, st: State, y: MsgId, x: MsgId)
    requires Inv(me, msgs, st) && Enabled(msgs, st, y) && x in msgs && st.pos[x] == Arrivals(st.wire, x)
    ensures var st' := Deliver(me, msgs, st, y);
            && WellFormed(st'.wire) && st'.wire == st.wire + [Frag(y, msgs[y], st.pos[y])]
            && (st'.from[x] != 0 <==> st.from[x] != 0 || PrunedAt(me, msgs, st'.wire, |st.wire|, x))
  {
    var st' := Deliver(me, msgs, st, y);
    DeliverWire(me, msgs, st, y);
    assert st'.wire[..|st.wire|] == st.wire;
    assert Stands(me, msgs[x], st.pos[x], st.from[x], x, st.rc);
    DoomedKnown(st.rc, y);
  }

  lemma AccountedStep(me: int, msgs: Messages, st: State, y: MsgId, x: MsgId)
    requires Inv(me, msgs, st) && Enabled(msgs, st, y) && Accounted(me, msgs, st, x)
    ensures Accounted(me, msgs, Deliver(me, msgs, st, y), x)
  {
    PositionStep(me, msgs, st, y, x);
    ForgottenIffGuard(me, msgs, st, y, x);
    PrunedSnoc(me, msgs, st.wire, Frag(y, msgs[y], st.pos[y]), x);
  }

  lemma PositionStep(me: int, msgs: Messages, st: State, y: MsgId, x: MsgId)
    requires Enabled(msgs, st, y) && x in st.pos && x in st.from && st.pos[x] == Arrivals(st.wire, x)
    ensures var st' := Deliver(me, msgs, st, y); x in st'.pos && x in st'.from && st'.pos[x] == Arrivals(st'.wire, x)
  {
    var f := Frag(y, msgs[y], st.pos[y]);
    assert (st.wire + [f])[..|st.wire|] == st.wire;
  }

  /** In every run a message was forgotten if and only if the pruning guard held for it at some arrival. */
  lemma {:induction false} ForgottenIffPruned(me: int, msgs: Messages, schedule: seq<MsgId>, x: MsgId)
    requires Sendable(msgs) && x in msgs
    ensures Accounted(me, msgs, Exec(me, msgs, schedule), x)
  {
    if schedule != [] {
      var init, y := schedule[..|schedule| - 1], schedule[|schedule| - 1];
      ForgottenIffPruned(me, msgs, init, x);
      ReassemblyExact(me, msgs, init);
      if Enabled(msgs, Exec(me, msgs, init), y) { AccountedStep(me, msgs, Exec(me, msgs, init), y, x); }
    }
  }

  /** A returned buffer holds the message's exact bytes if and only if no arrival pruned the message. */
  lemma IntactIffNeverPruned(me: int, msgs: Messages, schedule: seq<MsgId>, i: nat)
    requires Sendable(msgs) && i < |Exec(me, msgs, schedule).outs|
    ensures var st := Exec(me, msgs, schedule);
            && |st.done| == |st.outs| && st.done[i] in msgs && WellFormed(st.wire)
            && (st.outs[i].data == msgs[st.done[i]].bytes <==> !Pruned(me, msgs, st.wire, st.done[i]))
  {
    IntactIffNeverForgotten(me, msgs, schedule, i);
    ForgottenIffPruned(me, msgs, schedule, Exec(me, msgs, schedule).done[i]);
  }

  /** Nothing is forgotten in a step that finds at most 1024 partial messages, or none whose id is far off. */
  ghost predicate Roomy(rc: Partial, x: MsgId) {
    |rc| <= CACHE || forall y :: y in rc ==> y - x <= FAR && x - y <= FAR
  }

  ghost predicate AlwaysRoomy(me: int, msgs: Messages, schedule: seq<MsgId>) {
    forall i {:trigger schedule[i]} :: 0 <= i < |schedule| ==> Roomy(Exec(me, msgs, schedule[..i]).rc, schedule[i])
  }

  lemma {:induction false} RoomyForgetsNothing(me: int, msgs: Messages, schedule: seq<MsgId>)
    requires Sendable(msgs) && AlwaysRoomy(me, msgs, schedule)
    ensures forall x :: x in msgs ==> x in Exec(me, msgs, schedule).from && Exec(me, msgs, schedule).from[x] == 0
  {
    if schedule != [] {
      var init, x := schedule[..|schedule| - 1], schedule[|schedule| - 1];
      forall i | 0 <= i < |init| ensures Roomy(Exec(me, msgs, init[..i]).rc, init[i]) {
        assert init[..i] == schedule[..i] && init[i] == schedule[i];
      }
      RoomyForgetsNothing(me, msgs, init);
      assert Roomy(Exec(me, msgs, init).rc, x);
      if Enabled(msgs, Exec(me, msgs, init), x) { RoomyKeeps(me, msgs, Exec(me, msgs, init), x); }
    }
  }

  lemma RoomyKeeps(me: int, msgs: Messages, st: State, x: MsgId)
    requires Enabled(msgs, st, x) && Roomy(st.rc, x)
    ensures Deliver(me, msgs, st, x).from == st.from
  {
    assert Doomed(st.rc, x) == {};
  }

  /** With room in the cache throughout, every completed message comes back whole. */
  lemma RoomyIsExact(me: int, msgs: Messages, schedule: seq<MsgId>, i: nat)
    requires Sendable(msgs) && AlwaysRoomy(me, msgs, schedule) && i < |Exec(me, msgs, schedule).outs|
    ensures var st := Exec(me, msgs, schedule);
            |st.done| == |st.outs| && st.done[i] in msgs && st.outs[i].data == msgs[st.done[i]].bytes
  {
    RoomyForgetsNothing(me, msgs, schedule);
    IntactIffNeverForgotten(me, msgs, schedule, i);
  }

  // --------------------------------------------------- forgetting does happen

  const LATE: MsgId := 20000

  function Small(): Message { Message(1, Zeros(LEN + 1)) }

  /** 1025 two-fragment messages with neighbouring ids, and one with an id far away. */
  ghost predicate Crowd(msgs: Messages) {
    && (forall x :: x in msgs <==> 0 <= x <= CACHE || x == LATE)
    && forall x :: x in msgs ==> msgs[x] == Small()
  }

  lemma CrowdSendable(msgs: Messages)
    requires Crowd(msgs)
    ensures Sendable(msgs)
  {
  }

  function FirstIds(n: nat): (r: seq<MsgId>)
    requires n <= CACHE + 1
    ensures |r| == n && forall i :: 0 <= i < n ==> r[i] == i
  {
    seq(n, i requires 0 <= i < n => i)
  }

  lemma {:induction false} IdsSize(ids: set<MsgId>, n: nat)
    requires n <= CACHE + 1 && forall x :: x in ids <==> 0 <= x < n
    ensures |ids| == n
  {
    if n > 0 {
      IdsSize(ids - {n - 1}, n - 1);
    } else {
      assert ids == {};
    }
  }

  /** One fragment each of the first `n` messages has arrived. */
  ghost predicate Crowded(msgs: Messages, st: State, n: nat) {
    && AllStand(0, msgs, st) && st.outs == [] && st.done == []
    && forall x :: x in msgs ==> st.from[x] == 0 && st.pos[x] == if x < n then 1 else 0
  }

  lemma CrowdCached(msgs: Messages, st: State, n: nat)
    requires Crowd(msgs) && Crowded(msgs, st, n) && n <= CACHE + 1
    ensures |st.rc| == n && forall x :: x in st.rc <==> 0 <= x < n
  {
    forall x ensures x in st.rc <==> 0 <= x < n {
      if x in msgs { assert Stands(0, msgs[x], st.pos[x], st.from[x], x, st.rc); }
    }
    IdsSize(st.rc.Keys, n);
  }

  /** The first of two fragments returns nothing. */
  lemma FirstIsSilent(msgs: Messages, st: State, x: MsgId)
    requires AllStand(0, msgs, st) && x in msgs && msgs[x] == Small() && st.pos[x] == 0
    ensures Enabled(msgs, st, x) && Deliver(0, msgs, st, x).outs == st.outs && Deliver(0, msgs, st, x).done == st.done
  {
    assert Stands(0, msgs[x], st.pos[x], st.from[x], x, st.rc);
    SelfStands(0, Small(), 0, st.from[x], x, st.rc);
  }

  /** A message forgotten after its first fragment returns its last byte. */
  lemma LastByte(msgs: Messages, st: State, x: MsgId)
    requires AllStand(0, msgs, st) && x in msgs && msgs[x] == Small() && st.pos[x] == 1 && st.from[x] == 1
    requires st.outs == [] && st.done == []
    ensures Enabled(msgs, st, x)
    ensures var st' := Deliver(0, msgs, st, x); st'.done == [x] && |st'.outs| == 1 && |st'.outs[0].data| == 1
  {
    assert Stands(0, msgs[x], st.pos[x], st.from[x], x, st.rc);
    SelfStands(0, Small(), 1, 1, x, st.rc);
  }

  lemma CrowdRoomy(msgs: Messages, st: State, n: nat)
    requires Crowd(msgs) && Crowded(msgs, st, n) && n <= CACHE
    ensures Roomy(st.rc, n)
  {
    CrowdCached(msgs, st, n);
  }

  lemma CrowdNext(msgs: Messages, st: State, n: nat)
    requires Crowd(msgs) && Crowded(msgs, st, n) && n <= CACHE
    ensures Enabled(msgs, st, n) && Crowded(msgs, Deliver(0, msgs, st, n), n + 1)
  {
    FirstIsSilent(msgs, st, n);
    CrowdSendable(msgs);
    DeliverStands(0, msgs, st, n);
    CrowdRoomy(msgs, st, n);
    RoomyKeeps(0, msgs, st, n);
  }

  lemma {:induction false} CrowdArrives(msgs: Messages, n: nat)
    requires Crowd(msgs) && n <= CACHE + 1
    ensures Crowded(msgs, Exec(0, msgs, FirstIds(n)), n)
  {
    if n == 0 {
      assert FirstIds(0) == [];
    } else {
      CrowdArrives(msgs, n - 1);
      assert FirstIds(n)[..n - 1] == FirstIds(n - 1);
      CrowdNext(msgs, Exec(0, msgs, FirstIds(n - 1)), n - 1);
    }
  }

  /** The far-away message makes the cache forget message 0. */
  lemma LateForgets(msgs: Messages, st: State)
    requires Crowd(msgs) && Crowded(msgs, st, CACHE + 1)
    ensures Enabled(msgs, st, LATE)
    ensures var st' := Deliver(0, msgs, st, LATE);
            AllStand(0, msgs, st') && st'.outs == [] && st'.done == [] && 0 in msgs && st'.from[0] == 1 && st'.pos[0] == 1
  {
    CrowdCached(msgs, st, CACHE + 1);
    assert LATE in msgs && 0 in msgs;
    FirstIsSilent(msgs, st, LATE);
    assert 0 in Doomed(st.rc, LATE);
    CrowdSendable(msgs);
    DeliverStands(0, msgs, st, LATE);
  }

  lemma CutShort(msgs: Messages, st: State)
    requires Crowd(msgs) && Crowded(msgs, st, CACHE + 1)
    ensures Enabled(msgs, st, LATE) && Enabled(msgs, Deliver(0, msgs, st, LATE), 0)
    ensures var st' := Deliver(0, msgs, Deliver(0, msgs, st, LATE), 0);
            st'.done == [0] && |st'.outs| == 1 && |st'.outs[0].data| == 1
  {
    LateForgets(msgs, st);
    LastByte(msgs, Deliver(0, msgs, st, LATE), 0);
  }

  lemma ExecSnoc(me: int, msgs: Messages, schedule: seq<MsgId>, x: MsgId)
    requires Enabled(msgs, Exec(me, msgs, schedule), x)
    ensures Exec(me, msgs, schedule + [x]) == Deliver(me, msgs, Exec(me, msgs, schedule), x)
  {
    assert (schedule + [x])[..|schedule|] == schedule;
  }

  /** A 65-byte message comes back as its last byte alone. */
  lemma ForgottenMessageIsCutShort(msgs: Messages)
    requires Crowd(msgs)
    ensures Sendable(msgs)
    ensures var st := Exec(0, msgs, FirstIds(CACHE + 1) + [LATE] + [0]);
            st.done == [0] && |st.outs| == 1 && |st.outs[0].data| == 1
  {
    var first := FirstIds(CACHE + 1);
    CrowdSendable(msgs);
    CrowdArrives(msgs, CACHE + 1);
    CutShort(msgs, Exec(0, msgs, first));
    ExecSnoc(0, msgs, first, LATE);
    ExecSnoc(0, msgs, first + [LATE], 0);
  }
}
