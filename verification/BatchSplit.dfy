/**
 Batch scheduling in the coordinator (`func_call_handler.cpp`): a batch that no single
 node can take is dealt out round robin over the free executors and then cut into
 contiguous slices.
 */
module BatchSplit {

  datatype Address = Address(ip: string)

  /** A node and its free executors. */
  datatype Node = Node(addr: Address, free: int)

  // ---------------------------------------------------------------- round robin

  function Min(a: int, b: int): int { if a < b then a else b }

  /** The first `k` loads added up. */
  function Pre(loads: seq<nat>, k: nat): nat
    requires k <= |loads|
  {
    if k == 0 then 0 else Pre(loads, k - 1) + loads[k - 1]
  }

  ghost predicate Caps(caps: seq<nat>) {
    forall i :: 0 <= i < |caps| ==> caps[i] > 0
  }

  /** Water-filling: after `r` whole rounds and the first `p` nodes of the next, nobody above its capacity. */
  ghost predicate Filled(caps: seq<nat>, loads: seq<nat>, r: nat, p: nat) {
    |loads| == |caps| && forall i :: 0 <= i < |caps| ==> loads[i] == Min(caps[i], if i < p then r + 1 else r)
  }

  lemma {:induction false} PreBump(loads: seq<nat>, i: nat, k: nat)
    requires i < |loads| && k <= |loads|
    ensures Pre(loads[i := loads[i] + 1], k) == Pre(loads, k) + if i < k then 1 else 0
  {
    if k > 0 { PreBump(loads, i, k - 1); }
  }

  lemma {:induction false} PreBelow(loads: seq<nat>, caps: seq<nat>, k: nat)
    requires |loads| == |caps| && k <= |caps| && forall i :: 0 <= i < |caps| ==> loads[i] <= caps[i]
    ensures Pre(loads, k) <= Pre(caps, k)
    ensures (forall i :: 0 <= i < k ==> loads[i] == caps[i]) ==> Pre(loads, k) == Pre(caps, k)
  {
    if k > 0 { PreBelow(loads, caps, k - 1); }
  }

  lemma {:induction false} PreZero(n: nat, k: nat)
    requires k <= n
    ensures Pre(seq(n, i => 0), k) == 0
  {
    if k > 0 { PreZero(n, k - 1); }
  }

  /** While requests are left, some node still has room. */
  lemma SomeRoom(loads: seq<nat>, caps: seq<nat>, r: nat, p: nat) returns (j: nat)
    requires Filled(caps, loads, r, p) && Pre(loads, |loads|) < Pre(caps, |caps|)
    ensures j < |caps| && loads[j] < caps[j]
  {
    if j' :| 0 <= j' < |caps| && loads[j'] < caps[j'] {
      j := j';
    } else {
      PreBelow(loads, caps, |caps|);
      assert false;
    }
  }

  /** How far the cursor still has to go to reach `j`. */
  function Distance(p: nat, j: nat, n: nat): int {
    if p <= j then j - p else j - p + n
  }

  /** The node after `p`, cyclically. */
  method Next(p: nat, n: nat) returns (q: nat)
    requires p < n
    ensures q == if p + 1 == n then 0 else p + 1
  {
    q := (p + 1) % n;
  }

  ghost function Rounds(r: nat, p: nat, n: nat): nat {
    if p + 1 == n then r + 1 else r
  }

  ghost function After(p: nat, n: nat): nat {
    if p + 1 == n then 0 else p + 1
  }

  /** Passing a full node, or serving one with room, moves the cursor on. */
  lemma CursorMoves(caps: seq<nat>, loads: seq<nat>, r: nat, p: nat)
    requires p < |caps| && Filled(caps, loads, r, p)
    ensures caps[p] <= loads[p] ==> Filled(caps, loads, Rounds(r, p, |caps|), After(p, |caps|))
    ensures loads[p] < caps[p] ==> Filled(caps, loads[p := loads[p] + 1], Rounds(r, p, |caps|), After(p, |caps|))
  {
  }

  /** The inner loop: skips nodes that are full. */
  method NextWithRoom(ghost caps: seq<nat>, ghost loads: seq<nat>, left: seq<int>, ghost r: nat, p: nat) returns (ghost r': nat, p': nat)
    requires p < |caps| == |left| && Filled(caps, loads, r, p) && Pre(loads, |loads|) < Pre(caps, |caps|)
    requires forall i :: 0 <= i < |caps| ==> left[i] == caps[i] - loads[i]
    ensures p' < |caps| && Filled(caps, loads, r', p') && left[p'] > 0
  {
    ghost var j := SomeRoom(loads, caps, r, p);
    r', p' := r, p;
    while left[p'] <= 0
      invariant p' < |caps| && Filled(caps, loads, r', p')
      decreases Distance(p', j, |caps|)
    {
      CursorMoves(caps, loads, r', p');
      r' := Rounds(r', p', |caps|);
      p' := Next(p', |left|);
    }
  }

  /** The loads that dealing `n` requests out leaves: everything dealt, nobody overloaded, as even as capacities allow. */
  method Deal(caps: seq<nat>, n: nat) returns (loads: seq<nat>, ghost r: nat, ghost p: nat)
    requires Caps(caps) && n <= Pre(caps, |caps|) && caps != []
    ensures Filled(caps, loads, r, p) && Pre(loads, |caps|) == n
  {
    loads := seq(|caps|, i => 0);
    var left: seq<int> := caps;
    var idx := 0;
    r, p := 0, 0;
    PreZero(|caps|, |caps|);
    for done := 0 to n
      invariant p == idx < |caps| == |left| && Filled(caps, loads, r, p) && Pre(loads, |caps|) == done
      invariant forall i :: 0 <= i < |caps| ==> left[i] == caps[i] - loads[i]
    {
      r, idx := NextWithRoom(caps, loads, left, r, idx);
      PreBump(loads, idx, |caps|);
      CursorMoves(caps, loads, r, idx);
      loads := loads[idx := loads[idx] + 1];
      left := left[idx := left[idx] - 1];
      r := Rounds(r, idx, |caps|);
      idx := Next(idx, |caps|);
      p := idx;
    }
  }

  /** A load below capacity is at most one below every other load. */
  lemma Fair(caps: seq<nat>, loads: seq<nat>, r: nat, p: nat, i: nat, j: nat)
    requires Filled(caps, loads, r, p) && i < |caps| && j < |caps| && loads[j] < caps[j]
    ensures loads[i] <= loads[j] + 1
  {
  }

  /** Nodes that get nothing come last. */
  lemma ZerosLast(caps: seq<nat>, loads: seq<nat>, r: nat, p: nat, i: nat, j: nat)
    requires Caps(caps) && Filled(caps, loads, r, p) && i <= j < |caps| && loads[i] == 0
    ensures loads[j] == 0
  {
    assert caps[i] > 0;
  }

  // -------------------------------------------------------------------- slicing

  lemma {:induction false} PreGrows(loads: seq<nat>, k: nat, l: nat)
    requires k <= l <= |loads|
    ensures Pre(loads, k) <= Pre(loads, l)
    ensures (forall i :: k <= i < l ==> loads[i] == 0) ==> Pre(loads, k) == Pre(loads, l)
  {
    if k < l { PreGrows(loads, k, l - 1); }
  }

  ghost predicate Distinct(nodes: seq<Node>) {
    forall i, j :: 0 <= i < j < |nodes| ==> nodes[i].addr != nodes[j].addr
  }

  ghost predicate ZeroSuffix(loads: seq<nat>) {
    forall i, j :: 0 <= i <= j < |loads| && loads[i] == 0 ==> loads[j] == 0
  }

  /** The share of node `l`: its slice of the request list, or no message if its load is zero. */
  ghost predicate Share<T>(out: map<Address, seq<T>>, nodes: seq<Node>, loads: seq<nat>, reqs: seq<T>, l: nat)
    requires l < |nodes| == |loads|
  {
    if loads[l] == 0 then nodes[l].addr !in out
    else
      && nodes[l].addr in out && Pre(loads, l) + loads[l] <= |reqs|
      && out[nodes[l].addr] == reqs[Pre(loads, l)..Pre(loads, l) + loads[l]]
  }

  ghost predicate Known(nodes: seq<Node>, a: Address) {
    exists l :: 0 <= l < |nodes| && nodes[l].addr == a
  }

  /** The slices, in node order, are the request list; nobody else gets anything. */
  ghost predicate Sliced<T>(out: map<Address, seq<T>>, nodes: seq<Node>, loads: seq<nat>, reqs: seq<T>) {
    && |loads| == |nodes| && Pre(loads, |loads|) == |reqs|
    && (forall l {:trigger Share(out, nodes, loads, reqs, l)} :: 0 <= l < |nodes| ==> Share(out, nodes, loads, reqs, l))
    && forall a {:trigger Known(nodes, a)} :: a in out ==> Known(nodes, a)
  }

  ghost predicate Pending<T>(out: map<Address, seq<T>>, nodes: seq<Node>, l: nat)
    requires l < |nodes|
  {
    nodes[l].addr !in out
  }

  /** The slicing loop before request `i`: the first `k` nodes have theirs, `cur` collects for the next. */
  ghost predicate Slicing<T>(out: map<Address, seq<T>>, nodes: seq<Node>, loads: seq<nat>, reqs: seq<T>, k: nat, i: nat) {
    && k <= |nodes| == |loads| && Pre(loads, k) <= i <= |reqs|
    && (if k < |nodes| && loads[k] > 0 then i < Pre(loads, k) + loads[k] else i == Pre(loads, k))
    && (forall l {:trigger Share(out, nodes, loads, reqs, l)} :: 0 <= l < k ==> loads[l] > 0 && Share(out, nodes, loads, reqs, l))
    && (forall l {:trigger Pending(out, nodes, l)} :: k <= l < |nodes| ==> Pending(out, nodes, l))
    && forall a {:trigger Known(nodes, a)} :: a in out ==> Known(nodes, a)
  }

  lemma ZerosFrom(loads: seq<nat>, k: nat)
    requires k < |loads| && loads[k] == 0 && ZeroSuffix(loads)
    ensures Pre(loads, k) == Pre(loads, |loads|)
  {
    PreGrows(loads, k, |loads|);
  }

  /** As long as a request is left, the node whose turn it is has a positive load. */
  lemma TurnHasLoad<T>(out: map<Address, seq<T>>, nodes: seq<Node>, loads: seq<nat>, reqs: seq<T>, k: nat, i: nat)
    requires Slicing(out, nodes, loads, reqs, k, i) && i < |reqs| == Pre(loads, |loads|) && ZeroSuffix(loads)
    ensures k < |nodes| && loads[k] > 0
  {
    if k < |nodes| && loads[k] == 0 { ZerosFrom(loads, k); }
  }

  lemma NothingLeft<T>(out: map<Address, seq<T>>, nodes: seq<Node>, loads: seq<nat>, reqs: seq<T>, k: nat)
    requires Slicing(out, nodes, loads, reqs, k, |reqs|) && |reqs| == Pre(loads, |loads|) && ZeroSuffix(loads)
    ensures Sliced(out, nodes, loads, reqs)
  {
    if k < |nodes| && loads[k] > 0 {
      PreGrows(loads, k + 1, |loads|);
      assert false;
    }
    forall l | 0 <= l < |nodes| ensures Share(out, nodes, loads, reqs, l) {
      assert l >= k ==> loads[l] == 0 && Pending(out, nodes, l);
    }
  }

  lemma SliceDone<T>(out: map<Address, seq<T>>, nodes: seq<Node>, loads: seq<nat>, reqs: seq<T>, k: nat, i: nat)
    requires Slicing(out, nodes, loads, reqs, k, i) && Distinct(nodes) && i < |reqs|
    requires k < |nodes| && loads[k] > 0 && i + 1 == Pre(loads, k) + loads[k]
    ensures Slicing(out[nodes[k].addr := reqs[Pre(loads, k)..i + 1]], nodes, loads, reqs, k + 1, i + 1)
  {
    var out' := out[nodes[k].addr := reqs[Pre(loads, k)..i + 1]];
    forall l | 0 <= l < k + 1 ensures loads[l] > 0 && Share(out', nodes, loads, reqs, l) {
      if l < k {
        assert Share(out, nodes, loads, reqs, l);
        assert nodes[l].addr != nodes[k].addr;
      }
    }
    forall l | k + 1 <= l < |nodes| ensures Pending(out', nodes, l) {
      assert Pending(out, nodes, l) && nodes[k].addr != nodes[l].addr;
    }
    forall a | a in out' ensures Known(nodes, a) { assert a != nodes[k].addr ==> Known(nodes, a); }
  }

  /** What the first `k` nodes get, one after the other. */
  function Routed<T>(out: map<Address, seq<T>>, nodes: seq<Node>, k: nat): seq<T>
    requires k <= |nodes|
  {
    if k == 0 then []
    else Routed(out, nodes, k - 1) + if nodes[k - 1].addr in out then out[nodes[k - 1].addr] else []
  }

  /** Every request is routed exactly once, in the order of the batch. */
  lemma {:induction false} RoutedInOrder<T>(out: map<Address, seq<T>>, nodes: seq<Node>, loads: seq<nat>, reqs: seq<T>, k: nat)
    requires Sliced(out, nodes, loads, reqs) && k <= |nodes|
    ensures Pre(loads, k) <= |reqs| && Routed(out, nodes, k) == reqs[..Pre(loads, k)]
  {
    PreGrows(loads, k, |loads|);
    if k > 0 {
      RoutedInOrder(out, nodes, loads, reqs, k - 1);
      assert Share(out, nodes, loads, reqs, k - 1);
      assert reqs[..Pre(loads, k)] == reqs[..Pre(loads, k - 1)] + reqs[Pre(loads, k - 1)..Pre(loads, k)];
    }
  }

  method Slice<T>(nodes: seq<Node>, loads: seq<nat>, reqs: seq<T>) returns (out: map<Address, seq<T>>)
    requires |loads| == |nodes| && Distinct(nodes) && Pre(loads, |loads|) == |reqs| && ZeroSuffix(loads)
    ensures Sliced(out, nodes, loads, reqs)
  {
    out := map[];
    var k, cur: seq<T> := 0, [];
    for i := 0 to |reqs|
      invariant Slicing(out, nodes, loads, reqs, k, i) && cur == reqs[Pre(loads, k)..i]
    {
      TurnHasLoad(out, nodes, loads, reqs, k, i);
      cur := cur + [reqs[i]];
      assert cur == reqs[Pre(loads, k)..i + 1];
      if |cur| == loads[k] {
        SliceDone(out, nodes, loads, reqs, k, i);
        out := out[nodes[k].addr := cur];
        k := k + 1;
        cur := [];
      }
    }
    NothingLeft(out, nodes, loads, reqs, k);
  }

  // ------------------------------------------------------------------ the handler

  /** The nodes with free executors, without the source. */
  function Available(nodes: seq<Node>, source: Address): (r: seq<Node>)
    ensures forall n :: n in r <==> n in nodes && n.free > 0 && (source.ip == "" || n.addr != source)
  {
    if nodes == [] then []
    else
      var init, l := nodes[..|nodes| - 1], nodes[|nodes| - 1];
      assert nodes == init + [l];
      var r := Available(init, source);
      if l.free > 0 && (source.ip == "" || l.addr != source) then r + [l] else r
  }

  /** The available nodes stand in the order of the node table. */
  lemma {:induction false} AvailableInOrder(nodes: seq<Node>, source: Address, i: nat, j: nat) returns (k: nat, l: nat)
    requires i < j < |Available(nodes, source)|
    ensures k < l < |nodes| && nodes[k] == Available(nodes, source)[i] && nodes[l] == Available(nodes, source)[j]
  {
    var init := nodes[..|nodes| - 1];
    var r := Available(init, source);
    if j < |r| {
      k, l := AvailableInOrder(init, source, i, j);
    } else {
      assert r[i] in init;
      k :| 0 <= k < |init| && init[k] == r[i];
      l := |init|;
    }
  }

  function Frees(nodes: seq<Node>): (r: seq<nat>)
    requires forall n :: n in nodes ==> n.free > 0
    ensures |r| == |nodes| && Caps(r) && forall i :: 0 <= i < |nodes| ==> r[i] == nodes[i].free
  {
    seq(|nodes|, i requires 0 <= i < |nodes| => nodes[i].free)
  }

  lemma {:induction false} AvailableDistinct(nodes: seq<Node>, source: Address)
    requires Distinct(nodes)
    ensures Distinct(Available(nodes, source))
  {
    if nodes != [] {
      var init, l := nodes[..|nodes| - 1], nodes[|nodes| - 1];
      AvailableDistinct(init, source);
      var r := Available(init, source);
      forall i | 0 <= i < |r| ensures r[i].addr != l.addr {
        assert r[i] in r;
        var j :| 0 <= j < |init| && init[j] == r[i];
        assert nodes[j].addr != nodes[|init|].addr;
      }
    }
  }

  lemma {:induction false} PreSnoc(loads: seq<nat>, x: nat, k: nat)
    requires k <= |loads|
    ensures Pre(loads + [x], k) == Pre(loads, k)
  {
    if k > 0 { PreSnoc(loads, x, k - 1); }
  }

  ghost predicate FirstAt(avail: seq<Node>, i: int, best: Address, most: int) {
    0 <= i < |avail| && avail[i] == Node(best, most) && forall j :: 0 <= j < i ==> avail[j].free < most
  }

  /** `best` is the first node with most free executors, if any has some. */
  ghost predicate IsBest(avail: seq<Node>, best: Address, most: int) {
    && most >= 0 && (forall i :: 0 <= i < |avail| ==> avail[i].free <= most)
    && (if avail == [] then most == 0 else exists i :: FirstAt(avail, i, best, most))
  }

  lemma BestNext(avail: seq<Node>, best: Address, most: int, n: Node)
    requires IsBest(avail, best, most) && n.free > 0
    ensures n.free > most ==> IsBest(avail + [n], n.addr, n.free)
    ensures n.free <= most ==> IsBest(avail + [n], best, most)
  {
    if n.free > most {
      assert FirstAt(avail + [n], |avail|, n.addr, n.free);
    } else {
      var i :| FirstAt(avail, i, best, most);
      assert FirstAt(avail + [n], i, best, most);
    }
  }

  ghost predicate Surveyed(nodes: seq<Node>, source: Address, avail: seq<Node>, total: int, best: Address, most: int) {
    avail == Available(nodes, source) && IsBest(avail, best, most) && total == Pre(Frees(avail), |avail|)
  }

  lemma SurveyNext(nodes: seq<Node>, source: Address, avail: seq<Node>, total: int, best: Address, most: int, n: Node)
    requires Surveyed(nodes, source, avail, total, best, most)
    ensures (source.ip != "" && n.addr == source) || n.free <= 0 ==> Surveyed(nodes + [n], source, avail, total, best, most)
    ensures n.free > 0 && (source.ip == "" || n.addr != source) ==>
              Surveyed(nodes + [n], source, avail + [n], total + n.free, if n.free > most then n.addr else best, if n.free > most then n.free else most)
  {
    AvailableNext(nodes, source, n);
    if n.free > 0 && (source.ip == "" || n.addr != source) {
      BestNext(avail, best, most, n);
      TotalNext(avail, n);
    }
  }

  lemma AvailableNext(nodes: seq<Node>, source: Address, n: Node)
    ensures Available(nodes + [n], source)
            == if n.free > 0 && (source.ip == "" || n.addr != source) then Available(nodes, source) + [n] else Available(nodes, source)
  {
    var all := nodes + [n];
    assert all[..|all| - 1] == nodes && all[|all| - 1] == n;
  }

  lemma TotalNext(avail: seq<Node>, n: Node)
    requires (forall x :: x in avail ==> x.free > 0) && n.free > 0
    ensures Pre(Frees(avail + [n]), |avail| + 1) == Pre(Frees(avail), |avail|) + n.free
  {
    PreSnoc(Frees(avail), n.free, |avail|);
    assert Frees(avail + [n]) == Frees(avail) + [n.free];
  }

  method Survey(nodes: seq<Node>, source: Address) returns (avail: seq<Node>, total: int, best: Address, most: int)
    ensures Surveyed(nodes, source, avail, total, best, most)
  {
    avail, total, best, most := [], 0, Address(""), 0;
    for i := 0 to |nodes|
      invariant Surveyed(nodes[..i], source, avail, total, best, most)
    {
      var n := nodes[i];
      SurveyNext(nodes[..i], source, avail, total, best, most, n);
      assert nodes[..i + 1] == nodes[..i] + [n];
      if source.ip != "" && source == n.addr { continue; }
      if n.free > 0 {
        total := total + n.free;
        avail := avail + [n];
      }
      if n.free > most { most, best := n.free, n.addr; }
    }
    assert nodes[..|nodes|] == nodes;
  }

  /** Some node can take the whole batch. */
  ghost predicate Enough(avail: seq<Node>, n: nat) {
    exists i :: 0 <= i < |avail| && avail[i].free >= n
  }

  /**
   A batch of several requests.  The first node with most free executors takes all if
   it can; otherwise, if the executors suffice together, the batch is dealt out; and
   otherwise nothing is scheduled.
   */
  method ScheduleBatch<T>(nodes: seq<Node>, source: Address, reqs: seq<T>)
    returns (out: map<Address, seq<T>>, ghost loads: seq<nat>, ghost r: nat, ghost p: nat)
    requires Distinct(nodes) && |reqs| > 1
    ensures Enough(Available(nodes, source), |reqs|) ==>
              exists best, most :: IsBest(Available(nodes, source), best, most) && out == map[best := reqs]
    ensures var avail := Available(nodes, source);
            !Enough(avail, |reqs|) && Pre(Frees(avail), |avail|) < |reqs| ==> out == map[]
    ensures var avail := Available(nodes, source);
            !Enough(avail, |reqs|) && Pre(Frees(avail), |avail|) >= |reqs| ==>
              Sliced(out, avail, loads, reqs) && Filled(Frees(avail), loads, r, p) && ZeroSuffix(loads)
  {
    loads, r, p := [], 0, 0;
    var avail, total, best, most := Survey(nodes, source);
    AvailableDistinct(nodes, source);
    if most >= |reqs| {
      out := map[best := reqs];
      assert Enough(avail, |reqs|) by {
        var i :| FirstAt(avail, i, best, most);
        assert avail[i].free >= |reqs|;
      }
    } else if total >= |reqs| {
      var dealt;
      dealt, r, p := Deal(Frees(avail), |reqs|);
      loads := dealt;
      forall i, j | 0 <= i <= j < |loads| && loads[i] == 0 ensures loads[j] == 0 { ZerosLast(Frees(avail), loads, r, p, i, j); }
      out := Slice(avail, dealt, reqs);
    } else {
      out := map[];
    }
  }
}
