/**
 Demeter's request placement in the coordinator (`demeter_scheduler.cpp`): the least
 allocation that fits, and greedy placement by affinity over nodes with free executors.
 Affinity scores and the random fallback are arbitrary parameters.
 */
module Placement {

  // ---------------------------------------------------------------- allocations

  datatype Allocation = Allocation(name: string, cpu: real, memory: int)

  predicate Fits(a: Allocation, required: real) {
    a.memory as real >= required
  }

  /** Less memory, or equal memory and fewer cores. */
  predicate Smaller(a: Allocation, b: Allocation) {
    a.memory < b.memory || (a.memory == b.memory && a.cpu < b.cpu)
  }

  ghost predicate LeastFit(allocs: seq<Allocation>, required: real, r: Allocation) {
    && r in allocs && r.memory as real >= required
    && forall i :: 0 <= i < |allocs| && allocs[i].memory as real >= required ==>
         r.memory < allocs[i].memory || (r.memory == allocs[i].memory && r.cpu <= allocs[i].cpu)
  }

  /** `choose_allocation`: the least that fits, else the last one, else a default. */
  method ChooseAllocation(allocs: seq<Allocation>, required: real) returns (r: Allocation)
    ensures allocs == [] ==> r == Allocation("default", 1.0, 128)
    ensures (exists i :: 0 <= i < |allocs| && allocs[i].memory as real >= required) ==> LeastFit(allocs, required, r)
    ensures allocs != [] && (forall i :: 0 <= i < |allocs| ==> (allocs[i].memory as real) < required) ==> r == allocs[|allocs| - 1]
  {
    if allocs == [] { return Allocation("default", 1.0, 128); }
    var best, found := allocs[0], false;
    for i := 0 to |allocs|
      invariant found <==> exists j :: 0 <= j < i && allocs[j].memory as real >= required
      invariant found ==> LeastFit(allocs[..i], required, best)
    {
      var a := allocs[i];
      assert allocs[..i + 1] == allocs[..i] + [a];
      if Fits(a, required) {
        if !found || Smaller(a, best) { best, found := a, true; }
      }
    }
    assert allocs[..|allocs|] == allocs;
    r := if found then best else allocs[|allocs| - 1];
  }

  // ------------------------------------------------------------------ placement

  datatype Address = Address(ip: string)

  datatype Request = Request(name: string, required: real)

  /** A request as it is routed, with its allocation. */
  datatype Routed = Routed(req: Request, alloc: Allocation)

  type Free = map<Address, int>

  predicate Eligible(free: Free, source: Address, a: Address) {
    a in free && free[a] > 0 && (source.ip == "" || a != source)
  }

  /** What a node can take: its free executors, nothing on the source. */
  function Room(free: Free, source: Address, a: Address): nat {
    if Eligible(free, source, a) then free[a] else 0
  }

  /** Room on the first `k` nodes together. */
  function Capacity(nodes: seq<Address>, k: nat, free: Free, source: Address): nat
    requires k <= |nodes|
  {
    if k == 0 then 0 else Capacity(nodes, k - 1, free, source) + Room(free, source, nodes[k - 1])
  }

  ghost predicate Distinct(nodes: seq<Address>) {
    forall i, j :: 0 <= i < j < |nodes| ==> nodes[i] != nodes[j]
  }

  lemma {:induction false} NoCapacity(nodes: seq<Address>, k: nat, free: Free, source: Address)
    requires k <= |nodes|
    ensures Capacity(nodes, k, free, source) == 0 <==> forall i :: 0 <= i < k ==> !Eligible(free, source, nodes[i])
  {
    if k > 0 { NoCapacity(nodes, k - 1, free, source); }
  }

  /** Taking an executor of one node. */
  lemma {:induction false} CapacityDrops(nodes: seq<Address>, k: nat, free: Free, source: Address, a: Address)
    requires k <= |nodes| && Distinct(nodes) && a in free && free[a] > 0
    ensures Capacity(nodes, k, free[a := free[a] - 1], source) + (if a in nodes[..k] && Eligible(free, source, a) then 1 else 0)
            == Capacity(nodes, k, free, source)
  {
    if k > 0 {
      CapacityDrops(nodes, k - 1, free, source, a);
      assert nodes[..k] == nodes[..k - 1] + [nodes[k - 1]];
      assert nodes[k - 1] !in nodes[..k - 1];
    }
  }

  /** The first of the eligible nodes with the best score. */
  ghost predicate Best(nodes: seq<Address>, free: Free, source: Address, score: Address -> real, i: nat) {
    && i < |nodes| && Eligible(free, source, nodes[i])
    && (forall j :: 0 <= j < |nodes| && Eligible(free, source, nodes[j]) ==> score(nodes[j]) <= score(nodes[i]))
    && forall j :: 0 <= j < i && Eligible(free, source, nodes[j]) ==> score(nodes[j]) < score(nodes[i])
  }

  ghost predicate IsBest(nodes: seq<Address>, free: Free, source: Address, score: Address -> real, a: Address) {
    exists i: nat :: Best(nodes, free, source, score, i) && nodes[i] == a
  }

  /** The node loop for one request; the result is `|nodes|` if no node is eligible. */
  method PickNode(nodes: seq<Address>, free: Free, source: Address, score: Address -> real) returns (best: nat)
    requires forall i :: 0 <= i < |nodes| ==> nodes[i] in free
    ensures if exists i :: 0 <= i < |nodes| && Eligible(free, source, nodes[i]) then Best(nodes, free, source, score, best) else best == |nodes|
  {
    best := |nodes|;
    for i := 0 to |nodes|
      invariant best == |nodes| || best < i
      invariant best == |nodes| ==> forall j :: 0 <= j < i ==> !Eligible(free, source, nodes[j])
      invariant best < |nodes| ==> Best(nodes[..i], free, source, score, best)
    {
      var a := nodes[i];
      if source.ip != "" && source == a { continue; }
      if free[a] <= 0 { continue; }
      if best == |nodes| || score(a) > score(nodes[best]) { best := i; }
    }
    assert nodes[..|nodes|] == nodes;
  }

  function Load(route: seq<Address>, a: Address): nat { multiset(route)[a] }

  /** What is left of `f` free executors after `load` requests: the counter stops at zero. */
  function Left(f: int, load: nat): int {
    if f <= 0 then f else if load >= f then 0 else f - load
  }

  /** The requests sent to `a`, in their original order. */
  function Share(reqs: seq<Routed>, route: seq<Address>, a: Address): seq<Routed>
    requires |route| == |reqs|
  {
    if reqs == [] then []
    else
      var n := |reqs| - 1;
      Share(reqs[..n], route[..n], a) + if route[n] == a then [reqs[n]] else []
  }

  /** A share holds its node's requests in the order of the batch: as many as the node's load, each after the earlier ones. */
  lemma {:induction false} ShareAt(reqs: seq<Routed>, route: seq<Address>, a: Address, p: nat)
    requires |route| == |reqs| && p < |reqs| && route[p] == a
    ensures |Share(reqs, route, a)| == Load(route, a) && Load(route[..p], a) < Load(route, a)
    ensures Share(reqs, route, a)[Load(route[..p], a)] == reqs[p]
    decreases |reqs|
  {
    var n := |reqs| - 1;
    assert route == route[..n] + [route[n]];
    ShareSize(reqs[..n], route[..n], a);
    if p < n {
      ShareAt(reqs[..n], route[..n], a, p);
      assert route[..n][..p] == route[..p];
    }
  }

  lemma {:induction false} ShareSize(reqs: seq<Routed>, route: seq<Address>, a: Address)
    requires |route| == |reqs|
    ensures |Share(reqs, route, a)| == Load(route, a)
  {
    if reqs != [] {
      var n := |reqs| - 1;
      assert route == route[..n] + [route[n]];
      ShareSize(reqs[..n], route[..n], a);
    }
  }

  ghost predicate Shares(out: map<Address, seq<Routed>>, reqs: seq<Routed>, route: seq<Address>)
    requires |route| == |reqs|
  {
    forall a {:trigger Share(reqs, route, a)} :: if a in out then out[a] == Share(reqs, route, a) else Share(reqs, route, a) == []
  }

  /** Each counter dropped by its node's load, but not below zero. */
  ghost predicate Counters(free0: Free, free: Free, route: seq<Address>) {
    free.Keys == free0.Keys && forall a {:trigger free[a]} :: a in free0 ==> free[a] == Left(free0[a], Load(route, a))
  }

  /** As long as there is capacity every request takes one unit of it. */
  ghost predicate CapacityLeft(cap: nat, left: nat, n: nat) {
    left == if n <= cap then cap - n else 0
  }

  /** No node has more than its room, and the source nothing. */
  ghost predicate Within(free0: Free, source: Address, route: seq<Address>) {
    forall a {:trigger Load(route, a)} :: Load(route, a) <= Room(free0, source, a)
  }

  /** The state after some requests. */
  ghost predicate Placed(nodes: seq<Address>, source: Address, free0: Free, free: Free, route: seq<Address>) {
    && (forall i :: 0 <= i < |route| ==> route[i] in nodes)
    && Counters(free0, free, route)
    && CapacityLeft(Capacity(nodes, |nodes|, free0, source), Capacity(nodes, |nodes|, free, source), |route|)
    && (|route| <= Capacity(nodes, |nodes|, free0, source) ==> Within(free0, source, route))
  }

  function Taken(free: Free, a: Address): Free
    requires a in free
  {
    if free[a] > 0 then free[a := free[a] - 1] else free
  }

  lemma LoadNext(route: seq<Address>, a: Address, x: Address)
    ensures Load(route + [a], x) == Load(route, x) + if x == a then 1 else 0
  {
  }

  lemma CountersNext(free0: Free, free: Free, route: seq<Address>, a: Address)
    requires Counters(free0, free, route) && a in free
    ensures Counters(free0, Taken(free, a), route + [a])
  {
    forall x | x in free0 ensures Taken(free, a)[x] == Left(free0[x], Load(route + [a], x)) { LoadNext(route, a, x); }
  }

  lemma CapacityNext(nodes: seq<Address>, source: Address, cap: nat, free: Free, n: nat, a: Address)
    requires Distinct(nodes) && a in nodes && a in free && CapacityLeft(cap, Capacity(nodes, |nodes|, free, source), n)
    requires Capacity(nodes, |nodes|, free, source) > 0 ==> Eligible(free, source, a)
    ensures CapacityLeft(cap, Capacity(nodes, |nodes|, Taken(free, a), source), n + 1)
  {
    assert nodes[..|nodes|] == nodes;
    NoCapacity(nodes, |nodes|, free, source);
    if free[a] > 0 { CapacityDrops(nodes, |nodes|, free, source, a); }
  }

  lemma WithinNext(free0: Free, free: Free, source: Address, route: seq<Address>, a: Address)
    requires Counters(free0, free, route) && Within(free0, source, route) && Eligible(free, source, a)
    ensures Within(free0, source, route + [a])
  {
    forall x ensures Load(route + [a], x) <= Room(free0, source, x) {
      LoadNext(route, a, x);
      assert Load(route, x) <= Room(free0, source, x);
    }
    assert free[a] == Left(free0[a], Load(route, a));
  }

  lemma PlacedNext(nodes: seq<Address>, source: Address, free0: Free, free: Free, route: seq<Address>, a: Address)
    requires Distinct(nodes) && Placed(nodes, source, free0, free, route) && a in nodes && a in free
    requires Capacity(nodes, |nodes|, free, source) > 0 ==> Eligible(free, source, a)
    ensures Placed(nodes, source, free0, Taken(free, a), route + [a])
  {
    CountersNext(free0, free, route, a);
    CapacityNext(nodes, source, Capacity(nodes, |nodes|, free0, source), free, |route|, a);
    if |route| < Capacity(nodes, |nodes|, free0, source) { WithinNext(free0, free, source, route, a); }
  }

  lemma SharesNext(out: map<Address, seq<Routed>>, reqs: seq<Routed>, route: seq<Address>, r: Routed, a: Address)
    requires |route| == |reqs| && Shares(out, reqs, route)
    ensures Shares(out[a := (if a in out then out[a] else []) + [r]], reqs + [r], route + [a])
  {
    var out' := out[a := (if a in out then out[a] else []) + [r]];
    forall x ensures if x in out' then out'[x] == Share(reqs + [r], route + [a], x) else Share(reqs + [r], route + [a], x) == [] {
      assert (reqs + [r])[..|reqs|] == reqs && (route + [a])[..|reqs|] == route;
      assert if x in out then out[x] == Share(reqs, route, x) else Share(reqs, route, x) == [];
    }
  }

  /** How the routed requests relate to the batch: the same requests, each with its least fitting allocation. */
  ghost predicate Equipped(allocs: seq<Allocation>, reqs: seq<Request>, routed: seq<Routed>) {
    |routed| == |reqs| && forall i :: 0 <= i < |reqs| ==> routed[i].req == reqs[i] && WellAllocated(allocs, reqs[i], routed[i].alloc)
  }

  ghost predicate WellAllocated(allocs: seq<Allocation>, req: Request, r: Allocation) {
    && (allocs == [] ==> r == Allocation("default", 1.0, 128))
    && ((exists i :: 0 <= i < |allocs| && allocs[i].memory as real >= req.required) ==> LeastFit(allocs, req.required, r))
    && (allocs != [] && (forall i :: 0 <= i < |allocs| ==> (allocs[i].memory as real) < req.required) ==> r == allocs[|allocs| - 1])
  }

  /** The counters after requests went along `route`. */
  function FreeAfter(free0: Free, route: seq<Address>): Free {
    if route == [] then free0
    else
      var f := FreeAfter(free0, route[..|route| - 1]);
      if route[|route| - 1] in f then Taken(f, route[|route| - 1]) else f
  }

  type Score = (Free, Request, Address) -> real

  /** The scores of the nodes for one request, given the counters at the time. */
  function ScoreFor(score: Score, free: Free, req: Request): Address -> real {
    x => score(free, req, x)
  }

  /** A request went to the first best-scoring node with room, if any node had room when its turn came. */
  ghost predicate GreedyAt(nodes: seq<Address>, source: Address, free0: Free, reqs: seq<Request>, score: Score, route: seq<Address>, i: nat)
    requires i < |route| == |reqs|
  {
    var free := FreeAfter(free0, route[..i]);
    Capacity(nodes, |nodes|, free, source) > 0 ==> IsBest(nodes, free, source, ScoreFor(score, free, reqs[i]), route[i])
  }

  ghost predicate Greedy(nodes: seq<Address>, source: Address, free0: Free, reqs: seq<Request>, score: Score, route: seq<Address>) {
    |route| == |reqs| && forall i {:trigger GreedyAt(nodes, source, free0, reqs, score, route, i)} ::
      0 <= i < |route| ==> GreedyAt(nodes, source, free0, reqs, score, route, i)
  }

  lemma GreedyNext(nodes: seq<Address>, source: Address, free0: Free, reqs: seq<Request>, score: Score, route: seq<Address>, req: Request, a: Address)
    requires Greedy(nodes, source, free0, reqs, score, route)
    requires var free := FreeAfter(free0, route);
             Capacity(nodes, |nodes|, free, source) > 0 ==> IsBest(nodes, free, source, ScoreFor(score, free, req), a)
    ensures Greedy(nodes, source, free0, reqs + [req], score, route + [a])
  {
    forall i | 0 <= i < |route| + 1 ensures GreedyAt(nodes, source, free0, reqs + [req], score, route + [a], i) {
      if i < |route| {
        assert GreedyAt(nodes, source, free0, reqs, score, route, i);
        assert (route + [a])[..i] == route[..i];
      } else {
        assert (route + [a])[..i] == route;
      }
    }
  }

  lemma FreeAfterNext(free0: Free, route: seq<Address>, a: Address)
    requires a in FreeAfter(free0, route)
    ensures FreeAfter(free0, route + [a]) == Taken(FreeAfter(free0, route), a)
  {
    assert (route + [a])[..|route|] == route;
  }

  /** One request: the best node with room, or, when there is none, any node at all. */
  method ChooseNode(nodes: seq<Address>, free: Free, source: Address, score: Address -> real, pick: nat) returns (a: Address)
    requires nodes != [] && forall x :: x in nodes <==> x in free
    ensures a in nodes && (Capacity(nodes, |nodes|, free, source) > 0 ==> Eligible(free, source, a))
    ensures Capacity(nodes, |nodes|, free, source) > 0 ==> IsBest(nodes, free, source, score, a)
  {
    var best := PickNode(nodes, free, source, score);
    NoCapacity(nodes, |nodes|, free, source);
    a := if best < |nodes| then nodes[best] else nodes[pick % |nodes|];
  }

  /**
   `demeter_schedule_function_call`.  Every request goes to exactly one node, in the
   original relative order, with its allocation.  While the nodes other than the source
   have executors free, nobody is given more than it had and the source nothing.
   */
  method Schedule(nodes: seq<Address>, free0: Free, source: Address, reqs: seq<Request>, allocs: seq<Allocation>,
                  score: Score, pick: nat -> nat)
    returns (out: map<Address, seq<Routed>>, free: Free, ghost routed: seq<Routed>, ghost route: seq<Address>)
    requires Distinct(nodes) && nodes != [] && forall x :: x in nodes <==> x in free0
    ensures Equipped(allocs, reqs, routed) && |route| == |reqs| && Shares(out, routed, route)
    ensures Placed(nodes, source, free0, free, route)
    ensures Greedy(nodes, source, free0, reqs, score, route)
  {
    out, free, routed, route := map[], free0, [], [];
    ProgressStart(nodes, source, free0, allocs, score);
    assert reqs[..0] == [];
    for i := 0 to |reqs|
      invariant Progress(nodes, source, free0, allocs, score, reqs[..i], out, free, routed, route)
    {
      assert reqs[..i + 1] == reqs[..i] + [reqs[i]];
      out, free, routed, route := PlaceOne(nodes, source, free0, allocs, score, reqs[..i], out, free, routed, route, reqs[i], pick(i));
    }
    assert reqs[..|reqs|] == reqs;
  }

  /** The body of the request loop. */
  method PlaceOne(nodes: seq<Address>, source: Address, ghost free0: Free, allocs: seq<Allocation>, score: Score, ghost reqs: seq<Request>,
                  out: map<Address, seq<Routed>>, free: Free, ghost routed: seq<Routed>, ghost route: seq<Address>, req: Request, pick: nat)
    returns (out': map<Address, seq<Routed>>, free': Free, ghost routed': seq<Routed>, ghost route': seq<Address>)
    requires Distinct(nodes) && nodes != [] && forall x :: x in nodes <==> x in free0
    requires Progress(nodes, source, free0, allocs, score, reqs, out, free, routed, route)
    ensures Progress(nodes, source, free0, allocs, score, reqs + [req], out', free', routed', route')
  {
    var a := ChooseNode(nodes, free, source, ScoreFor(score, free, req), pick);
    var alloc := ChooseAllocation(allocs, req.required);
    var r := Routed(req, alloc);
    ProgressNext(nodes, source, free0, allocs, score, reqs, out, free, routed, route, a, r);
    out' := out[a := (if a in out then out[a] else []) + [r]];
    free' := if free[a] > 0 then free[a := free[a] - 1] else free;
    routed', route' := routed + [r], route + [a];
  }

  ghost predicate Progress(nodes: seq<Address>, source: Address, free0: Free, allocs: seq<Allocation>, score: Score, reqs: seq<Request>,
                           out: map<Address, seq<Routed>>, free: Free, routed: seq<Routed>, route: seq<Address>) {
    && Equipped(allocs, reqs, routed) && |route| == |reqs| && Shares(out, routed, route)
    && Placed(nodes, source, free0, free, route)
    && free == FreeAfter(free0, route) && Greedy(nodes, source, free0, reqs, score, route)
  }

  lemma ProgressStart(nodes: seq<Address>, source: Address, free0: Free, allocs: seq<Allocation>, score: Score)
    ensures Progress(nodes, source, free0, allocs, score, [], map[], free0, [], [])
  {
  }

  lemma ProgressNext(nodes: seq<Address>, source: Address, free0: Free, allocs: seq<Allocation>, score: Score, reqs: seq<Request>,
                     out: map<Address, seq<Routed>>, free: Free, routed: seq<Routed>, route: seq<Address>, a: Address, r: Routed)
    requires Progress(nodes, source, free0, allocs, score, reqs, out, free, routed, route)
    requires Distinct(nodes) && a in nodes && a in free && WellAllocated(allocs, r.req, r.alloc)
    requires Capacity(nodes, |nodes|, free, source) > 0 ==>
               Eligible(free, source, a) && IsBest(nodes, free, source, ScoreFor(score, free, r.req), a)
    ensures Progress(nodes, source, free0, allocs, score, reqs + [r.req], out[a := (if a in out then out[a] else []) + [r]],
                     Taken(free, a), routed + [r], route + [a])
  {
    EquippedNext(allocs, reqs, routed, r);
    PlacedNext(nodes, source, free0, free, route, a);
    SharesNext(out, routed, route, r, a);
    GreedyNext(nodes, source, free0, reqs, score, route, r.req, a);
    FreeAfterNext(free0, route, a);
  }

  lemma EquippedNext(allocs: seq<Allocation>, reqs: seq<Request>, routed: seq<Routed>, r: Routed)
    requires Equipped(allocs, reqs, routed) && WellAllocated(allocs, r.req, r.alloc)
    ensures Equipped(allocs, reqs + [r.req], routed + [r])
  {
  }

  // -------------------------------------------------------------- exactly when

  function Loads(nodes: seq<Address>, k: nat, route: seq<Address>): nat
    requires k <= |nodes|
  {
    if k == 0 then 0 else Loads(nodes, k - 1, route) + Load(route, nodes[k - 1])
  }

  lemma {:induction false} LoadsNext(nodes: seq<Address>, k: nat, route: seq<Address>, a: Address)
    requires k <= |nodes| && Distinct(nodes)
    ensures Loads(nodes, k, route + [a]) == Loads(nodes, k, route) + if a in nodes[..k] then 1 else 0
  {
    if k > 0 {
      LoadsNext(nodes, k - 1, route, a);
      LoadNext(route, a, nodes[k - 1]);
      assert nodes[..k] == nodes[..k - 1] + [nodes[k - 1]];
    }
  }

  lemma {:induction false} LoadsZero(nodes: seq<Address>, k: nat)
    requires k <= |nodes|
    ensures Loads(nodes, k, []) == 0
  {
    if k > 0 { LoadsZero(nodes, k - 1); }
  }

  lemma {:induction false} LoadsAll(nodes: seq<Address>, route: seq<Address>)
    requires Distinct(nodes) && forall i :: 0 <= i < |route| ==> route[i] in nodes
    ensures Loads(nodes, |nodes|, route) == |route|
  {
    if route == [] {
      LoadsZero(nodes, |nodes|);
    } else {
      var init := route[..|route| - 1];
      LoadsAll(nodes, init);
      LoadsNext(nodes, |nodes|, init, route[|route| - 1]);
      assert route == init + [route[|route| - 1]] && nodes[..|nodes|] == nodes;
    }
  }

  lemma {:induction false} LoadsWithin(nodes: seq<Address>, k: nat, free0: Free, source: Address, route: seq<Address>)
    requires k <= |nodes| && Within(free0, source, route)
    ensures Loads(nodes, k, route) <= Capacity(nodes, k, free0, source)
  {
    if k > 0 {
      LoadsWithin(nodes, k - 1, free0, source, route);
      assert Load(route, nodes[k - 1]) <= Room(free0, source, nodes[k - 1]);
    }
  }

  /** Nobody is oversubscribed and the source is spared if and only if the other nodes have room for the whole batch. */
  lemma NeverOversubscribedIffRoom(nodes: seq<Address>, source: Address, free0: Free, free: Free, route: seq<Address>)
    requires Distinct(nodes) && Placed(nodes, source, free0, free, route)
    ensures Within(free0, source, route) <==> |route| <= Capacity(nodes, |nodes|, free0, source)
    ensures Within(free0, source, route) ==> forall a :: a in free0 && free0[a] >= 0 ==> free[a] == free0[a] - Load(route, a)
  {
    LoadsAll(nodes, route);
    if Within(free0, source, route) {
      LoadsWithin(nodes, |nodes|, free0, source, route);
      forall a | a in free0 && free0[a] >= 0 ensures free[a] == free0[a] - Load(route, a) {
        assert Load(route, a) <= Room(free0, source, a);
      }
    }
  }
}
