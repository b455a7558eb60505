/**
 The function-level execution graph (`optimizer.py`): paths, cycles and the
 batches that `topological_batches` computes.
 */
module Dag {

  import Names
  import Sets

  type Id = string

  /** The functions in insertion order, with their predecessor and successor lists (edges may repeat). */
  datatype Graph = Graph(order: seq<Id>, preds: map<Id, seq<Id>>, succs: map<Id, seq<Id>>)

  ghost predicate NoDup(s: seq<Id>) {
    forall i, j :: 0 <= i < j < |s| ==> s[i] != s[j]
  }

  /** The order lists every function once. */
  ghost predicate Listed(g: Graph) {
    NoDup(g.order) && forall v :: v in g.order <==> v in g.preds
  }

  /** Lists stay inside the graph, and `b` follows `a` as often as `a` precedes `b`. */
  ghost predicate Valid(g: Graph) {
    && g.succs.Keys == g.preds.Keys
    && (forall v, i :: v in g.preds && 0 <= i < |g.preds[v]| ==> g.preds[v][i] in g.preds)
    && forall v {:trigger FanOut(g, v)} :: v in g.succs ==> FanOut(g, v)
  }

  /** The successors of one vertex: they list it as predecessor as often as it lists them. */
  ghost predicate FanOut(g: Graph, fid: Id) {
    && fid in g.succs
    && (forall i :: 0 <= i < |g.succs[fid]| ==> g.succs[fid][i] in g.preds)
    && forall b {:trigger multiset(g.preds[b])[fid]} :: b in g.preds ==> multiset(g.succs[fid])[b] == multiset(g.preds[b])[fid]
  }

  ghost predicate Edge(g: Graph, u: Id, v: Id) {
    v in g.preds && u in g.preds[v]
  }

  /** A path lists its vertices, so it has one edge less than it has entries. */
  ghost predicate IsPath(g: Graph, p: seq<Id>) {
    && p != [] && (forall i :: 0 <= i < |p| ==> p[i] in g.preds)
    && forall i :: 0 <= i < |p| - 1 ==> Edge(g, p[i], p[i + 1])
  }

  function Last(p: seq<Id>): Id
    requires p != []
  {
    p[|p| - 1]
  }

  ghost predicate PathTo(g: Graph, p: seq<Id>, v: Id) {
    IsPath(g, p) && Last(p) == v
  }

  /** `k` is the number of edges of a longest path into `v`, and such a path can start at a source. */
  ghost predicate LongestPathInto(g: Graph, v: Id, k: nat) {
    && (exists p :: PathTo(g, p, v) && |p| == k + 1 && p[0] in g.preds && g.preds[p[0]] == [])
    && forall p :: PathTo(g, p, v) ==> |p| <= k + 1
  }

  ghost predicate IsCycle(g: Graph, p: seq<Id>) {
    IsPath(g, p) && |p| > 1 && p[0] == Last(p)
  }

  ghost predicate Acyclic(g: Graph) {
    forall p :: !IsCycle(g, p)
  }

  /** The vertex lies on a cycle or comes after one. */
  ghost predicate Tainted(g: Graph, v: Id) {
    exists c, p :: IsCycle(g, c) && PathTo(g, p, v) && p[0] == Last(c)
  }

  // --------------------------------------------------------- walking backwards

  /** Distinct indices of a long enough sequence hold the same element. */
  lemma {:induction false} Pigeonhole(p: seq<Id>, u: set<Id>)
    requires (forall i :: 0 <= i < |p| ==> p[i] in u) && |p| > |u|
    ensures exists i, j :: 0 <= i < j < |p| && p[i] == p[j]
    decreases |u|
  {
    var x := p[0];
    if j :| 0 < j < |p| && p[j] == x {
      assert p[0] == p[j];
    } else {
      assert forall i :: 0 <= i < |p[1..]| ==> p[1..][i] in u - {x};
      Pigeonhole(p[1..], u - {x});
      var i, j :| 0 <= i < j < |p[1..]| && p[1..][i] == p[1..][j];
      assert p[i + 1] == p[j + 1];
    }
  }

  ghost predicate HasPredIn(g: Graph, u: set<Id>, v: Id) {
    exists y :: y in u && Edge(g, y, v)
  }

  /** Every member of the set has a predecessor in the set. */
  ghost predicate NoEntry(g: Graph, u: set<Id>) {
    forall x {:trigger HasPredIn(g, u, x)} :: x in u ==> x in g.preds && HasPredIn(g, u, x)
  }

  /** Inside a set whose members all have a predecessor in it, one can walk back as far as one likes. */
  lemma {:induction false} WalkBack(g: Graph, u: set<Id>, v: Id, n: nat) returns (p: seq<Id>)
    requires v in u && NoEntry(g, u)
    ensures PathTo(g, p, v) && |p| == n + 1 && forall i :: 0 <= i < |p| ==> p[i] in u
  {
    assert HasPredIn(g, u, v);
    if n == 0 {
      p := [v];
    } else {
      var q := WalkBack(g, u, v, n - 1);
      assert HasPredIn(g, u, q[0]);
      var y :| y in u && Edge(g, y, q[0]);
      assert HasPredIn(g, u, y);
      p := [y] + q;
      forall i | 0 <= i < |p| - 1 ensures Edge(g, p[i], p[i + 1]) {
        if i > 0 { assert Edge(g, q[i - 1], q[i]); }
      }
    }
  }

  /** A vertex of such a set is tainted. */
  lemma NoMinimum(g: Graph, u: set<Id>, v: Id)
    requires v in u && NoEntry(g, u)
    ensures Tainted(g, v)
  {
    var p := WalkBack(g, u, v, |u|);
    Pigeonhole(p, u);
    var i, j :| 0 <= i < j < |p| && p[i] == p[j];
    var c, q := p[i..j + 1], p[j..];
    SubPath(g, p, i, j + 1);
    SubPath(g, p, j, |p|);
    assert IsCycle(g, c) && PathTo(g, q, v) && q[0] == Last(c);
  }

  lemma SubPath(g: Graph, p: seq<Id>, i: nat, j: nat)
    requires IsPath(g, p) && i < j <= |p|
    ensures IsPath(g, p[i..j])
  {
    var q := p[i..j];
    forall k | 0 <= k < |q| - 1 ensures Edge(g, q[k], q[k + 1]) { assert Edge(g, p[i + k], p[i + k + 1]); }
  }

  // ------------------------------------------------------------------- layers

  function Members(s: seq<Id>): set<Id> {
    set i | 0 <= i < |s| :: s[i]
  }

  /** The vertices of the first `k` batches. */
  function Upto(bs: seq<seq<Id>>, k: nat): set<Id>
    requires k <= |bs|
  {
    if k == 0 then {} else Upto(bs, k - 1) + Members(bs[k - 1])
  }

  /** Every vertex of batch `k` has its predecessors in earlier batches, and one of them in the batch just before. */
  ghost predicate LayerOk(g: Graph, bs: seq<seq<Id>>, k: nat)
    requires k < |bs|
  {
    && NoDup(bs[k])
    && forall v :: v in bs[k] ==>
         && v in g.preds && v !in Upto(bs, k)
         && (forall u :: u in g.preds[v] ==> u in Upto(bs, k))
         && (k > 0 ==> HasPredIn(g, Members(bs[k - 1]), v))
  }

  ghost predicate LayersOk(g: Graph, bs: seq<seq<Id>>) {
    forall k {:trigger LayerOk(g, bs, k)} :: 0 <= k < |bs| ==> LayerOk(g, bs, k)
  }

  ghost predicate Layered(g: Graph, bs: seq<seq<Id>>) {
    && LayersOk(g, bs)
    && NoEntry(g, g.preds.Keys - Upto(bs, |bs|))
  }

  lemma {:induction false} UptoMember(bs: seq<seq<Id>>, k: nat, v: Id) returns (l: nat)
    requires k <= |bs| && v in Upto(bs, k)
    ensures l < k && v in bs[l]
  {
    if v in bs[k - 1] { l := k - 1; } else { l := UptoMember(bs, k - 1, v); }
  }

  lemma {:induction false} UptoGrows(bs: seq<seq<Id>>, k: nat, l: nat)
    requires k <= l <= |bs|
    ensures Upto(bs, k) <= Upto(bs, l)
  {
    if k < l { UptoGrows(bs, k, l - 1); }
  }

  lemma {:induction false} UptoPrefix(bs: seq<seq<Id>>, b: seq<Id>, k: nat)
    requires k <= |bs|
    ensures Upto(bs + [b], k) == Upto(bs, k)
  {
    if k > 0 { UptoPrefix(bs, b, k - 1); }
  }

  /** A path into a batch climbs at least one batch per edge. */
  lemma {:induction false} PathClimbs(g: Graph, bs: seq<seq<Id>>, p: seq<Id>, k: nat) returns (l: nat)
    requires Layered(g, bs) && IsPath(g, p) && k < |bs| && Last(p) in bs[k]
    ensures l + |p| - 1 <= k && p[0] in bs[l]
    decreases |p|
  {
    if |p| == 1 {
      l := k;
    } else {
      var q := p[..|p| - 1];
      assert Edge(g, p[|p| - 2], p[|p| - 1]);
      assert LayerOk(g, bs, k);
      var m := UptoMember(bs, k, Last(q));
      l := PathClimbs(g, bs, q, m);
    }
  }

  /** Walking back from batch to batch gives a path of full length from a source. */
  lemma {:induction false} PathDown(g: Graph, bs: seq<seq<Id>>, k: nat, v: Id) returns (p: seq<Id>)
    requires Layered(g, bs) && k < |bs| && v in bs[k]
    ensures PathTo(g, p, v) && |p| == k + 1 && g.preds[p[0]] == []
  {
    assert LayerOk(g, bs, k);
    if k == 0 {
      p := [v];
      OpenZero(g.preds[v], Upto(bs, 0));
      OpenNone(g.preds[v]);
    } else {
      var u :| u in Members(bs[k - 1]) && Edge(g, u, v);
      var q := PathDown(g, bs, k - 1, u);
      p := q + [v];
      ExtendPath(g, q, v);
    }
  }

  lemma ExtendPath(g: Graph, p: seq<Id>, v: Id)
    requires IsPath(g, p) && v in g.preds && Edge(g, Last(p), v)
    ensures IsPath(g, p + [v])
  {
    var q := p + [v];
    forall i | 0 <= i < |q| - 1 ensures Edge(g, q[i], q[i + 1]) {
      if i < |p| - 1 { assert Edge(g, p[i], p[i + 1]); }
    }
  }

  /** Batch numbers are longest path lengths. */
  lemma BatchIsLongestPath(g: Graph, bs: seq<seq<Id>>, k: nat, v: Id)
    requires Valid(g) && Layered(g, bs) && k < |bs| && v in bs[k]
    ensures LongestPathInto(g, v, k)
  {
    var p := PathDown(g, bs, k, v);
    forall q | PathTo(g, q, v) ensures |q| <= k + 1 { var _ := PathClimbs(g, bs, q, k); }
  }

  /** A vertex is in some batch exactly when it neither lies on a cycle nor comes after one. */
  lemma BatchedIffUntainted(g: Graph, bs: seq<seq<Id>>, v: Id)
    requires Valid(g) && Layered(g, bs) && v in g.preds
    ensures v in Upto(bs, |bs|) <==> !Tainted(g, v)
  {
    if v in Upto(bs, |bs|) {
      var k := UptoMember(bs, |bs|, v);
      forall c, p | IsCycle(g, c) && PathTo(g, p, v) && p[0] == Last(c) ensures false {
        var l := PathClimbs(g, bs, p, k);
        var m := PathClimbs(g, bs, c, l);
        DisjointBatches(g, bs, m, l, p[0]);
      }
    } else {
      NoMinimum(g, g.preds.Keys - Upto(bs, |bs|), v);
    }
  }

  /** A vertex is in one batch at most. */
  lemma DisjointBatches(g: Graph, bs: seq<seq<Id>>, k: nat, l: nat, v: Id)
    requires Layered(g, bs) && k <= l < |bs| && v in bs[k] && v in bs[l]
    ensures k == l
  {
    assert LayerOk(g, bs, l);
    if k < l { UptoGrows(bs, k + 1, l); }
  }

  // -------------------------------------------------------- the batch algorithm

  function OpenAt(s: seq<Id>, done: set<Id>): set<nat> {
    set i: nat | i < |s| && s[i] !in done
  }

  /** How many entries of the list are not yet in `done`. */
  function Open(s: seq<Id>, done: set<Id>): nat {
    |OpenAt(s, done)|
  }

  lemma OpenSnoc(s: seq<Id>, x: Id, done: set<Id>)
    ensures Open(s + [x], done) == Open(s, done) + (if x in done then 0 else 1)
  {
    assert OpenAt(s + [x], done) == OpenAt(s, done) + (if x in done then {} else {|s|});
  }

  lemma {:induction false} OpenAdd(s: seq<Id>, done: set<Id>, x: Id)
    requires x !in done
    ensures Open(s, done + {x}) == Open(s, done) - multiset(s)[x]
    ensures multiset(s)[x] <= Open(s, done)
  {
    if s != [] {
      var t, y := s[..|s| - 1], s[|s| - 1];
      assert s == t + [y];
      OpenAdd(t, done, x);
      OpenSnoc(t, y, done);
      OpenSnoc(t, y, done + {x});
    }
  }

  lemma OpenZero(s: seq<Id>, done: set<Id>)
    ensures Open(s, done) == 0 <==> forall i :: 0 <= i < |s| ==> s[i] in done
  {
    if i :| 0 <= i < |s| && s[i] !in done { assert i in OpenAt(s, done); }
  }

  lemma {:induction false} OpenNone(s: seq<Id>)
    ensures Open(s, {}) == |s|
  {
    if s != [] {
      OpenNone(s[..|s| - 1]);
      assert s == s[..|s| - 1] + [s[|s| - 1]];
      OpenSnoc(s[..|s| - 1], s[|s| - 1], {});
    }
  }

  lemma OpenShrinks(s: seq<Id>, done: set<Id>, more: set<Id>)
    requires done <= more && Open(s, done) == 0
    ensures Open(s, more) == 0
  {
    OpenZero(s, done);
    OpenZero(s, more);
  }

  /** `indegree` counts the open predecessors of every vertex. */
  ghost predicate Degrees(g: Graph, indegree: map<Id, int>, done: set<Id>) {
    PartDegrees(g, indegree, done, multiset{})
  }

  /** The queue holds, once each, the vertices outside `closed` that have no open predecessor. */
  ghost predicate Ready(g: Graph, q: seq<Id>, done: set<Id>, closed: set<Id>) {
    NoDup(q) && forall v {:trigger v in q} {:trigger Open(g.preds[v], done)} ::
                  v in q <==> v in g.preds && v !in closed && Open(g.preds[v], done) == 0
  }

  /** `indegree` while the successors in `sub` have been counted down on top. */
  ghost predicate PartDegrees(g: Graph, indegree: map<Id, int>, done: set<Id>, sub: multiset<Id>) {
    && indegree.Keys == g.preds.Keys
    && forall v {:trigger indegree[v]} :: v in indegree ==> indegree[v] == Open(g.preds[v], done) - sub[v]
  }

  ghost predicate PartReady(g: Graph, q: seq<Id>, indegree: map<Id, int>, closed: set<Id>) {
    NoDup(q) && forall v {:trigger v in q} {:trigger indegree[v]} ::
                  v in q <==> v in indegree && v !in closed && indegree[v] == 0
  }

  /** The next successor still has an open predecessor, namely `fid` itself. */
  lemma NextSuccessor(g: Graph, fid: Id, done: set<Id>, c: nat)
    requires FanOut(g, fid) && fid !in done && c < |g.succs[fid]|
    ensures var succs := g.succs[fid];
            var succ := succs[c];
            && succ in g.preds && Edge(g, fid, succ)
            && Open(g.preds[succ], done) - multiset(succs[..c])[succ] >= 1
            && multiset(succs[..c + 1]) == multiset(succs[..c]) + multiset{succ}
  {
    var succs := g.succs[fid];
    var succ := succs[c];
    assert succs[..c + 1] == succs[..c] + [succ];
    assert succs == succs[..c] + [succ] + succs[c + 1..];
    assert multiset(succs)[succ] == multiset(succs[..c])[succ] + 1 + multiset(succs[c + 1..])[succ];
    OpenAdd(g.preds[succ], done, fid);
    assert multiset(g.preds[succ])[fid] == multiset(succs)[succ];
  }

  lemma CountDown(g: Graph, indegree: map<Id, int>, q: seq<Id>, done: set<Id>, closed: set<Id>, sub: multiset<Id>, succ: Id)
    requires succ in g.preds && PartDegrees(g, indegree, done, sub) && PartReady(g, q, indegree, closed)
    requires indegree[succ] >= 1 && succ !in closed
    ensures var indegree' := indegree[succ := indegree[succ] - 1];
            && PartDegrees(g, indegree', done, sub + multiset{succ})
            && PartReady(g, if indegree'[succ] == 0 then q + [succ] else q, indegree', closed)
  {
  }

  /** One round of the inner loop: the successors of `fid` lose an open predecessor. */
  method ProcessOne(g: Graph, fid: Id, indegree: map<Id, int>, q: seq<Id>, ghost done: set<Id>, ghost closed: set<Id>)
    returns (indegree': map<Id, int>, q': seq<Id>)
    requires FanOut(g, fid) && fid !in done
    requires Degrees(g, indegree, done) && Ready(g, q, done, closed)
    requires forall v :: v in closed && v in g.preds ==> Open(g.preds[v], done) == 0
    ensures Degrees(g, indegree', done + {fid}) && Ready(g, q', done + {fid}, closed)
    ensures forall v :: v in q' ==> v in q || Edge(g, fid, v)
  {
    indegree', q' := indegree, q;
    var succs := g.succs[fid];
    for c := 0 to |succs|
      invariant PartDegrees(g, indegree', done, multiset(succs[..c]))
      invariant PartReady(g, q', indegree', closed)
      invariant forall v :: v in q' ==> v in q || Edge(g, fid, v)
    {
      var succ := succs[c];
      NextSuccessor(g, fid, done, c);
      CountDown(g, indegree', q', done, closed, multiset(succs[..c]), succ);
      indegree' := indegree'[succ := indegree'[succ] - 1];
      if indegree'[succ] == 0 { q' := q' + [succ]; }
    }
    assert succs[..|succs|] == succs;
    RoundDone(g, fid, indegree', q', done, closed);
  }

  lemma RoundDone(g: Graph, fid: Id, indegree: map<Id, int>, q: seq<Id>, done: set<Id>, closed: set<Id>)
    requires FanOut(g, fid) && fid !in done
    requires PartDegrees(g, indegree, done, multiset(g.succs[fid])) && PartReady(g, q, indegree, closed)
    ensures Degrees(g, indegree, done + {fid}) && Ready(g, q, done + {fid}, closed)
  {
    forall v | v in g.preds ensures Open(g.preds[v], done + {fid}) == indegree[v] { OpenAdd(g.preds[v], done, fid); }
  }

  /** Where a batch stands when the vertices in `part` are done. */
  ghost predicate InBatch(g: Graph, indegree: map<Id, int>, next: seq<Id>, part: set<Id>, closed: set<Id>) {
    && Degrees(g, indegree, part) && Ready(g, next, part, closed)
    && forall v {:trigger Open(g.preds[v], part)} :: v in closed && v in g.preds ==> Open(g.preds[v], part) == 0
  }

  ghost predicate AllHavePredIn(g: Graph, u: set<Id>, q: seq<Id>) {
    forall v {:trigger HasPredIn(g, u, v)} :: v in q ==> HasPredIn(g, u, v)
  }

  lemma NewHavePreds(g: Graph, u: set<Id>, fid: Id, q: seq<Id>, q': seq<Id>)
    requires AllHavePredIn(g, u, q) && fid in u && forall v :: v in q' ==> v in q || Edge(g, fid, v)
    ensures AllHavePredIn(g, u, q')
  {
    forall v | v in q' ensures HasPredIn(g, u, v) { assert v in q ==> HasPredIn(g, u, v); }
  }

  lemma StillClosed(g: Graph, part: set<Id>, closed: set<Id>, fid: Id)
    requires forall v :: v in closed && v in g.preds ==> Open(g.preds[v], part) == 0
    ensures forall v :: v in closed && v in g.preds ==> Open(g.preds[v], part + {fid}) == 0
  {
    forall v | v in closed && v in g.preds ensures Open(g.preds[v], part + {fid}) == 0 {
      OpenShrinks(g.preds[v], part, part + {fid});
    }
  }

  lemma NextOfBatch(batch: seq<Id>, b: nat, done: set<Id>)
    requires b < |batch| && NoDup(batch) && batch[b] !in done
    ensures done + Members(batch[..b + 1]) == done + Members(batch[..b]) + {batch[b]}
    ensures batch[b] !in done + Members(batch[..b])
  {
    assert Members(batch[..b + 1]) == Members(batch[..b]) + {batch[b]};
  }

  /** The body of the outer loop: a whole batch is processed and the next one collected. */
  method ProcessBatch(g: Graph, batch: seq<Id>, indegree: map<Id, int>, ghost done: set<Id>)
    returns (indegree': map<Id, int>, next: seq<Id>)
    requires forall i {:trigger FanOut(g, batch[i])} :: 0 <= i < |batch| ==> FanOut(g, batch[i])
    requires InBatch(g, indegree, batch, done, done)
    ensures InBatch(g, indegree', next, done + Members(batch), done + Members(batch))
    ensures AllHavePredIn(g, Members(batch), next)
  {
    indegree', next := indegree, [];
    ghost var closed := done + Members(batch);
    ghost var part := done;
    StartBatch(g, batch, done);
    for b := 0 to |batch|
      invariant part == done + Members(batch[..b])
      invariant InBatch(g, indegree', next, part, closed)
      invariant AllHavePredIn(g, Members(batch), next)
    {
      var fid := batch[b];
      assert fid in batch;
      NextOfBatch(batch, b, done);
      ghost var before := next;
      indegree', next := ProcessOne(g, fid, indegree', next, part, closed);
      NewHavePreds(g, Members(batch), fid, before, next);
      StillClosed(g, part, closed, fid);
      part := part + {fid};
    }
    assert batch[..|batch|] == batch;
  }

  /** Before any of the batch is processed, nothing outside it is ready. */
  lemma StartBatch(g: Graph, batch: seq<Id>, done: set<Id>)
    requires Ready(g, batch, done, done)
    requires forall v :: v in done && v in g.preds ==> Open(g.preds[v], done) == 0
    ensures Ready(g, [], done, done + Members(batch))
    ensures forall v :: v in done + Members(batch) && v in g.preds ==> Open(g.preds[v], done) == 0
    ensures done + Members(batch[..0]) == done
  {
    assert Members(batch[..0]) == {};
    forall v | v in g.preds && v !in done && Open(g.preds[v], done) == 0 ensures v in Members(batch) {
      assert v in batch;
    }
  }

  /** The loop state of `topological_batches` between two batches. */
  ghost predicate Between(g: Graph, bs: seq<seq<Id>>, indegree: map<Id, int>, q: seq<Id>) {
    && LayersOk(g, bs)
    && InBatch(g, indegree, q, Upto(bs, |bs|), Upto(bs, |bs|))
    && (bs != [] ==> AllHavePredIn(g, Members(bs[|bs| - 1]), q))
  }

  lemma LayerKept(g: Graph, bs: seq<seq<Id>>, q: seq<Id>, k: nat)
    requires k < |bs| && LayerOk(g, bs, k)
    ensures LayerOk(g, bs + [q], k)
  {
    UptoPrefix(bs, q, k);
  }

  lemma LayerNew(g: Graph, bs: seq<seq<Id>>, q: seq<Id>, done: set<Id>)
    requires done == Upto(bs, |bs|) && Ready(g, q, done, done)
    requires bs != [] ==> AllHavePredIn(g, Members(bs[|bs| - 1]), q)
    ensures LayerOk(g, bs + [q], |bs|)
  {
    var bs' := bs + [q];
    UptoPrefix(bs, q, |bs|);
    forall v | v in q
      ensures (forall u :: u in g.preds[v] ==> u in done) && (bs != [] ==> HasPredIn(g, Members(bs'[|bs| - 1]), v))
    {
      OpenZero(g.preds[v], done);
      if bs != [] { assert HasPredIn(g, Members(bs[|bs| - 1]), v); }
    }
  }

  /** The queue is the next layer. */
  lemma NextLayer(g: Graph, bs: seq<seq<Id>>, indegree: map<Id, int>, q: seq<Id>)
    requires Between(g, bs, indegree, q)
    ensures Upto(bs + [q], |bs| + 1) == Upto(bs, |bs|) + Members(q)
    ensures LayersOk(g, bs + [q])
  {
    UptoPrefix(bs, q, |bs|);
    forall k | 0 <= k <= |bs| ensures LayerOk(g, bs + [q], k) {
      if k < |bs| { LayerKept(g, bs, q, k); } else { LayerNew(g, bs, q, Upto(bs, |bs|)); }
    }
  }

  /** When the queue runs empty, whatever is left has an open predecessor. */
  lemma Exhausted(g: Graph, bs: seq<seq<Id>>, indegree: map<Id, int>)
    requires Valid(g) && Between(g, bs, indegree, [])
    ensures Layered(g, bs)
  {
    var u := g.preds.Keys - Upto(bs, |bs|);
    forall v | v in u ensures HasPredIn(g, u, v) {
      OpenZero(g.preds[v], Upto(bs, |bs|));
      var i :| 0 <= i < |g.preds[v]| && g.preds[v][i] !in Upto(bs, |bs|);
      assert Edge(g, g.preds[v][i], v) && g.preds[v][i] in u;
    }
  }

  /** The functions without predecessors among the first `n`, in insertion order. */
  function SourcesUpto(g: Graph, n: nat): seq<Id>
    requires n <= |g.order|
  {
    if n == 0 then []
    else
      var fid := g.order[n - 1];
      if fid in g.preds && g.preds[fid] == [] then SourcesUpto(g, n - 1) + [fid] else SourcesUpto(g, n - 1)
  }

  /** The functions without predecessors, sorted by name. */
  function SortedSources(g: Graph): seq<Id> {
    Names.Sorted(SourcesUpto(g, |g.order|))
  }

  lemma {:induction false} SourcesAre(g: Graph, n: nat)
    requires n <= |g.order| && NoDup(g.order)
    ensures NoDup(SourcesUpto(g, n))
    ensures forall v :: v in SourcesUpto(g, n) <==> v in g.order[..n] && v in g.preds && g.preds[v] == []
  {
    if n > 0 {
      SourcesAre(g, n - 1);
      assert g.order[..n] == g.order[..n - 1] + [g.order[n - 1]];
      assert g.order[n - 1] !in g.order[..n - 1];
    }
  }

  lemma SortedSourcesAre(g: Graph)
    requires Listed(g)
    ensures NoDup(SortedSources(g)) && Names.Ascending(SortedSources(g))
    ensures forall v :: v in SortedSources(g) <==> v in g.preds && g.preds[v] == []
  {
    var found, q := SourcesUpto(g, |g.order|), SortedSources(g);
    SourcesAre(g, |g.order|);
    assert g.order[..|g.order|] == g.order;
    Names.SortedPermutes(found);
    Names.SortedAscends(found);
    Names.MultisetMembers(q, found);
    Names.DistinctCounts(found);
    Names.DistinctCounts(q);
  }

  /** The sources, sorted, are ready before anything is done. */
  method Sources(g: Graph) returns (indegree: map<Id, int>, q: seq<Id>)
    requires Listed(g)
    ensures Between(g, [], indegree, q) && q == SortedSources(g)
  {
    indegree := map v | v in g.preds :: |g.preds[v]|;
    var found: seq<Id> := [];
    for i := 0 to |g.order|
      invariant found == SourcesUpto(g, i)
    {
      var fid := g.order[i];
      assert fid in g.order;
      if indegree[fid] == 0 { found := found + [fid]; }
    }
    q := Names.Sorted(found);
    SortedSourcesAre(g);
    InitialDegrees(g, indegree, q);
  }

  lemma InitialDegrees(g: Graph, indegree: map<Id, int>, q: seq<Id>)
    requires indegree == map v | v in g.preds :: |g.preds[v]|
    requires NoDup(q) && forall v :: v in q <==> v in indegree && indegree[v] == 0
    ensures Between(g, [], indegree, q)
  {
    forall v | v in g.preds ensures Open(g.preds[v], {}) == |g.preds[v]| { OpenNone(g.preds[v]); }
  }

  /** No function appears twice, in one batch or in two. */
  ghost predicate AtMostOnce(bs: seq<seq<Id>>) {
    && (forall k {:trigger NoDup(bs[k])} :: 0 <= k < |bs| ==> NoDup(bs[k]))
    && forall k, l, v {:trigger v in bs[k], v in bs[l]} :: 0 <= k < l < |bs| ==> !(v in bs[k] && v in bs[l])
  }

  /** Exactly the functions that neither lie on a cycle nor come after one are there: all of them, without cycles. */
  ghost predicate Complete(g: Graph, bs: seq<seq<Id>>) {
    && (forall v {:trigger Tainted(g, v)} :: v in g.preds ==> (v in Upto(bs, |bs|) <==> !Tainted(g, v)))
    && (Acyclic(g) ==> forall v {:trigger v in Upto(bs, |bs|)} :: v in g.preds ==> v in Upto(bs, |bs|))
  }

  /** The number of a batch is the length of the longest path into each of its members. */
  ghost predicate Numbered(g: Graph, bs: seq<seq<Id>>) {
    forall k, v {:trigger LongestPathInto(g, v, k)} ::
      0 <= k < |bs| && v in bs[k] ==> v in g.preds && LongestPathInto(g, v, k)
  }

  /**
   `topological_batches`.  Every function appears at most once; a function in batch
   `k` has a longest dependency path of exactly `k` edges; and the functions that
   appear in no batch are exactly those that lie on a cycle or come after one.  The
   first batch, the sources, is sorted by name.
   */
  method TopologicalBatches(g: Graph) returns (batches: seq<seq<Id>>)
    requires Valid(g) && Listed(g)
    ensures AtMostOnce(batches)
    ensures Numbered(g, batches)
    ensures Complete(g, batches)
    ensures batches != [] ==> batches[0] == SortedSources(g)
  {
    batches := AllBatches(g);
    BatchesDisjoint(g, batches);
    BatchesLongest(g, batches);
    BatchesComplete(g, batches);
  }

  /** How many functions are in no batch yet. */
  ghost function Left(g: Graph, bs: seq<seq<Id>>): nat {
    |g.preds.Keys - Upto(bs, |bs|)|
  }

  /** The outer loop, down to the empty queue. */
  method AllBatches(g: Graph) returns (batches: seq<seq<Id>>)
    requires Valid(g) && Listed(g)
    ensures Layered(g, batches) && (batches != [] ==> batches[0] == SortedSources(g))
  {
    var indegree, queue := Sources(g);
    batches := [];
    while queue != []
      invariant Between(g, batches, indegree, queue)
      invariant SortedSources(g) == if batches == [] then queue else batches[0]
      decreases Left(g, batches)
    {
      FewerLeft(g, batches, indegree, queue);
      batches, indegree, queue := NextBatch(g, batches, indegree, queue);
    }
    Exhausted(g, batches, indegree);
  }

  /** One round of the outer loop: the queue becomes a batch. */
  method NextBatch(g: Graph, bs: seq<seq<Id>>, indegree: map<Id, int>, queue: seq<Id>)
    returns (bs': seq<seq<Id>>, indegree': map<Id, int>, queue': seq<Id>)
    requires Valid(g) && Between(g, bs, indegree, queue) && queue != []
    ensures Between(g, bs', indegree', queue') && bs' == bs + [queue]
  {
    Facts(g, bs, indegree, queue);
    ghost var done := Upto(bs, |bs|);
    indegree', queue' := ProcessBatch(g, queue, indegree, done);
    bs' := bs + [queue];
    NextBetween(g, bs, indegree, queue, indegree', queue');
  }

  lemma Facts(g: Graph, bs: seq<seq<Id>>, indegree: map<Id, int>, queue: seq<Id>)
    requires Valid(g) && Between(g, bs, indegree, queue) && queue != []
    ensures InBatch(g, indegree, queue, Upto(bs, |bs|), Upto(bs, |bs|))
    ensures forall i {:trigger FanOut(g, queue[i])} :: 0 <= i < |queue| ==> FanOut(g, queue[i])
  {
    QueueFacts(g, queue, Upto(bs, |bs|));
  }

  lemma NextBetween(g: Graph, bs: seq<seq<Id>>, indegree: map<Id, int>, queue: seq<Id>,
                    indegree': map<Id, int>, queue': seq<Id>)
    requires Valid(g) && Between(g, bs, indegree, queue) && queue != []
    requires InBatch(g, indegree', queue', Upto(bs, |bs|) + Members(queue), Upto(bs, |bs|) + Members(queue))
    requires AllHavePredIn(g, Members(queue), queue')
    ensures Between(g, bs + [queue], indegree', queue')
  {
    NextLayer(g, bs, indegree, queue);
  }

  lemma FewerLeft(g: Graph, bs: seq<seq<Id>>, indegree: map<Id, int>, queue: seq<Id>)
    requires Valid(g) && Between(g, bs, indegree, queue) && queue != []
    ensures Left(g, bs + [queue]) < Left(g, bs)
  {
    NextLayer(g, bs, indegree, queue);
    QueueFacts(g, queue, Upto(bs, |bs|));
  }

  lemma QueueFacts(g: Graph, queue: seq<Id>, done: set<Id>)
    requires Valid(g) && Ready(g, queue, done, done) && queue != []
    ensures forall i {:trigger FanOut(g, queue[i])} :: 0 <= i < |queue| ==> FanOut(g, queue[i])
    ensures |g.preds.Keys - (done + Members(queue))| < |g.preds.Keys - done|
  {
    forall i | 0 <= i < |queue| ensures queue[i] in g.succs && queue[i] !in done { assert queue[i] in queue; }
    assert queue[0] in Members(queue);
    SmallerRest(g.preds.Keys, done, Members(queue), queue[0]);
  }

  lemma SmallerRest(all: set<Id>, done: set<Id>, more: set<Id>, x: Id)
    requires x in all - done && x in more
    ensures |all - (done + more)| < |all - done|
  {
    assert all - (done + more) <= all - done - {x};
    Sets.SubsetSize(all - (done + more), all - done - {x});
  }

  lemma BatchesDisjoint(g: Graph, bs: seq<seq<Id>>)
    requires Layered(g, bs)
    ensures AtMostOnce(bs)
  {
    forall k | 0 <= k < |bs| ensures NoDup(bs[k]) { assert LayerOk(g, bs, k); }
    forall k, l, v | 0 <= k < l < |bs| ensures !(v in bs[k] && v in bs[l]) {
      if v in bs[k] && v in bs[l] { DisjointBatches(g, bs, k, l, v); }
    }
  }

  lemma BatchesLongest(g: Graph, bs: seq<seq<Id>>)
    requires Valid(g) && Layered(g, bs)
    ensures Numbered(g, bs)
  {
    forall k, v | 0 <= k < |bs| && v in bs[k] ensures v in g.preds && LongestPathInto(g, v, k) {
      assert LayerOk(g, bs, k);
      BatchIsLongestPath(g, bs, k, v);
    }
  }

  lemma BatchesComplete(g: Graph, bs: seq<seq<Id>>)
    requires Valid(g) && Layered(g, bs)
    ensures Complete(g, bs)
  {
    forall v | v in g.preds ensures v in Upto(bs, |bs|) <==> !Tainted(g, v) { BatchedIffUntainted(g, bs, v); }
  }
}
