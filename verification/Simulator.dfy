/**
 The Demeter simulation loop (`simulator.py`, `controller.py`): release of ready
 functions, observation in waves, the Pheromone policy and the environment step.
 Durations are given by an arbitrary oracle.
 */
module Simulator {

  import Dag
  import Sets
  import opened Expansion

  datatype Fn = Fn(status: Status, arrival: real, start: real, duration: real, finish: real, placement: string)

  type Fns = map<Id, Fn>

  /** What stays fixed during a run. */
  datatype World = World(g: Dag.Graph, jobs: seq<seq<Id>>, dcs: seq<string>,
                         candidates: Id -> seq<string>, local: (Id, string) -> real, wave: int, interval: real)

  ghost predicate Closed(g: Dag.Graph) {
    forall v, i :: v in g.preds && 0 <= i < |g.preds[v]| ==> g.preds[v][i] in g.preds
  }

  /** The jobs list every function of the graph once. */
  ghost predicate Covers(w: World) {
    CoversGraph(w.g, w.jobs)
  }

  ghost predicate CoversGraph(g: Dag.Graph, jobs: seq<seq<Id>>) {
    && (forall j, f {:trigger InJob(jobs, j, f)} :: InJob(jobs, j, f) ==> f in g.preds)
    && (forall f {:trigger InSomeJob(jobs, f)} :: f in g.preds ==> InSomeJob(jobs, f))
    && (forall j, k, f {:trigger InJob(jobs, j, f), InJob(jobs, k, f)} ::
          InJob(jobs, j, f) && InJob(jobs, k, f) ==> j == k)
  }

  predicate InJob(jobs: seq<seq<Id>>, j: int, f: Id) {
    0 <= j < |jobs| && f in jobs[j]
  }

  ghost predicate InSomeJob(jobs: seq<seq<Id>>, f: Id) {
    exists j :: InJob(jobs, j, f)
  }

  // ------------------------------------------------------- what every run keeps

  ghost predicate IsFinished(fns: Fns, f: Id) {
    f in fns && fns[f].status.Finished?
  }

  /** Until when the predecessors of a released function must be done. */
  function Deadline(fn: Fn, now: real): real {
    if fn.status.Finished? then fn.start else now
  }

  /** A released function waits for nothing, and nothing it depends on ends after it starts. */
  ghost predicate Released(g: Dag.Graph, fns: Fns, now: real, f: Id)
    requires f in fns && f in g.preds
  {
    !fns[f].status.Waiting? ==>
      forall i {:trigger g.preds[f][i]} :: 0 <= i < |g.preds[f]| ==>
        var p := g.preds[f][i];
        IsFinished(fns, p) && fns[p].finish <= Deadline(fns[f], now)
  }

  ghost predicate Timed(fn: Fn, now: real, top: real) {
    && !fn.status.Running?
    && (fn.status.Finished? ==> 0.0 <= fn.start <= now && 0.0 <= fn.duration && fn.finish == fn.start + fn.duration && fn.finish <= top)
  }

  /** `now` is the time of the step and `top` the latest finish so far. */
  ghost predicate Inv(g: Dag.Graph, fns: Fns, now: real, top: real) {
    && fns.Keys == g.preds.Keys && 0.0 <= now <= top
    && forall f {:trigger Released(g, fns, now, f)} :: f in fns ==> Timed(fns[f], now, top) && Released(g, fns, now, f)
  }

  function Total(fns: Fns, p: seq<Id>): real
    requires forall i :: 0 <= i < |p| ==> p[i] in fns
  {
    if p == [] then 0.0 else Total(fns, p[..|p| - 1]) + fns[p[|p| - 1]].duration
  }

  /** Whatever a finished function depends on, however indirectly, is finished, and their durations add up. */
  lemma {:induction false} PathTakesItsTime(g: Dag.Graph, fns: Fns, now: real, top: real, p: seq<Id>)
    requires Inv(g, fns, now, top) && Dag.IsPath(g, p) && IsFinished(fns, Dag.Last(p))
    ensures forall i :: 0 <= i < |p| ==> IsFinished(fns, p[i])
    ensures Total(fns, p) <= fns[Dag.Last(p)].finish
    decreases |p|
  {
    var l := Dag.Last(p);
    assert Released(g, fns, now, l) && Timed(fns[l], now, top);
    var q := p[..|p| - 1];
    assert Total(fns, p) == Total(fns, q) + fns[l].duration;
    if |p| == 1 {
      assert q == [];
    } else {
      assert Dag.Edge(g, p[|p| - 2], p[|p| - 1]);
      var i :| 0 <= i < |g.preds[l]| && g.preds[l][i] == Dag.Last(q);
      Dag.SubPath(g, p, 0, |p| - 1);
      assert p[0..|p| - 1] == q;
      PathTakesItsTime(g, fns, now, top, q);
      forall j | 0 <= j < |p| ensures IsFinished(fns, p[j]) { if j < |q| { assert IsFinished(fns, q[j]); } }
    }
  }

  // ---------------------------------------------------------------- one action

  datatype Action = Action(fid: Id, dc: string)

  function Later(a: real, b: real): real { if a < b then b else a }

  predicate Accepted(w: World, fns: Fns, a: Action) {
    a.fid in fns && a.dc in w.dcs && fns[a.fid].status == Pending
  }

  /** The state of the action loop: the functions, the latest finish and how many have finished. */
  datatype Progress = Progress(fns: Fns, top: real, count: nat)

  /** One turn of the action loop of `step`; `dur` gives the duration of the n-th execution of the run. */
  function Act(w: World, now: real, s: Progress, a: Action, dur: nat -> real): Progress {
    if !Accepted(w, s.fns, a) then s
    else
      var end := now + dur(s.count);
      Progress(s.fns[a.fid := Fn(Finished, s.fns[a.fid].arrival, now, dur(s.count), end, a.dc)], Later(s.top, end), s.count + 1)
  }

  function ActAll(w: World, now: real, s: Progress, actions: seq<Action>, dur: nat -> real): Progress {
    if actions == [] then s
    else Act(w, now, ActAll(w, now, s, actions[..|actions| - 1], dur), actions[|actions| - 1], dur)
  }

  ghost predicate Lasting(dur: nat -> real) {
    forall n :: dur(n) >= 0.0
  }

  lemma ActInv(w: World, now: real, s: Progress, a: Action, dur: nat -> real)
    requires Inv(w.g, s.fns, now, s.top) && Lasting(dur)
    ensures Inv(w.g, Act(w, now, s, a, dur).fns, now, Act(w, now, s, a, dur).top)
  {
    var s' := Act(w, now, s, a, dur);
    if Accepted(w, s.fns, a) {
      assert dur(s.count) >= 0.0;
      forall f | f in s'.fns ensures Timed(s'.fns[f], now, s'.top) && Released(w.g, s'.fns, now, f) {
        assert Released(w.g, s.fns, now, f) && Timed(s.fns[f], now, s.top);
        forall i | 0 <= i < |w.g.preds[f]| && !s'.fns[f].status.Waiting?
          ensures var p := w.g.preds[f][i]; IsFinished(s'.fns, p) && s'.fns[p].finish <= Deadline(s'.fns[f], now)
        {
          assert IsFinished(s.fns, w.g.preds[f][i]);
        }
      }
    }
  }

  lemma {:induction false} ActAllInv(w: World, now: real, s: Progress, actions: seq<Action>, dur: nat -> real)
    requires Inv(w.g, s.fns, now, s.top) && Lasting(dur)
    ensures Inv(w.g, ActAll(w, now, s, actions, dur).fns, now, ActAll(w, now, s, actions, dur).top)
  {
    if actions != [] {
      ActAllInv(w, now, s, actions[..|actions| - 1], dur);
      ActInv(w, now, ActAll(w, now, s, actions[..|actions| - 1], dur), actions[|actions| - 1], dur);
    }
  }

  // ------------------------------------------------------------------- release

  predicate AllFinished(g: Dag.Graph, fns: Fns, f: Id)
    requires f in g.preds
  {
    forall i :: 0 <= i < |g.preds[f]| ==> g.preds[f][i] in fns && fns[g.preds[f][i]].status == Finished
  }

  predicate Ready(g: Dag.Graph, fns: Fns, f: Id) {
    f in fns && f in g.preds && fns[f].status == Waiting && AllFinished(g, fns, f)
  }

  /** The functions of `which` that are ready become pending. */
  function Release(g: Dag.Graph, fns: Fns, which: set<Id>, now: real): Fns {
    map f | f in fns :: if f in which && Ready(g, fns, f) then fns[f].(status := Pending, arrival := now) else fns[f]
  }

  lemma ReleaseMore(g: Dag.Graph, fns: Fns, which: set<Id>, more: set<Id>, now: real)
    ensures Release(g, Release(g, fns, which, now), more, now) == Release(g, fns, which + more, now)
  {
    var mid := Release(g, fns, which, now);
    forall f | f in fns && f in g.preds ensures AllFinished(g, mid, f) == AllFinished(g, fns, f) {
    }
  }

  lemma ReleaseInv(g: Dag.Graph, fns: Fns, which: set<Id>, now: real, later: real)
    requires Closed(g) && Inv(g, fns, now, later)
    ensures Inv(g, Release(g, fns, which, later), later, later)
  {
    var fns' := Release(g, fns, which, later);
    forall f | f in fns' ensures Timed(fns'[f], later, later) && Released(g, fns', later, f) {
      assert Released(g, fns, now, f) && Timed(fns[f], now, later);
      forall i | 0 <= i < |g.preds[f]| && !fns'[f].status.Waiting?
        ensures var p := g.preds[f][i]; IsFinished(fns', p) && fns'[p].finish <= Deadline(fns'[f], later)
      {
        var p := g.preds[f][i];
        assert IsFinished(fns, p);
        assert Released(g, fns, now, p) && Timed(fns[p], now, later);
      }
    }
  }

  // ------------------------------------------------------------------ progress

  ghost function Unfinished(fns: Fns): set<Id> {
    set f | f in fns && fns[f].status != Finished
  }

  /** Nothing ready is left waiting. */
  ghost predicate Settled(g: Dag.Graph, fns: Fns) {
    forall f {:trigger Ready(g, fns, f)} :: f in fns ==> !Ready(g, fns, f)
  }

  lemma ReleaseSettles(g: Dag.Graph, fns: Fns, now: real)
    ensures Settled(g, Release(g, fns, fns.Keys, now))
  {
    var fns' := Release(g, fns, fns.Keys, now);
    forall f | f in fns && f in g.preds ensures AllFinished(g, fns', f) == AllFinished(g, fns, f) {
    }
  }

  // --------------------------------------------------------------- observation

  /** The distinct data centre names, in order of first mention. */
  function Keys(dcs: seq<string>): (r: seq<string>)
    ensures forall d :: d in r <==> d in dcs
  {
    if dcs == [] then []
    else
      var init, l := dcs[..|dcs| - 1], dcs[|dcs| - 1];
      var r := Keys(init);
      assert dcs == init + [l];
      if l in init then r else r + [l]
  }

  /** The function names no data centre, or this one. */
  predicate MayRunIn(w: World, f: Id, d: string) {
    d in w.dcs && (|w.candidates(f)| == 0 || d in w.candidates(f))
  }

  /** The data centres a function may run in: all of them unless it names some. */
  function Candidates(w: World, f: Id): (r: seq<string>)
    ensures forall d :: d in w.dcs ==> (d in r <==> MayRunIn(w, f, d))
    ensures forall d :: d in r && d in w.dcs ==> MayRunIn(w, f, d)
  {
    if w.candidates(f) == [] then Keys(w.dcs) else w.candidates(f)
  }

  /** `f` once for every mention of `d`. */
  function Asks(f: Id, names: seq<string>, d: string): (r: seq<Id>)
    ensures forall x :: x in r <==> x == f && d in names
  {
    if names == [] then []
    else
      var init, l := names[..|names| - 1], names[|names| - 1];
      var r := Asks(f, init, d);
      assert names == init + [l];
      if l == d then r + [f] else r
  }

  /** The pending functions that may run in `d`, in job order. */
  function Wanted(w: World, fns: Fns, order: seq<Id>, d: string): (r: seq<Id>)
    requires forall f :: f in order ==> f in fns
    ensures d in w.dcs ==> forall f :: f in r <==> f in order && fns[f].status == Pending && MayRunIn(w, f, d)
  {
    if order == [] then []
    else
      var init, l := order[..|order| - 1], order[|order| - 1];
      assert order == init + [l];
      var r := Wanted(w, fns, init, d);
      if fns[l].status == Pending then r + Asks(l, Candidates(w, l), d) else r
  }

  lemma {:induction false} WantedFrame(w: World, fns: Fns, fns': Fns, order: seq<Id>, d: string)
    requires forall f :: f in order ==> f in fns && f in fns' && fns[f] == fns'[f]
    ensures Wanted(w, fns, order, d) == Wanted(w, fns', order, d)
  {
    if order != [] {
      var init, l := order[..|order| - 1], order[|order| - 1];
      assert order == init + [l];
      WantedFrame(w, fns, fns', init, d);
    }
  }

  /** Python's `s[:n]`. */
  function Truncate(s: seq<Id>, n: int): (r: seq<Id>)
    ensures r <= s
    ensures 0 <= n <= |s| ==> |r| == n
    ensures n > |s| ==> |r| == |s|
    ensures -|s| <= n < 0 ==> |r| == |s| + n
    ensures n < -|s| ==> |r| == 0
  {
    if n >= |s| then s else if n >= 0 then s[..n] else if |s| + n > 0 then s[..|s| + n] else []
  }

  function Flat(jobs: seq<seq<Id>>): (r: seq<Id>)
    ensures forall f :: f in r <==> exists j :: 0 <= j < |jobs| && f in jobs[j]
  {
    if jobs == [] then [] else
      var init := jobs[..|jobs| - 1];
      assert jobs == init + [jobs[|jobs| - 1]];
      Flat(init) + jobs[|jobs| - 1]
  }

  // --------------------------------------------------------------- the policy

  function Known(w: World, names: seq<string>): (r: seq<string>)
    ensures forall d :: d in r <==> d in names && d in w.dcs
  {
    if names == [] then []
    else
      var init, l := names[..|names| - 1], names[|names| - 1];
      assert names == init + [l];
      if l in w.dcs then Known(w, init) + [l] else Known(w, init)
  }

  /** The first data centre holding most of the function's data. */
  function Best(w: World, f: Id, names: seq<string>): (r: string)
    requires names != []
    ensures r in names && forall d :: d in names ==> w.local(f, d) <= w.local(f, r)
    ensures exists i :: FirstAt(names, r, i) && forall j :: 0 <= j < i ==> w.local(f, names[j]) < w.local(f, r)
  {
    if |names| == 1 then
      assert FirstAt(names, names[0], 0);
      names[0]
    else
      var init, l := names[..|names| - 1], names[|names| - 1];
      assert names == init + [l];
      var b := Best(w, f, init);
      BestIsFirst(w, f, init, l, b);
      if w.local(f, l) > w.local(f, b) then l else b
  }

  /** The name stands at `i`. */
  ghost predicate FirstAt(names: seq<string>, d: string, i: int) {
    0 <= i < |names| && names[i] == d
  }

  lemma BestIsFirst(w: World, f: Id, init: seq<string>, l: string, b: string)
    requires forall d :: d in init ==> w.local(f, d) <= w.local(f, b)
    requires exists i :: FirstAt(init, b, i) && forall j :: 0 <= j < i ==> w.local(f, init[j]) < w.local(f, b)
    ensures var r := if w.local(f, l) > w.local(f, b) then l else b;
            exists i :: FirstAt(init + [l], r, i) && forall j :: 0 <= j < i ==> w.local(f, (init + [l])[j]) < w.local(f, r)
  {
    var names := init + [l];
    if w.local(f, l) > w.local(f, b) {
      assert FirstAt(names, l, |init|);
      forall j | 0 <= j < |init| ensures w.local(f, names[j]) < w.local(f, l) { assert init[j] in init; }
    } else {
      var i :| FirstAt(init, b, i) && forall j :: 0 <= j < i ==> w.local(f, init[j]) < w.local(f, b);
      assert FirstAt(names, b, i);
    }
  }

  predicate Usable(w: World, f: Id) {
    exists d :: d in w.dcs && MayRunIn(w, f, d)
  }

  /** The action's data centre is allowed, known, and holds as much of the function's data as any such. */
  ghost predicate WellPlaced(w: World, a: Action) {
    && MayRunIn(w, a.fid, a.dc)
    && forall d :: MayRunIn(w, a.fid, d) ==> w.local(a.fid, d) <= w.local(a.fid, a.dc)
  }

  /** Each function that can run anywhere, placed where most of its data is. */
  function Planned(w: World, pending: seq<Id>): (r: seq<Action>)
    ensures forall a :: a in r ==> a.fid in pending && WellPlaced(w, a)
    ensures forall f :: f in pending && Usable(w, f) ==> exists a :: a in r && a.fid == f
  {
    if pending == [] then []
    else
      var init, l := pending[..|pending| - 1], pending[|pending| - 1];
      assert pending == init + [l];
      var known := Known(w, Candidates(w, l));
      if known == [] then Planned(w, init) else Planned(w, init) + [Action(l, Best(w, l, known))]
  }

  // ------------------------------------------------------------ lemmas on a step

  lemma ReleaseOne(g: Dag.Graph, fns: Fns, f: Id, now: real)
    requires f in fns
    ensures Release(g, fns, {f}, now) == if Ready(g, fns, f) then fns[f := fns[f].(status := Pending, arrival := now)] else fns
  {
  }

  lemma ReleaseNext(g: Dag.Graph, fns: Fns, job: seq<Id>, i: nat, now: real)
    requires i < |job|
    ensures Release(g, Release(g, fns, Dag.Members(job[..i]), now), {job[i]}, now) == Release(g, fns, Dag.Members(job[..i + 1]), now)
  {
    ReleaseMore(g, fns, Dag.Members(job[..i]), {job[i]}, now);
    assert Dag.Members(job[..i + 1]) == Dag.Members(job[..i]) + {job[i]};
  }

  /** Only functions of `which` change, and none of them finishes. */
  lemma ReleaseFrame(g: Dag.Graph, fns: Fns, which: set<Id>, now: real)
    ensures var fns' := Release(g, fns, which, now);
            && fns'.Keys == fns.Keys && Unfinished(fns') == Unfinished(fns)
            && forall f :: f in fns && f !in which ==> fns'[f] == fns[f]
  {
  }

  lemma FlatPrefix(jobs: seq<seq<Id>>, j: nat)
    requires j < |jobs|
    ensures Flat(jobs[..j + 1]) == Flat(jobs[..j]) + jobs[j]
    ensures Dag.Members(Flat(jobs[..j + 1])) == Dag.Members(Flat(jobs[..j])) + Dag.Members(jobs[j])
  {
    assert jobs[..j + 1][..j] == jobs[..j];
    MembersIn(Flat(jobs[..j + 1]));
    MembersIn(Flat(jobs[..j]));
    MembersIn(jobs[j]);
  }

  lemma MembersIn(s: seq<Id>)
    ensures forall f :: f in Dag.Members(s) <==> f in s
  {
  }

  lemma FlatAll(w: World)
    requires Covers(w)
    ensures Dag.Members(Flat(w.jobs)) == w.g.preds.Keys
  {
    MembersIn(Flat(w.jobs));
    forall f | f in w.g.preds ensures f in Flat(w.jobs) {
      assert InSomeJob(w.jobs, f);
      var j :| InJob(w.jobs, j, f);
    }
    forall f | f in Flat(w.jobs) ensures f in w.g.preds {
      var j :| 0 <= j < |w.jobs| && f in w.jobs[j];
      assert InJob(w.jobs, j, f);
    }
  }

  lemma FlatKnown(w: World, j: nat)
    requires Covers(w) && j <= |w.jobs|
    ensures forall f :: f in Flat(w.jobs[..j]) ==> f in w.g.preds
    ensures forall f :: j < |w.jobs| && f in Flat(w.jobs[..j]) ==> f !in w.jobs[j]
  {
    forall f | f in Flat(w.jobs[..j]) ensures f in w.g.preds && (j < |w.jobs| ==> f !in w.jobs[j]) {
      var k :| 0 <= k < j && f in w.jobs[..j][k];
      assert InJob(w.jobs, k, f) && (j < |w.jobs| && f in w.jobs[j] ==> InJob(w.jobs, j, f));
    }
  }

  /** Accepting an action leaves one function fewer to do; no action adds one. */
  lemma ActShrinks(w: World, now: real, s: Progress, a: Action, dur: nat -> real)
    ensures var s' := Act(w, now, s, a, dur);
            && Unfinished(s'.fns) <= Unfinished(s.fns) && s'.fns.Keys == s.fns.Keys
            && |Unfinished(s'.fns)| + s'.count == |Unfinished(s.fns)| + s.count
            && (forall f :: f in s.fns && s.fns[f].status == Pending && f != a.fid ==> s'.fns[f].status == Pending)
  {
    if Accepted(w, s.fns, a) {
      assert Unfinished(Act(w, now, s, a, dur).fns) == Unfinished(s.fns) - {a.fid};
    }
  }

  /** Of the given functions, those without an action so far are still pending. */
  lemma {:induction false} ActAllShrinks(w: World, now: real, s: Progress, actions: seq<Action>, dur: nat -> real)
    ensures var s' := ActAll(w, now, s, actions, dur);
            && Unfinished(s'.fns) <= Unfinished(s.fns) && s'.fns.Keys == s.fns.Keys
            && |Unfinished(s'.fns)| + s'.count == |Unfinished(s.fns)| + s.count
            && (forall a :: a in actions && Accepted(w, s.fns, a) ==> a.fid !in Unfinished(s'.fns))
  {
    if actions != [] {
      var init, l := actions[..|actions| - 1], actions[|actions| - 1];
      assert actions == init + [l];
      ActAllShrinks(w, now, s, init, dur);
      ActShrinks(w, now, ActAll(w, now, s, init, dur), l, dur);
      ActAllPending(w, now, s, init, dur);
      var mid, end := ActAll(w, now, s, init, dur), ActAll(w, now, s, actions, dur);
      assert end == Act(w, now, mid, l, dur);
      forall a | a in actions && Accepted(w, s.fns, a) ensures a.fid !in Unfinished(end.fns) {
        if a in init {
          assert a.fid !in Unfinished(mid.fns);
        } else {
          assert a == l && a.fid in mid.fns;
        }
      }
    }
  }

  /** A pending function stays pending until it is finished. */
  lemma {:induction false} ActAllPending(w: World, now: real, s: Progress, actions: seq<Action>, dur: nat -> real)
    ensures var s' := ActAll(w, now, s, actions, dur);
            s'.fns.Keys == s.fns.Keys
            && forall f :: f in s.fns && s.fns[f].status == Pending ==> s'.fns[f].status == Pending || s'.fns[f].status == Finished
  {
    if actions != [] {
      ActAllPending(w, now, s, actions[..|actions| - 1], dur);
    }
  }

  // ------------------------------------------------------------- the environment

  predicate JobDone(fns: Fns, job: seq<Id>) {
    job != [] && forall f :: f in job ==> f in fns && fns[f].status == Finished
  }

  predicate AllDone(fns: Fns, jobs: seq<seq<Id>>) {
    forall j :: 0 <= j < |jobs| ==> JobDone(fns, jobs[j])
  }

  /** What `observe` lists for each data centre. */
  ghost predicate Observed(w: World, fns: Fns, order: seq<Id>, pending: map<string, seq<Id>>) {
    && (forall f :: f in order ==> f in fns)
    && (forall d :: d in pending <==> d in w.dcs)
    && forall d {:trigger pending[d]} :: d in pending ==> pending[d] == Wanted(w, fns, order, d)
  }

  lemma ObservedNext(w: World, fns: Fns, order: seq<Id>, f: Id, pending: map<string, seq<Id>>, pending': map<string, seq<Id>>)
    requires Observed(w, fns, order, pending) && f in fns && pending'.Keys == pending.Keys
    requires forall d :: d in pending ==>
               pending'[d] == if fns[f].status == Pending then pending[d] + Asks(f, Candidates(w, f), d) else pending[d]
    ensures Observed(w, fns, order + [f], pending')
  {
    var all := order + [f];
    assert all[..|all| - 1] == order && all[|all| - 1] == f;
  }

  /** The same after truncation to the wave size. */
  ghost predicate Wave(w: World, fns: Fns, pending: map<string, seq<Id>>) {
    && (forall f :: f in Flat(w.jobs) ==> f in fns)
    && (forall d :: d in pending <==> d in w.dcs)
    && forall d {:trigger pending[d]} :: d in pending ==> pending[d] == Truncate(Wanted(w, fns, Flat(w.jobs), d), w.wave)
  }

  /** Everything a step changes. */
  datatype Env = Env(fns: Fns, now: real, count: nat)

  ghost predicate EnvOk(w: World, e: Env) {
    && Closed(w.g) && Covers(w) && w.interval >= 0.0
    && Inv(w.g, e.fns, e.now, e.now)
    && |Unfinished(e.fns)| + e.count == |w.g.preds.Keys|
  }

  /** The effect of `step`: perform the actions, let time pass, release what became ready. */
  function Stepped(w: World, e: Env, actions: seq<Action>, dur: nat -> real): Env {
    var s := ActAll(w, e.now, Progress(e.fns, e.now, e.count), actions, dur);
    var now := s.top + w.interval;
    Env(Release(w.g, s.fns, w.g.preds.Keys, now), now, s.count)
  }

  lemma SteppedInv(w: World, e: Env, actions: seq<Action>, dur: nat -> real)
    requires Closed(w.g) && w.interval >= 0.0 && Inv(w.g, e.fns, e.now, e.now) && Lasting(dur)
    ensures var e' := Stepped(w, e, actions, dur);
            Inv(w.g, e'.fns, e'.now, e'.now) && e'.now >= e.now
  {
    var s := Progress(e.fns, e.now, e.count);
    var s' := ActAll(w, e.now, s, actions, dur);
    ActAllInv(w, e.now, s, actions, dur);
    AfterStep(w, s'.fns, e.now, s'.top, s'.top + w.interval);
  }

  /** A step finishes the functions of the accepted actions, counts them, and releases all it can. */
  lemma SteppedShrinks(w: World, e: Env, actions: seq<Action>, dur: nat -> real)
    ensures var e' := Stepped(w, e, actions, dur);
            && Unfinished(e'.fns) <= Unfinished(e.fns) && e'.fns.Keys == e.fns.Keys
            && |Unfinished(e'.fns)| + e'.count == |Unfinished(e.fns)| + e.count
            && forall a :: a in actions && Accepted(w, e.fns, a) ==> a.fid !in Unfinished(e'.fns)
  {
    var s := Progress(e.fns, e.now, e.count);
    var s' := ActAll(w, e.now, s, actions, dur);
    ActAllShrinks(w, e.now, s, actions, dur);
    ReleaseFrame(w.g, s'.fns, w.g.preds.Keys, s'.top + w.interval);
  }

  /** Every step, whatever the actions, keeps dependencies and times right. */
  lemma SteppedKeeps(w: World, e: Env, actions: seq<Action>, dur: nat -> real)
    requires EnvOk(w, e) && Lasting(dur)
    ensures EnvOk(w, Stepped(w, e, actions, dur))
  {
    SteppedInv(w, e, actions, dur);
    SteppedShrinks(w, e, actions, dur);
  }

  /** What a step records for a function it finishes: the first accepted action for it decides. */
  ghost predicate RecordedAt(w: World, e: Env, actions: seq<Action>, dur: nat -> real, f: Id, fn: Fn, i: int, n: int) {
    && 0 <= i < |actions| && actions[i].fid == f && actions[i].dc in w.dcs && n >= e.count
    && (forall j :: 0 <= j < i ==> !(actions[j].fid == f && actions[j].dc in w.dcs))
    && f in e.fns && fn == Fn(Finished, e.fns[f].arrival, e.now, dur(n), e.now + dur(n), actions[i].dc)
  }

  ghost predicate Recorded(w: World, e: Env, actions: seq<Action>, dur: nat -> real, f: Id, fn: Fn) {
    exists i, n :: RecordedAt(w, e, actions, dur, f, fn, i, n)
  }

  /** A pending function without an action on a known data centre is as before; any other has been recorded. */
  ghost predicate ActedOn(w: World, e: Env, actions: seq<Action>, dur: nat -> real, s: Progress, f: Id) {
    && f in e.fns && f in s.fns && s.count >= e.count
    && if e.fns[f].status == Pending && exists j :: 0 <= j < |actions| && actions[j].fid == f && actions[j].dc in w.dcs
       then Recorded(w, e, actions, dur, f, s.fns[f])
       else s.fns[f] == e.fns[f]
  }

  lemma RecordedMore(w: World, e: Env, init: seq<Action>, l: Action, dur: nat -> real, f: Id, fn: Fn)
    requires Recorded(w, e, init, dur, f, fn)
    ensures Recorded(w, e, init + [l], dur, f, fn)
  {
    var i, n :| RecordedAt(w, e, init, dur, f, fn, i, n);
    assert RecordedAt(w, e, init + [l], dur, f, fn, i, n);
  }

  lemma {:induction false} ActsRecord(w: World, e: Env, actions: seq<Action>, dur: nat -> real, f: Id)
    requires f in e.fns
    ensures ActedOn(w, e, actions, dur, ActAll(w, e.now, Progress(e.fns, e.now, e.count), actions, dur), f)
  {
    if actions != [] {
      var init, l := actions[..|actions| - 1], actions[|actions| - 1];
      assert actions == init + [l];
      ActsRecord(w, e, init, dur, f);
      var mid := ActAll(w, e.now, Progress(e.fns, e.now, e.count), init, dur);
      var end := Act(w, e.now, mid, l, dur);
      assert end == ActAll(w, e.now, Progress(e.fns, e.now, e.count), actions, dur);
      if j :| 0 <= j < |init| && init[j].fid == f && init[j].dc in w.dcs {
        assert actions[j] == init[j];
        if e.fns[f].status == Pending {
          var i, n :| RecordedAt(w, e, init, dur, f, mid.fns[f], i, n);
          assert end.fns[f] == mid.fns[f];
          RecordedMore(w, e, init, l, dur, f, mid.fns[f]);
        }
      } else if l.fid == f && l.dc in w.dcs {
        assert actions[|init|] == l;
        if e.fns[f].status == Pending {
          assert RecordedAt(w, e, actions, dur, f, end.fns[f], |init|, mid.count);
        }
      } else {
        assert forall j :: 0 <= j < |actions| ==> !(actions[j].fid == f && actions[j].dc in w.dcs) by {
          forall j | 0 <= j < |actions| ensures !(actions[j].fid == f && actions[j].dc in w.dcs) { if j < |init| { assert actions[j] == init[j]; } }
        }
      }
    }
  }

  /** The latest finish is the time of the step or that of a function it finished, and no such function ends later. */
  ghost predicate IsLatest(e: Env, s: Progress) {
    && e.now <= s.top
    && (forall f :: f in Unfinished(e.fns) && IsFinished(s.fns, f) ==> s.fns[f].finish <= s.top)
    && (s.top == e.now || exists f :: f in Unfinished(e.fns) && IsFinished(s.fns, f) && s.fns[f].finish == s.top)
  }

  lemma LatestNext(w: World, e: Env, s: Progress, a: Action, dur: nat -> real)
    requires IsLatest(e, s) && Lasting(dur) && s.fns.Keys == e.fns.Keys
    requires forall f :: f in s.fns && s.fns[f].status == Pending ==> f in Unfinished(e.fns)
    ensures var s' := Act(w, e.now, s, a, dur);
            && IsLatest(e, s') && s'.fns.Keys == e.fns.Keys
            && forall f :: f in s'.fns && s'.fns[f].status == Pending ==> f in Unfinished(e.fns)
  {
    var s' := Act(w, e.now, s, a, dur);
    if Accepted(w, s.fns, a) {
      assert dur(s.count) >= 0.0;
      assert a.fid in Unfinished(e.fns) && IsFinished(s'.fns, a.fid);
      forall f | f in Unfinished(e.fns) && IsFinished(s'.fns, f) ensures s'.fns[f].finish <= s'.top {
        if f != a.fid { assert IsFinished(s.fns, f); }
      }
      if s'.top == s.top && s.top != e.now {
        var f :| f in Unfinished(e.fns) && IsFinished(s.fns, f) && s.fns[f].finish == s.top;
        assert f != a.fid && IsFinished(s'.fns, f) && s'.fns[f].finish == s'.top;
      }
    }
  }

  lemma {:induction false} ActsLatest(w: World, e: Env, actions: seq<Action>, dur: nat -> real)
    requires Lasting(dur)
    ensures var s := ActAll(w, e.now, Progress(e.fns, e.now, e.count), actions, dur);
            && IsLatest(e, s) && s.fns.Keys == e.fns.Keys
            && forall f :: f in s.fns && s.fns[f].status == Pending ==> f in Unfinished(e.fns)
  {
    if actions != [] {
      ActsLatest(w, e, actions[..|actions| - 1], dur);
      LatestNext(w, e, ActAll(w, e.now, Progress(e.fns, e.now, e.count), actions[..|actions| - 1], dur), actions[|actions| - 1], dur);
    }
  }

  /**
   What a step amounts to.  A pending function with an action on a known data centre is
   finished, with the start, duration, finish and placement of its first such action;
   every other function keeps its record up to release; and the clock moves to the
   latest finish among the newly finished, or stays, plus the interval.
   */
  lemma StepAmounts(w: World, e: Env, actions: seq<Action>, dur: nat -> real, f: Id)
    requires f in e.fns && Lasting(dur)
    ensures var s := ActAll(w, e.now, Progress(e.fns, e.now, e.count), actions, dur);
            var e' := Stepped(w, e, actions, dur);
            && ActedOn(w, e, actions, dur, s, f) && IsLatest(e, s) && e'.now == s.top + w.interval && e'.count == s.count
            && f in e'.fns
            && (e'.fns[f] == s.fns[f]
                || (s.fns[f].status == Waiting && e'.fns[f] == s.fns[f].(status := Pending, arrival := e'.now)))
  {
    ActsRecord(w, e, actions, dur, f);
    ActsLatest(w, e, actions, dur);
  }

  /** The state after any number of steps with arbitrary actions. */
  function After(w: World, e: Env, plans: seq<seq<Action>>, dur: nat -> real): Env {
    if plans == [] then e else Stepped(w, After(w, e, plans[..|plans| - 1], dur), plans[|plans| - 1], dur)
  }

  /**
   In every run, under any policy: a function that left WAITING has all its
   predecessors finished, none of them after its start, and a finished function ends
   no earlier than the durations along any dependency path into it add up to.
   */
  lemma {:induction false} EveryRun(w: World, e: Env, plans: seq<seq<Action>>, dur: nat -> real)
    requires EnvOk(w, e) && Lasting(dur)
    ensures var e' := After(w, e, plans, dur);
            && EnvOk(w, e')
            && forall p :: Dag.IsPath(w.g, p) && IsFinished(e'.fns, Dag.Last(p)) ==> Total(e'.fns, p) <= e'.fns[Dag.Last(p)].finish
  {
    var e' := After(w, e, plans, dur);
    if plans != [] {
      EveryRun(w, e, plans[..|plans| - 1], dur);
      SteppedKeeps(w, After(w, e, plans[..|plans| - 1], dur), plans[|plans| - 1], dur);
    }
    forall p | Dag.IsPath(w.g, p) && IsFinished(e'.fns, Dag.Last(p)) ensures Total(e'.fns, p) <= e'.fns[Dag.Last(p)].finish {
      PathTakesItsTime(w.g, e'.fns, e'.now, e'.now, p);
    }
  }

  class DemeterEnv {
    const w: World
    var fns: Fns
    var now: real
    var count: nat

    ghost function Value(): Env
      reads this
    {
      Env(fns, now, count)
    }

    ghost predicate Valid()
      reads this
    {
      EnvOk(w, Value())
    }

    /** A fresh environment at time zero. */
    constructor (w: World, funcs: map<Id, Func>, arrival: Id -> real)
      requires Closed(w.g) && Covers(w) && w.interval >= 0.0 && Fresh(w.g, funcs)
      ensures this.w == w && Valid() && now == 0.0 && count == 0
      ensures fns.Keys == funcs.Keys
      ensures forall f :: f in funcs ==> fns[f].status == funcs[f].status && fns[f].arrival == arrival(f)
    {
      this.w := w;
      fns := map f | f in funcs :: Fn(funcs[f].status, arrival(f), 0.0, 0.0, 0.0, "");
      now := 0.0;
      count := 0;
      new;
      assert Unfinished(fns) == w.g.preds.Keys;
      forall f | f in fns ensures Released(w.g, fns, now, f) && Timed(fns[f], now, now) {
        assert funcs[f] == funcs[f];
      }
    }

    /** `release_ready_functions` for one job. */
    method ReleaseJob(j: nat)
      requires j < |w.jobs| && fns.Keys == w.g.preds.Keys && Covers(w)
      modifies this`fns
      ensures fns == Release(w.g, old(fns), Dag.Members(w.jobs[j]), now)
    {
      var job := w.jobs[j];
      assert Release(w.g, fns, Dag.Members(job[..0]), now) == fns;
      for i := 0 to |job|
        invariant fns == Release(w.g, old(fns), Dag.Members(job[..i]), now)
      {
        var f := job[i];
        assert InJob(w.jobs, j, f);
        ReleaseNext(w.g, old(fns), job, i, now);
        ReleaseOne(w.g, fns, f, now);
        if Ready(w.g, fns, f) {
          fns := fns[f := fns[f].(status := Pending, arrival := now)];
        }
      }
      assert job[..|job|] == job;
    }

    /** Enters one pending function in the lists of its data centres. */
    method Enter(f: Id, pending: map<string, seq<Id>>) returns (pending': map<string, seq<Id>>)
      ensures pending'.Keys == pending.Keys
      ensures forall d :: d in pending ==> pending'[d] == pending[d] + Asks(f, Candidates(w, f), d)
    {
      pending' := pending;
      var names := Candidates(w, f);
      for i := 0 to |names|
        invariant pending'.Keys == pending.Keys
        invariant forall d :: d in pending ==> pending'[d] == pending[d] + Asks(f, names[..i], d)
      {
        assert names[..i + 1][..i] == names[..i];
        if names[i] in pending' { pending' := pending'[names[i] := pending'[names[i]] + [f]]; }
      }
      assert names[..|names|] == names;
    }

    method Collect(j: nat, pending: map<string, seq<Id>>) returns (pending': map<string, seq<Id>>)
      requires j < |w.jobs| && fns.Keys == w.g.preds.Keys && Covers(w)
      requires Observed(w, fns, Flat(w.jobs[..j]), pending)
      ensures Observed(w, fns, Flat(w.jobs[..j + 1]), pending')
    {
      pending' := pending;
      var job := w.jobs[j];
      ghost var order := Flat(w.jobs[..j]);
      assert order + job[..0] == order;
      for i := 0 to |job|
        invariant Observed(w, fns, order + job[..i], pending')
      {
        var f := job[i];
        assert InJob(w.jobs, j, f);
        ghost var before := pending';
        if fns[f].status == Pending { pending' := Enter(f, pending'); }
        ObservedNext(w, fns, order + job[..i], f, before, pending');
        assert order + job[..i + 1] == order + job[..i] + [f];
      }
      assert job[..|job|] == job;
      FlatPrefix(w.jobs, j);
    }

    /** `observe`: releases what is ready and lists, per data centre, the first `wave` pending functions. */
    method Observe() returns (wave: map<string, seq<Id>>)
      requires fns.Keys == w.g.preds.Keys && Covers(w)
      modifies this`fns
      ensures fns == Release(w.g, old(fns), w.g.preds.Keys, now)
      ensures Wave(w, fns, wave)
    {
      var pending: map<string, seq<Id>> := map d | d in w.dcs :: [];
      assert Release(w.g, fns, Dag.Members(Flat(w.jobs[..0])), now) == fns;
      for j := 0 to |w.jobs|
        invariant fns == Release(w.g, old(fns), Dag.Members(Flat(w.jobs[..j])), now)
        invariant Observed(w, fns, Flat(w.jobs[..j]), pending)
      {
        ghost var before := fns;
        ReleaseJob(j);
        NextJobReleased(w, old(fns), before, fns, j, now, pending);
        pending := Collect(j, pending);
      }
      assert w.jobs[..|w.jobs|] == w.jobs;
      FlatAll(w);
      wave := map d | d in pending :: Truncate(pending[d], w.wave);
    }

    /** The action loop of `step`. */
    method Perform(actions: seq<Action>, dur: nat -> real) returns (top: real)
      modifies this`fns, this`count
      ensures Progress(fns, top, count) == ActAll(w, now, Progress(old(fns), now, old(count)), actions, dur)
    {
      top := now;
      for i := 0 to |actions|
        invariant Progress(fns, top, count) == ActAll(w, now, Progress(old(fns), now, old(count)), actions[..i], dur)
      {
        var a := actions[i];
        assert actions[..i + 1][..i] == actions[..i];
        if Accepted(w, fns, a) {
          var end := now + dur(count);
          fns := fns[a.fid := Fn(Finished, fns[a.fid].arrival, now, dur(count), end, a.dc)];
          top := Later(top, end);
          count := count + 1;
        }
      }
      assert actions[..|actions|] == actions;
    }

    method ReleaseAll()
      requires fns.Keys == w.g.preds.Keys && Covers(w)
      modifies this`fns
      ensures fns == Release(w.g, old(fns), w.g.preds.Keys, now)
    {
      assert Release(w.g, fns, Dag.Members(Flat(w.jobs[..0])), now) == fns;
      for j := 0 to |w.jobs|
        invariant fns == Release(w.g, old(fns), Dag.Members(Flat(w.jobs[..j])), now)
      {
        ReleaseJob(j);
        FlatPrefix(w.jobs, j);
        ReleaseMore(w.g, old(fns), Dag.Members(Flat(w.jobs[..j])), Dag.Members(w.jobs[j]), now);
      }
      assert w.jobs[..|w.jobs|] == w.jobs;
      FlatAll(w);
    }

    /** The state changes of `step`. */
    method Advance(actions: seq<Action>, dur: nat -> real) returns (wave: map<string, seq<Id>>)
      requires fns.Keys == w.g.preds.Keys && Covers(w)
      modifies this`fns, this`count, this`now
      ensures Value() == Stepped(w, old(Value()), actions, dur) && Wave(w, fns, wave)
    {
      ghost var e := Value();
      KeysKept(w, e, actions, dur);
      var top := Perform(actions, dur);
      ghost var acted := fns;
      now := top + w.interval;
      ReleaseAll();
      ghost var released := fns;
      KeysReleased(w, acted, now);
      wave := Observe();
      SteppedIs(w, e, actions, dur, Progress(acted, top, count), released, fns);
    }

    /** `step`, for whatever actions a policy comes up with. */
    method Step(actions: seq<Action>, dur: nat -> real) returns (wave: map<string, seq<Id>>, done: bool)
      requires Valid() && Lasting(dur)
      modifies this`fns, this`count, this`now
      ensures Valid() && Value() == Stepped(w, old(Value()), actions, dur)
      ensures done == AllDone(fns, w.jobs) && Wave(w, fns, wave)
    {
      SteppedKeeps(w, Value(), actions, dur);
      wave := Advance(actions, dur);
      done := AllDone(fns, w.jobs);
    }

    /** Between two turns of the run: everything ready is released and the wave shows it. */
    ghost predicate Poised(wave: map<string, seq<Id>>)
      reads this
    {
      Valid() && Settled(w.g, fns) && Wave(w, fns, wave)
    }

    /** The first observation, as `reset` makes it. */
    method Start() returns (wave: map<string, seq<Id>>)
      requires Valid()
      modifies this`fns
      ensures Poised(wave) && Unfinished(fns) == Unfinished(old(fns))
      ensures OnlyClear(w, old(fns)) ==> OnlyClear(w, fns)
    {
      Prepared(w, Value());
      SameUnfinished(w, Value());
      wave := Observe();
    }

    /** One turn: plan and step. */
    method Turn(wave: map<string, seq<Id>>, dur: nat -> real) returns (wave': map<string, seq<Id>>, done: bool)
      requires Poised(wave) && w.wave >= 1 && Lasting(dur)
      modifies this`fns, this`count, this`now
      ensures Poised(wave') && Unfinished(fns) <= Unfinished(old(fns))
      ensures done <==> Unfinished(fns) == {} && NoEmptyJob(w)
      ensures done ==> AllDone(fns, w.jobs)
      ensures ClearLeft(w, old(fns)) ==> |Unfinished(fns)| < |Unfinished(old(fns))|
      ensures OnlyClear(w, old(fns)) ==> OnlyClear(w, fns)
    {
      var actions := Plan(w, wave);
      Decreases(w, Value(), wave, actions, dur);
      KeepsClear(w, Value(), wave, actions, dur);
      wave', done := Step(actions, dur);
      DoneWhenNoneLeft(w, fns);
    }

    /** The loop of `cli.py`: observe, plan with the Pheromone policy, step, until all jobs are done. */
    method Run(dur: nat -> real) returns (steps: nat)
      requires Valid() && Runnable(w) && Lasting(dur)
      modifies this`fns, this`count, this`now
      ensures Valid() && Unfinished(fns) == {} && AllDone(fns, w.jobs)
      ensures steps == 1 || steps <= |Unfinished(old(fns))|
    {
      var wave := Start();
      var done := false;
      steps := 0;
      while !done
        invariant Poised(wave) && (done ==> AllDone(fns, w.jobs) && Unfinished(fns) == {})
        invariant !done && steps > 0 ==> Unfinished(fns) != {}
        invariant steps + |Unfinished(fns)| <= |Unfinished(old(fns))| || (done && steps == 1)
        decreases |Unfinished(fns)|, !done
      {
        RunnableClears(w, Value());
        wave, done := Turn(wave, dur);
        steps := steps + 1;
      }
    }

    /**
     The same loop for `n` turns, whatever the graph and the data centres.  What
     finishes are functions that neither depend on a cycle nor on a function without a
     data centre; after as many turns as there are functions it is exactly those.  So
     the loop ends if and only if that is everybody and no job is empty.
     */
    method RunFor(n: nat, dur: nat -> real) returns (done: bool)
      requires Valid() && w.wave >= 1 && Lasting(dur) && OnlyClear(w, fns)
      modifies this`fns, this`count, this`now
      ensures Valid() && OnlyClear(w, fns)
      ensures n >= |Unfinished(old(fns))| ==> !ClearLeft(w, fns)
      ensures done ==> Unfinished(fns) == {} && NoEmptyJob(w)
      ensures n > 0 ==> (done <==> Unfinished(fns) == {} && NoEmptyJob(w))
    {
      var wave := Start();
      done := false;
      for i := 0 to n
        invariant Poised(wave) && OnlyClear(w, fns)
        invariant i + |Unfinished(fns)| <= |Unfinished(old(fns))| || !ClearLeft(w, fns)
        invariant done ==> Unfinished(fns) == {} && NoEmptyJob(w)
        invariant i > 0 ==> (done <==> Unfinished(fns) == {} && NoEmptyJob(w))
      {
        ghost var before := fns;
        wave, done := Turn(wave, dur);
        StaysClear(w, before, fns);
      }
      NoneLeft(w, fns);
    }
  }

  lemma KeysKept(w: World, e: Env, actions: seq<Action>, dur: nat -> real)
    ensures ActAll(w, e.now, Progress(e.fns, e.now, e.count), actions, dur).fns.Keys == e.fns.Keys
  {
    ActAllPending(w, e.now, Progress(e.fns, e.now, e.count), actions, dur);
  }

  lemma KeysReleased(w: World, fns: Fns, now: real)
    ensures Release(w.g, fns, w.g.preds.Keys, now).Keys == fns.Keys
  {
  }

  lemma SteppedIs(w: World, e: Env, actions: seq<Action>, dur: nat -> real, s: Progress, once: Fns, twice: Fns)
    requires s == ActAll(w, e.now, Progress(e.fns, e.now, e.count), actions, dur)
    requires once == Release(w.g, s.fns, w.g.preds.Keys, s.top + w.interval)
    requires twice == Release(w.g, once, w.g.preds.Keys, s.top + w.interval)
    ensures Env(twice, s.top + w.interval, s.count) == Stepped(w, e, actions, dur)
  {
    ReleaseMore(w.g, s.fns, w.g.preds.Keys, w.g.preds.Keys, s.top + w.interval);
    assert w.g.preds.Keys + w.g.preds.Keys == w.g.preds.Keys;
  }

  lemma ObservedFrame(w: World, fns: Fns, fns': Fns, order: seq<Id>, pending: map<string, seq<Id>>)
    requires Observed(w, fns, order, pending)
    requires forall f :: f in order ==> f in fns' && fns'[f] == fns[f]
    ensures Observed(w, fns', order, pending)
  {
    forall d | d in pending ensures pending[d] == Wanted(w, fns', order, d) { WantedFrame(w, fns, fns', order, d); }
  }

  /** Releasing the next job leaves the lists of the earlier ones right. */
  lemma NextJobReleased(w: World, start: Fns, fns: Fns, fns': Fns, j: nat, now: real, pending: map<string, seq<Id>>)
    requires j < |w.jobs| && Covers(w)
    requires fns == Release(w.g, start, Dag.Members(Flat(w.jobs[..j])), now)
    requires fns' == Release(w.g, fns, Dag.Members(w.jobs[j]), now)
    requires Observed(w, fns, Flat(w.jobs[..j]), pending)
    ensures fns' == Release(w.g, start, Dag.Members(Flat(w.jobs[..j + 1])), now)
    ensures Observed(w, fns', Flat(w.jobs[..j]), pending)
  {
    FlatPrefix(w.jobs, j);
    ReleaseMore(w.g, start, Dag.Members(Flat(w.jobs[..j])), Dag.Members(w.jobs[j]), now);
    ReleaseFrame(w.g, fns, Dag.Members(w.jobs[j]), now);
    FlatKnown(w, j);
    MembersIn(w.jobs[j]);
    ObservedFrame(w, fns, fns', Flat(w.jobs[..j]), pending);
  }

  lemma AfterStep(w: World, fns: Fns, now: real, top: real, later: real)
    requires Closed(w.g) && Inv(w.g, fns, now, top) && top <= later
    ensures Inv(w.g, Release(w.g, fns, w.g.preds.Keys, later), later, later)
    ensures Unfinished(Release(w.g, fns, w.g.preds.Keys, later)) == Unfinished(fns)
  {
    assert Inv(w.g, fns, now, later) by {
      forall f | f in fns ensures Timed(fns[f], now, later) && Released(w.g, fns, now, f) {
        assert Released(w.g, fns, now, f) && Timed(fns[f], now, top);
      }
    }
    ReleaseInv(w.g, fns, w.g.preds.Keys, now, later);
    ReleaseFrame(w.g, fns, w.g.preds.Keys, later);
  }

  // --------------------------------------------------------- planning and progress

  ghost predicate Listed(wave: map<string, seq<Id>>, f: Id) {
    exists d :: d in wave && f in wave[d]
  }

  /** The inner loop of `all_pending_functions`: appends what is not there yet. */
  method AddNew(fns: seq<Id>, pending: seq<Id>) returns (pending': seq<Id>)
    requires Dag.NoDup(pending)
    ensures Dag.NoDup(pending') && forall f :: f in pending' <==> f in pending || f in fns
  {
    pending' := pending;
    for i := 0 to |fns|
      invariant Dag.NoDup(pending') && forall f :: f in pending' <==> f in pending || f in fns[..i]
    {
      assert fns[..i + 1] == fns[..i] + [fns[i]];
      if fns[i] !in pending' { pending' := pending' + [fns[i]]; }
    }
    assert fns[..|fns|] == fns;
  }

  /** `all_pending_functions`: every listed function once. */
  method AllPending(w: World, wave: map<string, seq<Id>>) returns (pending: seq<Id>)
    requires forall d :: d in wave <==> d in w.dcs
    ensures Dag.NoDup(pending)
    ensures forall f :: f in pending <==> Listed(wave, f)
  {
    pending := [];
    var keys := Keys(w.dcs);
    for k := 0 to |keys|
      invariant Dag.NoDup(pending)
      invariant forall f :: f in pending <==> exists d :: d in keys[..k] && f in wave[d]
    {
      assert keys[..k + 1] == keys[..k] + [keys[k]];
      pending := AddNew(wave[keys[k]], pending);
    }
    assert keys[..|keys|] == keys;
  }

  /** `PheromonePolicy.plan`. */
  method Plan(w: World, wave: map<string, seq<Id>>) returns (actions: seq<Action>)
    requires forall d :: d in wave <==> d in w.dcs
    ensures forall a :: a in actions ==> Listed(wave, a.fid) && WellPlaced(w, a)
    ensures forall f :: Listed(wave, f) && Usable(w, f) ==> exists a :: a in actions && a.fid == f
  {
    var pending := AllPending(w, wave);
    actions := Planned(w, pending);
  }

  /** What the run needs to end: no cycle, room in a wave, no empty job, and a data centre for everyone. */
  ghost predicate Runnable(w: World) {
    && Dag.Acyclic(w.g) && w.wave >= 1
    && (forall j :: 0 <= j < |w.jobs| ==> w.jobs[j] != [])
    && forall f {:trigger Usable(w, f)} :: f in w.g.preds ==> Usable(w, f)
  }

  // ------------------------------------------------------- who can ever finish

  /** The function lies on or after a cycle, or is or comes after one that has no data centre. */
  ghost predicate Stuck(w: World, f: Id) {
    Dag.Tainted(w.g, f) || AfterUnusable(w, f)
  }

  ghost predicate AfterUnusable(w: World, f: Id) {
    exists p :: Dag.PathTo(w.g, p, f) && !Usable(w, p[0])
  }

  ghost predicate OnlyClear(w: World, fns: Fns) {
    forall f {:trigger Stuck(w, f)} :: IsFinished(fns, f) ==> !Stuck(w, f)
  }

  /** Somebody is unfinished who need not be. */
  ghost predicate ClearLeft(w: World, fns: Fns) {
    exists f {:trigger Stuck(w, f)} :: f in Unfinished(fns) && !Stuck(w, f)
  }

  ghost predicate NoEmptyJob(w: World) {
    forall j :: 0 <= j < |w.jobs| ==> w.jobs[j] != []
  }

  lemma StuckNext(w: World, u: Id, f: Id)
    requires Stuck(w, u) && f in w.g.preds && Dag.Edge(w.g, u, f)
    ensures Stuck(w, f)
  {
    if Dag.Tainted(w.g, u) {
      var c, p :| Dag.IsCycle(w.g, c) && Dag.PathTo(w.g, p, u) && p[0] == Dag.Last(c);
      Dag.ExtendPath(w.g, p, f);
      assert Dag.PathTo(w.g, p + [f], f) && (p + [f])[0] == p[0];
    } else {
      var p :| Dag.PathTo(w.g, p, u) && !Usable(w, p[0]);
      Dag.ExtendPath(w.g, p, f);
      assert Dag.PathTo(w.g, p + [f], f) && (p + [f])[0] == p[0];
    }
  }

  lemma InitPath(g: Dag.Graph, p: seq<Id>)
    requires Dag.IsPath(g, p) && |p| > 1
    ensures Dag.PathTo(g, p[..|p| - 1], p[|p| - 2]) && Dag.Edge(g, p[|p| - 2], Dag.Last(p))
  {
    Dag.SubPath(g, p, 0, |p| - 1);
    assert p[0..|p| - 1] == p[..|p| - 1];
    assert Dag.Edge(g, p[|p| - 2], p[|p| - 2 + 1]);
  }

  /** Whoever is stuck although it has a data centre waits for somebody who is stuck. */
  lemma StuckPred(w: World, f: Id) returns (u: Id)
    requires Stuck(w, f) && Usable(w, f)
    ensures Dag.Edge(w.g, u, f) && Stuck(w, u)
  {
    if Dag.Tainted(w.g, f) {
      var c, p :| Dag.IsCycle(w.g, c) && Dag.PathTo(w.g, p, f) && p[0] == Dag.Last(c);
      if |p| > 1 {
        InitPath(w.g, p);
        u := p[|p| - 2];
        assert p[..|p| - 1][0] == p[0];
      } else {
        InitPath(w.g, c);
        u := c[|c| - 2];
        assert c[..|c| - 1][0] == c[0];
      }
      assert Dag.Tainted(w.g, u);
    } else {
      var p :| Dag.PathTo(w.g, p, f) && !Usable(w, p[0]);
      InitPath(w.g, p);
      u := p[|p| - 2];
      assert p[..|p| - 1][0] == p[0];
      assert AfterUnusable(w, u);
    }
  }

  lemma ClearUsable(w: World, f: Id)
    requires f in w.g.preds && !Stuck(w, f)
    ensures Usable(w, f)
  {
    assert Dag.PathTo(w.g, [f], f);
  }

  /** If somebody clear is unfinished, somebody clear is pending. */
  lemma SomeClearPending(w: World, fns: Fns, now: real, top: real) returns (f: Id)
    requires Closed(w.g) && Inv(w.g, fns, now, top) && Settled(w.g, fns) && ClearLeft(w, fns)
    ensures f in fns && fns[f].status == Pending && !Stuck(w, f)
  {
    var x :| x in Unfinished(fns) && !Stuck(w, x);
    var u := set y | y in Unfinished(fns) && !Stuck(w, y);
    if f' :| f' in u && fns[f'].status == Pending {
      f := f';
    } else {
      forall y | y in u ensures Dag.HasPredIn(w.g, u, y) { ClearWaits(w, fns, now, top, u, y); }
      Dag.NoMinimum(w.g, u, x);
      assert false;
    }
  }

  /** Whoever waits although clear waits for somebody unfinished and clear. */
  lemma ClearWaits(w: World, fns: Fns, now: real, top: real, u: set<Id>, y: Id)
    requires Closed(w.g) && Inv(w.g, fns, now, top) && Settled(w.g, fns)
    requires u == (set y | y in Unfinished(fns) && !Stuck(w, y)) && y in u && fns[y].status != Pending
    ensures Dag.HasPredIn(w.g, u, y)
  {
    assert Released(w.g, fns, now, y) && Timed(fns[y], now, top) && !Ready(w.g, fns, y);
    var i :| 0 <= i < |w.g.preds[y]| && !(w.g.preds[y][i] in fns && fns[w.g.preds[y][i]].status == Finished);
    var z := w.g.preds[y][i];
    assert z in w.g.preds && Dag.Edge(w.g, z, y);
    if Stuck(w, z) { StuckNext(w, z, y); }
    assert z in u;
  }

  /** If anybody clear is unfinished, the wave lists a pending function that has a data centre. */
  lemma SomeListed(w: World, e: Env, wave: map<string, seq<Id>>) returns (f: Id)
    requires EnvOk(w, e) && Settled(w.g, e.fns) && Wave(w, e.fns, wave) && w.wave >= 1 && ClearLeft(w, e.fns)
    ensures f in e.fns && e.fns[f].status == Pending && Listed(wave, f) && Usable(w, f)
  {
    var g := SomeClearPending(w, e.fns, e.now, e.now);
    ClearUsable(w, g);
    var d :| d in w.dcs && MayRunIn(w, g, d);
    FlatAll(w);
    MembersIn(Flat(w.jobs));
    var all := Wanted(w, e.fns, Flat(w.jobs), d);
    assert g in all;
    assert wave[d] == Truncate(all, w.wave);
    f := wave[d][0];
    assert f == all[0];
    assert MayRunIn(w, f, d);
  }

  /** A planned step finishes something as long as somebody clear is unfinished. */
  lemma Decreases(w: World, e: Env, wave: map<string, seq<Id>>, actions: seq<Action>, dur: nat -> real)
    requires EnvOk(w, e) && Settled(w.g, e.fns) && Wave(w, e.fns, wave) && w.wave >= 1 && Lasting(dur)
    requires forall a :: a in actions ==> Listed(wave, a.fid) && WellPlaced(w, a)
    requires forall f :: Listed(wave, f) && Usable(w, f) ==> exists a :: a in actions && a.fid == f
    ensures var e' := Stepped(w, e, actions, dur);
            && Settled(w.g, e'.fns) && Unfinished(e'.fns) <= Unfinished(e.fns)
            && (ClearLeft(w, e.fns) ==> |Unfinished(e'.fns)| < |Unfinished(e.fns)|)
  {
    SteppedSettles(w, e, actions, dur);
    SteppedShrinks(w, e, actions, dur);
    if ClearLeft(w, e.fns) {
      var f := SomeListed(w, e, wave);
      var a :| a in actions && a.fid == f;
      assert Accepted(w, e.fns, a);
      StrictSubset(Unfinished(Stepped(w, e, actions, dur).fns), Unfinished(e.fns), f);
    }
  }

  /** Only functions that were pending and have an action finish in a step. */
  lemma {:induction false} FinishedByAction(w: World, now: real, s: Progress, actions: seq<Action>, dur: nat -> real, f: Id)
    requires f in Unfinished(s.fns) && IsFinished(ActAll(w, now, s, actions, dur).fns, f)
    ensures s.fns[f].status == Pending && exists a :: a in actions && a.fid == f
  {
    var init, l := actions[..|actions| - 1], actions[|actions| - 1];
    var mid := ActAll(w, now, s, init, dur);
    assert actions == init + [l];
    if IsFinished(mid.fns, f) {
      FinishedByAction(w, now, s, init, dur, f);
    } else {
      assert l.fid == f && l in actions;
      StillAsBefore(w, now, s, init, dur, f);
    }
  }

  lemma {:induction false} StillAsBefore(w: World, now: real, s: Progress, actions: seq<Action>, dur: nat -> real, f: Id)
    requires f in s.fns && !IsFinished(ActAll(w, now, s, actions, dur).fns, f)
    ensures var s' := ActAll(w, now, s, actions, dur); f in s'.fns && s'.fns[f] == s.fns[f]
  {
    if actions != [] {
      var init := actions[..|actions| - 1];
      ActAllPending(w, now, s, init, dur);
      ActShrinks(w, now, ActAll(w, now, s, init, dur), actions[|actions| - 1], dur);
      assert f in Unfinished(ActAll(w, now, s, actions, dur).fns);
      StillAsBefore(w, now, s, init, dur, f);
    }
  }

  /** A function finished by the policy is not stuck, if its predecessors are not. */
  lemma ClearWhenPlanned(w: World, e: Env, f: Id)
    requires EnvOk(w, e) && OnlyClear(w, e.fns) && f in e.fns && e.fns[f].status == Pending && Usable(w, f)
    ensures !Stuck(w, f)
  {
    assert Released(w.g, e.fns, e.now, f);
    forall u | Dag.Edge(w.g, u, f) ensures !Stuck(w, u) {
      var i :| 0 <= i < |w.g.preds[f]| && w.g.preds[f][i] == u;
      assert IsFinished(e.fns, u);
    }
    if Stuck(w, f) {
      var u := StuckPred(w, f);
      assert false;
    }
  }

  /** Under the policy nobody stuck ever finishes. */
  lemma KeepsClear(w: World, e: Env, wave: map<string, seq<Id>>, actions: seq<Action>, dur: nat -> real)
    requires EnvOk(w, e) && forall a :: a in actions ==> Listed(wave, a.fid) && WellPlaced(w, a)
    ensures OnlyClear(w, e.fns) ==> OnlyClear(w, Stepped(w, e, actions, dur).fns)
  {
    if OnlyClear(w, e.fns) {
      var s := Progress(e.fns, e.now, e.count);
      var t := ActAll(w, e.now, s, actions, dur);
      KeysKept(w, e, actions, dur);
      forall f | IsFinished(Stepped(w, e, actions, dur).fns, f) ensures !Stuck(w, f) {
        assert IsFinished(t.fns, f);
        if !IsFinished(e.fns, f) {
          FinishedByAction(w, e.now, s, actions, dur, f);
          var a :| a in actions && a.fid == f;
          assert WellPlaced(w, a);
          ClearWhenPlanned(w, e, f);
        }
      }
    }
  }

  lemma StaysClear(w: World, before: Fns, after: Fns)
    requires Unfinished(after) <= Unfinished(before)
    ensures !ClearLeft(w, before) ==> !ClearLeft(w, after)
  {
  }

  lemma NoneLeft(w: World, fns: Fns)
    ensures Unfinished(fns) == {} ==> !ClearLeft(w, fns)
  {
  }

  lemma SameUnfinished(w: World, e: Env)
    ensures var fns := Release(w.g, e.fns, w.g.preds.Keys, e.now); OnlyClear(w, e.fns) ==> OnlyClear(w, fns)
  {
    ReleaseFrame(w.g, e.fns, w.g.preds.Keys, e.now);
    var fns := Release(w.g, e.fns, w.g.preds.Keys, e.now);
    forall f ensures IsFinished(fns, f) ==> IsFinished(e.fns, f) { assert f in Unfinished(fns) <==> f in Unfinished(e.fns); }
  }

  /** Without cycles and with a data centre for everyone, nobody is stuck. */
  lemma RunnableClears(w: World, e: Env)
    requires Runnable(w) && EnvOk(w, e)
    ensures ClearLeft(w, e.fns) <==> Unfinished(e.fns) != {}
    ensures NoEmptyJob(w)
  {
    forall f | f in w.g.preds ensures !Stuck(w, f) {
      forall p | Dag.PathTo(w.g, p, f) ensures Usable(w, p[0]) {}
    }
    if Unfinished(e.fns) != {} {
      var f :| f in Unfinished(e.fns);
      assert !Stuck(w, f);
    }
  }

  lemma CycleStuck(w: World, c: seq<Id>)
    requires Dag.IsCycle(w.g, c)
    ensures Dag.Last(c) in w.g.preds && Stuck(w, Dag.Last(c))
  {
    assert Dag.PathTo(w.g, [Dag.Last(c)], Dag.Last(c));
  }

  /** The conditions of the terminating run say exactly that nobody is stuck and no job is empty. */
  lemma RunnableIff(w: World)
    requires w.wave >= 1
    ensures Runnable(w) <==> NoEmptyJob(w) && forall f {:trigger Stuck(w, f)} :: f in w.g.preds ==> !Stuck(w, f)
  {
    if Runnable(w) {
      forall f | f in w.g.preds ensures !Stuck(w, f) {
        forall p | Dag.PathTo(w.g, p, f) ensures Usable(w, p[0]) {}
      }
    }
    if forall f {:trigger Stuck(w, f)} :: f in w.g.preds ==> !Stuck(w, f) {
      forall f | f in w.g.preds ensures Usable(w, f) { ClearUsable(w, f); }
      forall c ensures !Dag.IsCycle(w.g, c) { if Dag.IsCycle(w.g, c) { CycleStuck(w, c); } }
    }
  }

  /** A job without functions is never done, whatever is done with the others. */
  lemma EmptyJobNeverDone(w: World, e: Env, plans: seq<seq<Action>>, dur: nat -> real)
    requires !NoEmptyJob(w)
    ensures !AllDone(After(w, e, plans, dur).fns, w.jobs)
  {
    var j :| 0 <= j < |w.jobs| && w.jobs[j] == [];
    assert !JobDone(After(w, e, plans, dur).fns, w.jobs[j]);
  }

  lemma StrictSubset(a: set<Id>, b: set<Id>, x: Id)
    requires a <= b && x in b && x !in a
    ensures |a| < |b|
  {
    Sets.SubsetSize(a, b - {x});
  }

  lemma SteppedSettles(w: World, e: Env, actions: seq<Action>, dur: nat -> real)
    requires EnvOk(w, e)
    ensures Settled(w.g, Stepped(w, e, actions, dur).fns)
  {
    var s := ActAll(w, e.now, Progress(e.fns, e.now, e.count), actions, dur);
    KeysKept(w, e, actions, dur);
    ReleaseSettles(w.g, s.fns, s.top + w.interval);
  }

  /** The first observation leaves a valid state with nothing ready left waiting. */
  lemma Prepared(w: World, e: Env)
    requires EnvOk(w, e)
    ensures var fns := Release(w.g, e.fns, w.g.preds.Keys, e.now);
            EnvOk(w, e.(fns := fns)) && Settled(w.g, fns) && Unfinished(fns) == Unfinished(e.fns)
  {
    ReleaseInv(w.g, e.fns, w.g.preds.Keys, e.now, e.now);
    ReleaseFrame(w.g, e.fns, w.g.preds.Keys, e.now);
    ReleaseSettles(w.g, e.fns, e.now);
  }

  /** All jobs are done exactly when no function is left; an empty job is never done. */
  lemma DoneWhenNoneLeft(w: World, fns: Fns)
    requires Covers(w) && fns.Keys == w.g.preds.Keys
    ensures AllDone(fns, w.jobs) <==> Unfinished(fns) == {} && NoEmptyJob(w)
  {
    if AllDone(fns, w.jobs) {
      forall f | f in fns ensures fns[f].status == Finished {
        assert InSomeJob(w.jobs, f);
        var j :| InJob(w.jobs, j, f);
        assert JobDone(fns, w.jobs[j]);
      }
    }
    if Unfinished(fns) == {} && NoEmptyJob(w) {
      forall j | 0 <= j < |w.jobs| ensures JobDone(fns, w.jobs[j]) {
        forall f | f in w.jobs[j] ensures f in fns && fns[f].status == Finished {
          assert InJob(w.jobs, j, f);
          assert f !in Unfinished(fns);
        }
      }
    }
  }

  // ----------------------------------------------------------- registering jobs

  ghost predicate IsFunctionOf(job: Job, f: Id) {
    exists s, i: nat :: i < Width(job.stages, s) && f == Name(job.id, s, i)
  }

  ghost predicate FunctionOfSome(profiles: seq<Job>, f: Id) {
    exists k :: 0 <= k < |profiles| && IsFunctionOf(profiles[k], f)
  }

  /** No two jobs have a function of the same name. */
  ghost predicate NamesApart(profiles: seq<Job>) {
    forall k, l, f {:trigger IsFunctionOf(profiles[k], f), IsFunctionOf(profiles[l], f)} ::
      0 <= k < l < |profiles| ==> !(IsFunctionOf(profiles[k], f) && IsFunctionOf(profiles[l], f))
  }

  /** Distinct job ids without ':' keep all names apart. */
  lemma PlainIdsApart(profiles: seq<Job>)
    requires forall k :: 0 <= k < |profiles| ==> ':' !in profiles[k].id
    requires forall k, l :: 0 <= k < l < |profiles| ==> profiles[k].id != profiles[l].id
    ensures NamesApart(profiles)
  {
    forall k, l, f | 0 <= k < l < |profiles| && IsFunctionOf(profiles[k], f) && IsFunctionOf(profiles[l], f) ensures false {
      var s, i: nat :| f == Name(profiles[k].id, s, i);
      var t, j: nat :| f == Name(profiles[l].id, t, j);
      JobOfName(profiles[k].id, s, i, profiles[l].id, t, j);
    }
  }

  lemma JobOfName(a: string, s: string, i: nat, b: string, t: string, j: nat)
    requires ':' !in a && ':' !in b && Name(a, s, i) == Name(b, t, j)
    ensures a == b
  {
    var n := Name(a, s, i);
    assert n[|a|] == ':' && Name(b, t, j)[|b|] == ':';
    assert forall x :: 0 <= x < |a| ==> n[x] == a[x];
    assert forall x :: 0 <= x < |b| ==> n[x] == b[x];
    assert |a| == |b|;
    assert n[..|a|] == a && n[..|b|] == b;
  }

  function Union(g: Dag.Graph, h: Dag.Graph): Dag.Graph {
    Dag.Graph(g.order + h.order, g.preds + h.preds, g.succs + h.succs)
  }

  lemma UnionClosed(g: Dag.Graph, h: Dag.Graph)
    requires Closed(g) && Closed(h) && g.preds.Keys !! h.preds.Keys
    ensures Closed(Union(g, h))
  {
    var u := Union(g, h);
    forall v, i | v in u.preds && 0 <= i < |u.preds[v]| ensures u.preds[v][i] in u.preds {
      if v in h.preds { assert h.preds[v][i] in h.preds; } else { assert g.preds[v][i] in g.preds; }
    }
  }

  /** A path of the union stays in the part where it ends. */
  lemma {:induction false} PathStays(u: Dag.Graph, h: Dag.Graph, p: seq<Id>)
    requires Closed(h) && Dag.IsPath(u, p) && Dag.Last(p) in h.preds
    requires forall v :: v in h.preds ==> v in u.preds && u.preds[v] == h.preds[v]
    ensures Dag.IsPath(h, p)
    decreases |p|
  {
    if |p| > 1 {
      var q := p[..|p| - 1];
      assert Dag.Edge(u, p[|p| - 2], p[|p| - 1]);
      Dag.SubPath(u, p, 0, |p| - 1);
      assert p[0..|p| - 1] == q && q + [Dag.Last(p)] == p;
      var i :| 0 <= i < |h.preds[Dag.Last(p)]| && h.preds[Dag.Last(p)][i] == Dag.Last(q);
      PathStays(u, h, q);
      Dag.ExtendPath(h, q, Dag.Last(p));
    }
  }

  lemma UnionAcyclic(g: Dag.Graph, h: Dag.Graph)
    requires Closed(g) && Closed(h) && g.preds.Keys !! h.preds.Keys && Dag.Acyclic(g) && Dag.Acyclic(h)
    ensures Dag.Acyclic(Union(g, h))
  {
    forall p | Dag.IsCycle(Union(g, h), p) ensures false {
      if Dag.Last(p) in h.preds {
        PathStays(Union(g, h), h, p);
        assert Dag.IsCycle(h, p);
      } else {
        PathStays(Union(g, h), g, p);
        assert Dag.IsCycle(g, p);
      }
    }
  }

  /** Freshly expanded functions: those that start pending wait for nothing. */
  ghost predicate Fresh(g: Dag.Graph, funcs: map<Id, Func>) {
    && funcs.Keys == g.preds.Keys
    && forall f {:trigger funcs[f]} :: f in funcs ==>
         funcs[f].status == Waiting || (funcs[f].status == Pending && g.preds[f] == [])
  }

  lemma CoversMore(g: Dag.Graph, jobs: seq<seq<Id>>, h: Dag.Graph)
    requires CoversGraph(g, jobs) && Dag.Listed(h) && g.preds.Keys !! h.preds.Keys
    ensures CoversGraph(Union(g, h), jobs + [h.order])
  {
    var all := jobs + [h.order];
    forall j, f | InJob(all, j, f) ensures if j < |jobs| then InJob(jobs, j, f) && f in g.preds else f in h.preds {
      if j < |jobs| { assert InJob(jobs, j, f); }
    }
    forall f | f in Union(g, h).preds ensures InSomeJob(all, f) {
      if f in h.preds {
        assert InJob(all, |jobs|, f);
      } else {
        assert InSomeJob(jobs, f);
        var j :| InJob(jobs, j, f);
        assert InJob(all, j, f);
      }
    }
  }

  function IndexOfId(jobs: seq<Job>, id: string): (i: nat)
    ensures i <= |jobs| && (i < |jobs| ==> jobs[i].id == id) && forall j :: 0 <= j < i ==> jobs[j].id != id
  {
    if jobs == [] || jobs[0].id == id then 0 else 1 + IndexOfId(jobs[1..], id)
  }

  /** What the dictionary of jobs holds after the profiles were entered: a later profile replaces one of the same id. */
  function Latest(profiles: seq<Job>): (r: seq<Job>)
    ensures forall k, l :: 0 <= k < l < |r| ==> r[k].id != r[l].id
    ensures forall k :: 0 <= k < |r| ==> r[k] in profiles
  {
    if profiles == [] then []
    else
      var init, last := profiles[..|profiles| - 1], profiles[|profiles| - 1];
      assert profiles == init + [last];
      var r := Latest(init);
      var i := IndexOfId(r, last.id);
      if i < |r| then r[i := last] else r + [last]
  }

  /** No later profile has the id of this one. */
  ghost predicate Survives(profiles: seq<Job>, k: nat)
    requires k < |profiles|
  {
    forall l :: k < l < |profiles| ==> profiles[l].id != profiles[k].id
  }

  /** The dictionary keeps every profile that no later one replaces. */
  lemma {:induction false} LatestKeeps(profiles: seq<Job>, k: nat)
    requires k < |profiles|
    ensures Survives(profiles, k) ==> profiles[k] in Latest(profiles)
  {
    var init, last := profiles[..|profiles| - 1], profiles[|profiles| - 1];
    var r, i := Latest(init), IndexOfId(Latest(init), last.id);
    if Survives(profiles, k) {
      if k < |init| {
        assert Survives(init, k) by { assert forall l :: k < l < |init| ==> init[l] == profiles[l]; }
        LatestKeeps(init, k);
        var j :| 0 <= j < |r| && r[j] == profiles[k];
        assert Latest(profiles)[j] == profiles[k] by { assert profiles[|init|].id != profiles[k].id; }
      } else {
        assert Latest(profiles)[i] == last;
      }
    }
  }

  /** Every entry is a profile that no later one replaces. */
  lemma {:induction false} LatestSurvives(profiles: seq<Job>, i: nat) returns (k: nat)
    requires i < |Latest(profiles)|
    ensures k < |profiles| && profiles[k] == Latest(profiles)[i] && Survives(profiles, k)
  {
    var init, last := profiles[..|profiles| - 1], profiles[|profiles| - 1];
    var r, j := Latest(init), IndexOfId(Latest(init), last.id);
    if i == j {
      k := |init|;
    } else {
      k := LatestSurvives(init, i);
      assert profiles[k] == init[k] && r[i].id != last.id;
      assert forall l :: k < l < |init| ==> profiles[l] == init[l];
    }
  }

  /** Entering one more profile leaves the ids of the entries as they are. */
  lemma LatestIds(init: seq<Job>, last: Job)
    ensures var r, all := Latest(init), Latest(init + [last]);
            && |r| <= |all| <= |r| + 1 && (forall i :: 0 <= i < |r| ==> all[i].id == r[i].id)
            && (|all| == |r| + 1 ==> all[|r|] == last && IndexOfId(r, last.id) == |r|)
  {
    var profiles := init + [last];
    assert profiles[..|profiles| - 1] == init && profiles[|profiles| - 1] == last;
  }

  /** Entries stand in the order in which their ids first occur. */
  lemma {:induction false} LatestInOrder(profiles: seq<Job>, i: nat, j: nat)
    requires i < j < |Latest(profiles)|
    ensures IndexOfId(profiles, Latest(profiles)[i].id) < IndexOfId(profiles, Latest(profiles)[j].id) < |profiles|
  {
    var init, last := profiles[..|profiles| - 1], profiles[|profiles| - 1];
    assert profiles == init + [last];
    LatestIds(init, last);
    if j < |Latest(init)| { LatestInOrder(init, i, j); }
    StillInOrder(init, last, i, j);
  }

  lemma StillInOrder(init: seq<Job>, last: Job, i: nat, j: nat)
    requires i < j < |Latest(init + [last])|
    requires j < |Latest(init)| ==> IndexOfId(init, Latest(init)[i].id) < IndexOfId(init, Latest(init)[j].id) < |init|
    ensures var all := Latest(init + [last]);
            IndexOfId(init + [last], all[i].id) < IndexOfId(init + [last], all[j].id) < |init| + 1
  {
    var all := Latest(init + [last]);
    LatestIds(init, last);
    FirstOf(init, last, all[i].id);
    FirstOf(init, last, all[j].id);
    if j == |Latest(init)| {
      EntryOccurs(init, i);
      NotBefore(init, last.id);
    }
  }

  lemma EntryOccurs(profiles: seq<Job>, i: nat)
    requires i < |Latest(profiles)|
    ensures IndexOfId(profiles, Latest(profiles)[i].id) < |profiles|
  {
    var k := LatestSurvives(profiles, i);
  }

  lemma {:induction false} FirstOf(init: seq<Job>, last: Job, id: string)
    ensures IndexOfId(init + [last], id)
            == if IndexOfId(init, id) < |init| then IndexOfId(init, id) else if last.id == id then |init| else |init| + 1
  {
    if init != [] && init[0].id != id {
      assert (init + [last])[1..] == init[1..] + [last];
      FirstOf(init[1..], last, id);
    } else if init == [] {
      assert init + [last] == [last] && [last][1..] == [];
    }
  }

  /** An id that is not in the dictionary is not among the profiles. */
  lemma NotBefore(profiles: seq<Job>, id: string)
    requires IndexOfId(Latest(profiles), id) == |Latest(profiles)|
    ensures IndexOfId(profiles, id) == |profiles|
  {
    forall k | 0 <= k < |profiles| ensures profiles[k].id != id {
      if profiles[k].id == id { HasEntry(profiles, k); }
    }
  }

  /** Every id has an entry. */
  lemma {:induction false} HasEntry(profiles: seq<Job>, k: nat)
    requires k < |profiles|
    ensures exists i :: 0 <= i < |Latest(profiles)| && Latest(profiles)[i].id == profiles[k].id
  {
    var init, last := profiles[..|profiles| - 1], profiles[|profiles| - 1];
    var r, j := Latest(init), IndexOfId(Latest(init), last.id);
    if k == |init| {
      assert Latest(profiles)[j].id == last.id;
    } else {
      HasEntry(init, k);
      var i :| 0 <= i < |r| && r[i].id == init[k].id;
      assert Latest(profiles)[i].id == profiles[k].id;
    }
  }

  /** The loop over the profiles: the dictionary they leave. */
  method EnterAll(profiles: seq<Job>) returns (jobs: seq<Job>)
    ensures jobs == Latest(profiles)
  {
    jobs := [];
    for k := 0 to |profiles|
      invariant jobs == Latest(profiles[..k])
    {
      assert profiles[..k + 1][..k] == profiles[..k];
      var i := IndexOfId(jobs, profiles[k].id);
      jobs := if i < |jobs| then jobs[i := profiles[k]] else jobs + [profiles[k]];
    }
    assert profiles[..|profiles|] == profiles;
  }

  /** Ids without ':' are enough for different jobs to have different function names. */
  lemma PlainProfilesApart(profiles: seq<Job>)
    requires forall k :: 0 <= k < |profiles| ==> ':' !in profiles[k].id
    ensures NamesApart(Latest(profiles))
  {
    PlainIdsApart(Latest(profiles));
  }

  /** Expansion of every job of the dictionary into one graph. */
  method Register(profiles: seq<Job>) returns (g: Dag.Graph, jobs: seq<seq<Id>>, funcs: map<Id, Func>)
    requires NamesApart(profiles)
    ensures Closed(g) && CoversGraph(g, jobs) && Fresh(g, funcs) && |jobs| == |profiles|
    ensures NoStageCycles(profiles, |profiles|) ==> Dag.Acyclic(g)
    ensures ListedByJob(profiles, |profiles|, jobs)
    ensures forall f :: f in g.preds ==> FunctionOfSome(profiles, f)
  {
    g, jobs, funcs := Dag.Graph([], map[], map[]), [], map[];
    for k := 0 to |profiles|
      invariant Registered(profiles, k, g, jobs, funcs)
    {
      var h, hfuncs := ExpandExecutionGraph(profiles[k]);
      JobJoins(profiles, k, g, jobs, funcs, h, hfuncs);
      g, jobs, funcs := Union(g, h), jobs + [h.order], funcs + hfuncs;
    }
    assert profiles[..|profiles|] == profiles;
  }

  /** The first `k` profiles are registered. */
  ghost predicate Registered(profiles: seq<Job>, k: nat, g: Dag.Graph, jobs: seq<seq<Id>>, funcs: map<Id, Func>)
    requires k <= |profiles|
  {
    && Closed(g) && CoversGraph(g, jobs) && Fresh(g, funcs) && |jobs| == k
    && (forall f {:trigger FunctionOfSome(profiles[..k], f)} :: f in g.preds ==> FunctionOfSome(profiles[..k], f))
    && (NoStageCycles(profiles, k) ==> Dag.Acyclic(g))
    && ListedByJob(profiles, k, jobs)
  }

  /** Every job lists the functions of its profile. */
  ghost predicate ListedByJob(profiles: seq<Job>, k: nat, jobs: seq<seq<Id>>)
    requires k <= |profiles|
  {
    |jobs| == k && forall l, f {:trigger IsFunctionOf(profiles[l], f)} :: 0 <= l < k ==> (f in jobs[l] <==> IsFunctionOf(profiles[l], f))
  }

  lemma ListsNext(profiles: seq<Job>, k: nat, jobs: seq<seq<Id>>, h: Dag.Graph, hfuncs: map<Id, Func>)
    requires k < |profiles| && ListedByJob(profiles, k, jobs) && Dag.Listed(h) && Vertices(profiles[k], h, hfuncs)
    ensures ListedByJob(profiles, k + 1, jobs + [h.order])
  {
    FunctionsNamed(profiles[k], h, hfuncs);
    forall l, f | 0 <= l < k + 1 ensures f in (jobs + [h.order])[l] <==> IsFunctionOf(profiles[l], f) {
      if l == k { assert f in h.order <==> f in h.preds; }
    }
  }

  lemma FunctionsNamed(job: Job, h: Dag.Graph, hfuncs: map<Id, Func>)
    requires Vertices(job, h, hfuncs)
    ensures forall f {:trigger IsFunctionOf(job, f)} :: f in h.preds <==> IsFunctionOf(job, f)
  {
    forall f ensures f in h.preds <==> IsFunctionOf(job, f) {
      if f in h.preds {
        assert IsName(job, f, hfuncs[f].stage);
        var i: nat :| f == Name(job.id, hfuncs[f].stage, i);
      }
      if IsFunctionOf(job, f) {
        var s, i: nat :| i < Width(job.stages, s) && f == Name(job.id, s, i);
      }
    }
  }

  lemma JobFresh(job: Job, h: Dag.Graph, hfuncs: map<Id, Func>)
    requires Dag.Valid(h) && Vertices(job, h, hfuncs) && ExactEdges(job, h)
    ensures Fresh(h, hfuncs)
  {
    forall f | f in hfuncs ensures hfuncs[f].status == Waiting || (hfuncs[f].status == Pending && h.preds[f] == []) {
      PendingHasNoPredecessor(job, h, hfuncs, f);
    }
  }

  lemma NamesDisjoint(profiles: seq<Job>, k: nat, g: Dag.Graph, h: Dag.Graph, hfuncs: map<Id, Func>)
    requires k < |profiles| && NamesApart(profiles) && Vertices(profiles[k], h, hfuncs)
    requires forall f :: f in g.preds ==> FunctionOfSome(profiles[..k], f)
    ensures g.preds.Keys !! h.preds.Keys
    ensures forall f :: f in Union(g, h).preds ==> FunctionOfSome(profiles[..k + 1], f)
  {
    FunctionsNamed(profiles[k], h, hfuncs);
    forall f | f in g.preds ensures f !in h.preds && FunctionOfSome(profiles[..k + 1], f) {
      assert FunctionOfSome(profiles[..k], f);
      var l :| 0 <= l < k && IsFunctionOf(profiles[..k][l], f);
      assert IsFunctionOf(profiles[l], f) && IsFunctionOf(profiles[..k + 1][l], f);
      assert f in h.preds <==> IsFunctionOf(profiles[k], f);
    }
    forall f | f in h.preds ensures FunctionOfSome(profiles[..k + 1], f) {
      assert IsFunctionOf(profiles[k], f) && IsFunctionOf(profiles[..k + 1][k], f);
    }
  }

  lemma UnionFresh(g: Dag.Graph, funcs: map<Id, Func>, h: Dag.Graph, hfuncs: map<Id, Func>)
    requires Fresh(g, funcs) && Fresh(h, hfuncs) && g.preds.Keys !! h.preds.Keys
    ensures Fresh(Union(g, h), funcs + hfuncs)
  {
  }

  lemma ValidClosed(h: Dag.Graph)
    requires Dag.Valid(h)
    ensures Closed(h)
  {
  }

  ghost predicate NoStageCycles(profiles: seq<Job>, k: nat)
    requires k <= |profiles|
  {
    forall l, c {:trigger StageCycle(profiles[l], c)} :: 0 <= l < k ==> !StageCycle(profiles[l], c)
  }

  lemma JoinAcyclic(profiles: seq<Job>, k: nat, g: Dag.Graph, h: Dag.Graph, hfuncs: map<Id, Func>)
    requires k < |profiles| && NoStageCycles(profiles, k + 1)
    requires Dag.Valid(h) && Vertices(profiles[k], h, hfuncs) && ExactEdges(profiles[k], h)
    requires Closed(g) && g.preds.Keys !! h.preds.Keys && Dag.Acyclic(g)
    ensures Dag.Acyclic(Union(g, h))
  {
    StagesAcyclic(profiles[k], h, hfuncs);
    ValidClosed(h);
    UnionAcyclic(g, h);
  }

  lemma JobJoins(profiles: seq<Job>, k: nat, g: Dag.Graph, jobs: seq<seq<Id>>, funcs: map<Id, Func>, h: Dag.Graph, hfuncs: map<Id, Func>)
    requires k < |profiles| && NamesApart(profiles)
    requires Dag.Listed(h) && Dag.Valid(h) && Vertices(profiles[k], h, hfuncs) && ExactEdges(profiles[k], h)
    requires Registered(profiles, k, g, jobs, funcs)
    ensures Registered(profiles, k + 1, Union(g, h), jobs + [h.order], funcs + hfuncs)
  {
    NamesDisjoint(profiles, k, g, h, hfuncs);
    CoversMore(g, jobs, h);
    ListsNext(profiles, k, jobs, h, hfuncs);
    ValidClosed(h);
    UnionClosed(g, h);
    JobFresh(profiles[k], h, hfuncs);
    UnionFresh(g, funcs, h, hfuncs);
    if NoStageCycles(profiles, k + 1) {
      assert NoStageCycles(profiles, k);
      JoinAcyclic(profiles, k, g, h, hfuncs);
    }
  }

  // ------------------------------------------------------------------ end to end

  ghost predicate HasFunctions(job: Job) {
    exists f :: IsFunctionOf(job, f)
  }

  /** A function that names no data centre needs one to exist; one that names some needs a known one among them. */
  ghost predicate CanRun(dcs: seq<string>, names: seq<string>) {
    if names == [] then dcs != [] else exists d :: d in names && d in dcs
  }

  lemma CanRunUsable(w: World, f: Id)
    requires CanRun(w.dcs, w.candidates(f))
    ensures Usable(w, f)
  {
    if w.candidates(f) == [] {
      assert w.dcs[0] in w.dcs && w.dcs[0] in Keys(w.dcs);
    }
  }

  lemma ReadyToRun(w: World, profiles: seq<Job>)
    requires NoStageCycles(profiles, |profiles|) ==> Dag.Acyclic(w.g)
    requires ListedByJob(profiles, |profiles|, w.jobs) && forall f :: f in w.g.preds ==> FunctionOfSome(profiles, f)
    requires NoStageCycles(profiles, |profiles|) && w.wave >= 1
    requires forall k :: 0 <= k < |profiles| ==> HasFunctions(profiles[k])
    requires forall f :: FunctionOfSome(profiles, f) ==> CanRun(w.dcs, w.candidates(f))
    ensures Runnable(w)
  {
    forall j | 0 <= j < |w.jobs| ensures w.jobs[j] != [] {
      assert HasFunctions(profiles[j]);
      var f :| IsFunctionOf(profiles[j], f);
      assert f in w.jobs[j];
    }
    forall f | f in w.g.preds ensures Usable(w, f) { CanRunUsable(w, f); }
  }

  lemma SurvivorsFinish(raw: seq<Job>, jobs: seq<seq<Id>>, fns: Fns)
    requires ListedByJob(Latest(raw), |Latest(raw)|, jobs) && AllDone(fns, jobs)
    ensures forall k, f :: 0 <= k < |raw| && Survives(raw, k) && IsFunctionOf(raw[k], f) ==> IsFinished(fns, f)
  {
    var profiles := Latest(raw);
    forall k, f | 0 <= k < |raw| && Survives(raw, k) && IsFunctionOf(raw[k], f) ensures IsFinished(fns, f) {
      LatestKeeps(raw, k);
      var i :| 0 <= i < |profiles| && profiles[i] == raw[k];
      assert IsFunctionOf(profiles[i], f);
      assert JobDone(fns, jobs[i]) && f in jobs[i];
    }
  }

  /**
   A whole simulation, from the job profiles: if no stage graph has a cycle, no job is
   empty and every function can run somewhere, it ends with every function of every
   profile finished that no later one replaces.
   */
  method Simulate(raw: seq<Job>, dcs: seq<string>, candidates: Id -> seq<string>, local: (Id, string) -> real,
                  wave: int, interval: real, arrival: Id -> real, dur: nat -> real)
    returns (env: DemeterEnv, steps: nat)
    requires var profiles := Latest(raw);
             && NamesApart(profiles) && NoStageCycles(profiles, |profiles|)
             && (forall k :: 0 <= k < |profiles| ==> HasFunctions(profiles[k]))
             && forall f :: FunctionOfSome(profiles, f) ==> CanRun(dcs, candidates(f))
    requires wave >= 1 && interval >= 0.0 && Lasting(dur)
    ensures fresh(env) && env.Valid() && AllDone(env.fns, env.w.jobs)
    ensures forall k, f :: 0 <= k < |raw| && Survives(raw, k) && IsFunctionOf(raw[k], f) ==> IsFinished(env.fns, f)
  {
    var profiles := EnterAll(raw);
    var g, jobs, funcs := Register(profiles);
    var w := World(g, jobs, dcs, candidates, local, wave, interval);
    ReadyToRun(w, profiles);
    env := new DemeterEnv(w, funcs, arrival);
    steps := env.Run(dur);
    SurvivorsFinish(raw, jobs, env.fns);
  }
}
