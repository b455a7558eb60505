/**
 Expansion of a job's stages into functions (`optimizer.py`): which functions there
 are, and exactly which of them depend on each other.
 */
module Expansion {

  import Names
  import Dag
  import opened Numbers

  type Id = Dag.Id

  datatype Stage = Stage(id: string, parallelism: int, trigger: string)

  datatype Job = Job(id: string, stages: seq<Stage>, edges: seq<(string, string)>)

  datatype Status = Waiting | Pending | Running | Finished

  /** What expansion records of a function besides its links. */
  datatype Func = Func(stage: string, status: Status)

  // ------------------------------------------------------------ function names

  /** `job:stage:index`. */
  function Name(job: string, stage: string, idx: nat): Id {
    job + ":" + stage + ":" + Decimal(idx)
  }

  lemma SplitAtColon(a: string, b: string, x: string, y: string)
    requires ':' !in x && ':' !in y && a + ":" + x == b + ":" + y
    ensures a == b && x == y
  {
    var s, t := a + ":" + x, b + ":" + y;
    forall i | |a| < i < |s| ensures s[i] != ':' { assert s[i] == x[i - |a| - 1]; }
    forall i | |b| < i < |t| ensures t[i] != ':' { assert t[i] == y[i - |b| - 1]; }
    assert s[|a|] == ':' && t[|b|] == ':';
    assert s[..|a|] == a && t[..|b|] == b && s[|a| + 1..] == x && t[|b| + 1..] == y;
  }

  /** No two functions of a job share a name, whatever characters the stage names hold. */
  lemma NameInjective(job: string, s: string, i: nat, t: string, j: nat)
    requires Name(job, s, i) == Name(job, t, j)
    ensures s == t && i == j
  {
    SplitAtColon(job + ":" + s, job + ":" + t, Decimal(i), Decimal(j));
    assert (job + ":" + s)[|job| + 1..] == s && (job + ":" + t)[|job| + 1..] == t;
    DecimalInjective(i, j);
  }

  function NamesOf(job: string, stage: string, n: nat): (r: seq<Id>)
    ensures |r| == n && forall i :: 0 <= i < n ==> r[i] == Name(job, stage, i)
  {
    seq(n, i requires 0 <= i < n => Name(job, stage, i))
  }

  // ------------------------------------------------------------------ functions

  function Max(a: int, b: int): int { if a < b then b else a }

  /** How many functions a stage name expands to: a later stage of the same name can only widen it. */
  function Width(stages: seq<Stage>, id: string): nat {
    if stages == [] then 0
    else
      var w := Width(stages[..|stages| - 1], id);
      var last := stages[|stages| - 1];
      if last.id == id then Max(w, last.parallelism) else w
  }

  /** The functions of one stage, in dictionary order. */
  function OfStage(order: seq<Id>, funcs: map<Id, Func>, stage: string): seq<Id>
    requires forall f :: f in order ==> f in funcs
  {
    if order == [] then []
    else
      var l := order[|order| - 1];
      OfStage(order[..|order| - 1], funcs, stage) + (if funcs[l].stage == stage then [l] else [])
  }

  predicate IsSource(job: Job, stage: string) {
    forall e :: 0 <= e < |job.edges| ==> job.edges[e].1 != stage
  }

  function InitialStatus(job: Job, stage: string): Status {
    if IsSource(job, stage) then Pending else Waiting
  }

  /** The function table for some stages: each stage's functions, named in index order. */
  ghost predicate Table(job: Job, order: seq<Id>, funcs: map<Id, Func>, stages: seq<Stage>) {
    && Dag.NoDup(order) && (forall f :: f in order <==> f in funcs)
    && Entries(job, funcs, stages)
    && Lists(job, order, funcs, stages)
  }

  ghost predicate Entries(job: Job, funcs: map<Id, Func>, stages: seq<Stage>) {
    forall f {:trigger funcs[f]} :: f in funcs ==> Entry(job, f, funcs[f], stages)
  }

  ghost predicate Lists(job: Job, order: seq<Id>, funcs: map<Id, Func>, stages: seq<Stage>)
    requires forall f :: f in order ==> f in funcs
  {
    forall s {:trigger OfStage(order, funcs, s)} :: OfStage(order, funcs, s) == NamesOf(job.id, s, Width(stages, s))
  }

  ghost predicate Entry(job: Job, f: Id, func: Func, stages: seq<Stage>) {
    && func.status == InitialStatus(job, func.stage)
    && exists i :: 0 <= i < Width(stages, func.stage) && f == Name(job.id, func.stage, i)
  }

  lemma {:induction false} OfStageFrame(order: seq<Id>, funcs: map<Id, Func>, f: Id, spec: Func, s: string)
    requires f !in funcs && forall x :: x in order ==> x in funcs
    ensures OfStage(order, funcs[f := spec], s) == OfStage(order, funcs, s)
  {
    if order != [] {
      assert order[|order| - 1] in order;
      forall x | x in order[..|order| - 1] ensures x in funcs { assert x in order; }
      OfStageFrame(order[..|order| - 1], funcs, f, spec, s);
    }
  }

  lemma {:induction false} OfStageMember(order: seq<Id>, funcs: map<Id, Func>, s: string, f: Id)
    requires forall x :: x in order ==> x in funcs
    ensures f in OfStage(order, funcs, s) <==> f in order && funcs[f].stage == s
  {
    if order != [] {
      OfStageMember(order[..|order| - 1], funcs, s, f);
      assert order == order[..|order| - 1] + [order[|order| - 1]];
    }
  }

  /** A function is in the table exactly when its index is below the stage's width. */
  lemma TableHas(job: Job, order: seq<Id>, funcs: map<Id, Func>, stages: seq<Stage>, stage: string, idx: nat)
    requires Table(job, order, funcs, stages)
    ensures Name(job.id, stage, idx) in funcs <==> idx < Width(stages, stage)
    ensures Name(job.id, stage, idx) in funcs ==> funcs[Name(job.id, stage, idx)] == Func(stage, InitialStatus(job, stage))
  {
    var f := Name(job.id, stage, idx);
    if f in funcs {
      assert Entry(job, f, funcs[f], stages);
      var i :| 0 <= i < Width(stages, funcs[f].stage) && f == Name(job.id, funcs[f].stage, i);
      NameInjective(job.id, stage, idx, funcs[f].stage, i);
    }
    if idx < Width(stages, stage) {
      var names := OfStage(order, funcs, stage);
      assert names == NamesOf(job.id, stage, Width(stages, stage));
      assert names[idx] == f;
      OfStageMember(order, funcs, stage, f);
    }
  }

  /** `wide` has one more function of the given stage than `stages`. */
  ghost predicate OneWider(stages: seq<Stage>, wide: seq<Stage>, stage: string) {
    forall s {:trigger Width(wide, s)} :: Width(wide, s) == Width(stages, s) + if s == stage then 1 else 0
  }

  lemma OfStageSnoc(order: seq<Id>, funcs: map<Id, Func>, f: Id, spec: Func, s: string)
    requires f !in funcs && forall x :: x in order ==> x in funcs
    ensures OfStage(order + [f], funcs[f := spec], s) == OfStage(order, funcs, s) + if spec.stage == s then [f] else []
  {
    var all := order + [f];
    assert all[..|all| - 1] == order && all[|all| - 1] == f;
    OfStageFrame(order, funcs, f, spec, s);
  }

  lemma NamesSnoc(job: string, stage: string, n: nat)
    ensures NamesOf(job, stage, n + 1) == NamesOf(job, stage, n) + [Name(job, stage, n)]
  {
  }

  lemma EntryKept(job: Job, f: Id, func: Func, stages: seq<Stage>, wide: seq<Stage>)
    requires Entry(job, f, func, stages) && Width(stages, func.stage) <= Width(wide, func.stage)
    ensures Entry(job, f, func, wide)
  {
  }

  lemma EntriesAdd(job: Job, funcs: map<Id, Func>, stages: seq<Stage>, stage: string, wide: seq<Stage>)
    requires Entries(job, funcs, stages) && OneWider(stages, wide, stage)
    ensures var f := Name(job.id, stage, Width(stages, stage));
            Entries(job, funcs[f := Func(stage, InitialStatus(job, stage))], wide)
  {
    var f := Name(job.id, stage, Width(stages, stage));
    var func := Func(stage, InitialStatus(job, stage));
    assert Entry(job, f, func, wide) by { assert Width(wide, stage) == Width(stages, stage) + 1; }
    forall g | g in funcs ensures Entry(job, g, funcs[g], wide) {
      assert Width(wide, funcs[g].stage) >= Width(stages, funcs[g].stage);
      EntryKept(job, g, funcs[g], stages, wide);
    }
  }

  lemma ListsAdd(job: Job, order: seq<Id>, funcs: map<Id, Func>, stages: seq<Stage>, stage: string, wide: seq<Stage>)
    requires (forall f :: f in order ==> f in funcs) && Lists(job, order, funcs, stages)
    requires OneWider(stages, wide, stage) && Name(job.id, stage, Width(stages, stage)) !in funcs
    ensures var f := Name(job.id, stage, Width(stages, stage));
            Lists(job, order + [f], funcs[f := Func(stage, InitialStatus(job, stage))], wide)
  {
    var f := Name(job.id, stage, Width(stages, stage));
    var func := Func(stage, InitialStatus(job, stage));
    forall s ensures OfStage(order + [f], funcs[f := func], s) == NamesOf(job.id, s, Width(wide, s)) {
      OfStageSnoc(order, funcs, f, func, s);
      assert OfStage(order, funcs, s) == NamesOf(job.id, s, Width(stages, s));
      NamesSnoc(job.id, s, Width(stages, s));
      assert Width(wide, s) == Width(stages, s) + if s == stage then 1 else 0;
    }
  }

  /** Recording the next function of a stage. */
  lemma TableAdd(job: Job, order: seq<Id>, funcs: map<Id, Func>, stages: seq<Stage>, stage: string, wide: seq<Stage>)
    requires Table(job, order, funcs, stages) && OneWider(stages, wide, stage)
    ensures var f := Name(job.id, stage, Width(stages, stage));
            f !in funcs && Table(job, order + [f], funcs[f := Func(stage, InitialStatus(job, stage))], wide)
  {
    TableHas(job, order, funcs, stages, stage, Width(stages, stage));
    EntriesAdd(job, funcs, stages, stage, wide);
    ListsAdd(job, order, funcs, stages, stage, wide);
  }

  lemma TableSame(job: Job, order: seq<Id>, funcs: map<Id, Func>, stages: seq<Stage>, stages': seq<Stage>)
    requires Table(job, order, funcs, stages) && forall s :: Width(stages, s) == Width(stages', s)
    ensures Table(job, order, funcs, stages')
  {
    forall g | g in funcs ensures Entry(job, g, funcs[g], stages') { EntryKept(job, g, funcs[g], stages, stages'); }
    forall s ensures OfStage(order, funcs, s) == NamesOf(job.id, s, Width(stages', s)) {
      assert OfStage(order, funcs, s) == NamesOf(job.id, s, Width(stages, s));
    }
  }

  /** The stages seen so far while `n` functions of the next one have been recorded. */
  function Partly(stages: seq<Stage>, k: nat, n: int): seq<Stage>
    requires k < |stages|
  {
    stages[..k] + [stages[k].(parallelism := n)]
  }

  lemma PartlyAll(stages: seq<Stage>, k: nat)
    requires k < |stages|
    ensures Partly(stages, k, stages[k].parallelism) == stages[..k + 1]
  {
  }

  lemma PartlyWidths(stages: seq<Stage>, k: nat, n: int)
    requires k < |stages|
    ensures forall s :: Width(Partly(stages, k, n), s) == if s == stages[k].id then Max(Width(stages[..k], s), n) else Width(stages[..k], s)
  {
    assert Partly(stages, k, n)[..k] == stages[..k];
  }

  lemma PartlyNext(stages: seq<Stage>, k: nat, n: nat)
    requires k < |stages|
    ensures var now, next, id := Partly(stages, k, n), Partly(stages, k, n + 1), stages[k].id;
            && Width(now, id) >= n
            && (Width(now, id) == n ==> OneWider(now, next, id))
            && (Width(now, id) > n ==> forall s :: Width(now, s) == Width(next, s))
  {
    PartlyWidths(stages, k, n);
    PartlyWidths(stages, k, n + 1);
  }

  /** One turn of the inner loop, whether the function is new or recorded again. */
  lemma TableNext(job: Job, order: seq<Id>, funcs: map<Id, Func>, k: nat, idx: nat)
    requires k < |job.stages| && Table(job, order, funcs, Partly(job.stages, k, idx))
    ensures var stage := job.stages[k].id;
            var f := Name(job.id, stage, idx);
            Table(job, if f in funcs then order else order + [f], funcs[f := Func(stage, InitialStatus(job, stage))],
                  Partly(job.stages, k, idx + 1))
  {
    var stage := job.stages[k].id;
    var f := Name(job.id, stage, idx);
    var now, next := Partly(job.stages, k, idx), Partly(job.stages, k, idx + 1);
    TableHas(job, order, funcs, now, stage, idx);
    PartlyNext(job.stages, k, idx);
    if f in funcs {
      SameEntry(funcs, f, Func(stage, InitialStatus(job, stage)));
      TableSame(job, order, funcs, now, next);
    } else {
      TableAdd(job, order, funcs, now, stage, next);
    }
  }

  lemma SameEntry(funcs: map<Id, Func>, f: Id, func: Func)
    requires f in funcs && funcs[f] == func
    ensures funcs[f := func] == funcs
  {
  }

  lemma TableStart(job: Job, order: seq<Id>, funcs: map<Id, Func>, k: nat, n: int, n': int)
    requires k < |job.stages| && n <= 0 && n' <= 0
    requires Table(job, order, funcs, job.stages[..k]) || Table(job, order, funcs, Partly(job.stages, k, n))
    ensures Table(job, order, funcs, Partly(job.stages, k, n'))
  {
    PartlyWidths(job.stages, k, n);
    PartlyWidths(job.stages, k, n');
    if Table(job, order, funcs, job.stages[..k]) {
      TableSame(job, order, funcs, job.stages[..k], Partly(job.stages, k, n'));
    } else {
      TableSame(job, order, funcs, Partly(job.stages, k, n), Partly(job.stages, k, n'));
    }
  }

  /** The inner loop: the functions of one stage. */
  method AddStage(job: Job, k: nat, order: seq<Id>, funcs: map<Id, Func>)
    returns (order': seq<Id>, funcs': map<Id, Func>)
    requires k < |job.stages| && Table(job, order, funcs, job.stages[..k])
    ensures Table(job, order', funcs', job.stages[..k + 1])
  {
    order', funcs' := order, funcs;
    var stage := job.stages[k];
    TableStart(job, order, funcs, k, 0, 0);
    var idx := 0;
    while idx < stage.parallelism
      invariant idx == 0 || idx <= stage.parallelism
      invariant Table(job, order', funcs', Partly(job.stages, k, idx))
    {
      var f := Name(job.id, stage.id, idx);
      TableNext(job, order', funcs', k, idx);
      if f !in funcs' { order' := order' + [f]; }
      funcs' := funcs'[f := Func(stage.id, InitialStatus(job, stage.id))];
      idx := idx + 1;
    }
    if stage.parallelism < 0 { TableStart(job, order', funcs', k, 0, stage.parallelism); }
    PartlyAll(job.stages, k);
  }

  /** The first loop of `expand_execution_graph`. */
  method Functions(job: Job) returns (order: seq<Id>, funcs: map<Id, Func>)
    ensures Table(job, order, funcs, job.stages)
  {
    order, funcs := [], map[];
    for k := 0 to |job.stages|
      invariant Table(job, order, funcs, job.stages[..k])
    {
      order, funcs := AddStage(job, k, order, funcs);
    }
    assert job.stages[..|job.stages|] == job.stages;
  }

  // ---------------------------------------------------------------------- links

  type Pair = (Id, Id)

  /** The trigger of a stage: the last stage of that name decides. */
  function TriggerOf(stages: seq<Stage>, id: string): string {
    if stages == [] then "direct"
    else
      var last := stages[|stages| - 1];
      if last.id == id then last.trigger else TriggerOf(stages[..|stages| - 1], id)
  }

  function Row(u: Id, b: seq<Id>): seq<Pair> {
    if b == [] then [] else Row(u, b[..|b| - 1]) + [(u, b[|b| - 1])]
  }

  function Product(a: seq<Id>, b: seq<Id>): seq<Pair> {
    if a == [] then [] else Product(a[..|a| - 1], b) + Row(a[|a| - 1], b)
  }

  function Zip(a: seq<Id>, b: seq<Id>): (r: seq<Pair>)
    requires |a| == |b|
    ensures |r| == |a| && forall i :: 0 <= i < |a| ==> r[i] == (a[i], b[i])
  {
    seq(|a|, i requires 0 <= i < |a| => (a[i], b[i]))
  }

  predicate PairsUp(trigger: string, n: nat, m: nat) {
    (trigger == "direct" || trigger == "one_to_one") && n == m
  }

  /** The links one stage edge makes. */
  function PairsOf(trigger: string, src: seq<Id>, dst: seq<Id>): seq<Pair> {
    if PairsUp(trigger, |src|, |dst|) then Zip(Names.Sorted(src), Names.Sorted(dst)) else Product(src, dst)
  }

  lemma {:induction false} RowCount(x: Id, b: seq<Id>, u: Id, v: Id)
    ensures multiset(Row(x, b))[(u, v)] == if u == x then multiset(b)[v] else 0
  {
    if b != [] {
      RowCount(x, b[..|b| - 1], u, v);
      assert b == b[..|b| - 1] + [b[|b| - 1]];
    }
  }

  lemma {:induction false} ProductCount(a: seq<Id>, b: seq<Id>, u: Id, v: Id)
    requires multiset(a)[u] <= 1
    ensures multiset(Product(a, b))[(u, v)] == if multiset(a)[u] == 1 then multiset(b)[v] else 0
  {
    if a != [] {
      assert a == a[..|a| - 1] + [a[|a| - 1]];
      ProductCount(a[..|a| - 1], b, u, v);
      RowCount(a[|a| - 1], b, u, v);
    }
  }

  lemma {:induction false} PairCount(s: seq<Pair>, x: Pair)
    requires forall i, j :: 0 <= i < j < |s| ==> s[i] != s[j]
    ensures multiset(s)[x] == if x in s then 1 else 0
  {
    if s != [] {
      var t := s[..|s| - 1];
      assert s == t + [s[|s| - 1]];
      PairCount(t, x);
    }
  }

  function Decimals(n: nat): (r: seq<string>)
    ensures |r| == n && forall i :: 0 <= i < n ==> r[i] == Decimal(i)
  {
    seq(n, i requires 0 <= i < n => Decimal(i))
  }

  lemma SortedDecimals(n: nat)
    ensures Dag.NoDup(Names.Sorted(Decimals(n)))
    ensures forall d :: d in Names.Sorted(Decimals(n)) <==> d in Decimals(n)
  {
    var ds := Decimals(n);
    forall i, j | 0 <= i < j < n ensures ds[i] != ds[j] {
      if Decimal(i) == Decimal(j) { DecimalInjective(i, j); }
    }
    Names.SortedPermutes(ds);
    Names.MultisetMembers(Names.Sorted(ds), ds);
    Names.DistinctCounts(ds);
    Names.DistinctCounts(Names.Sorted(ds));
  }

  lemma SortedNames(job: string, stage: string, n: nat)
    ensures Names.Sorted(NamesOf(job, stage, n)) == Names.Prefixed(job + ":" + stage + ":", Names.Sorted(Decimals(n)))
  {
    assert NamesOf(job, stage, n) == Names.Prefixed(job + ":" + stage + ":", Decimals(n));
    Names.SortedPrefix(job + ":" + stage + ":", Decimals(n));
  }

  lemma PrefixCancels(p: string, a: string, b: string)
    requires p + a == p + b
    ensures a == b
  {
    assert (p + a)[|p|..] == a && (p + b)[|p|..] == b;
  }

  /** Pairing the sorted names of two stages joins equal indices, although "10" sorts before "2". */
  lemma ZipCount(job: string, s: string, t: string, n: nat, i: nat, j: nat)
    requires i < n && j < n
    ensures multiset(Zip(Names.Sorted(NamesOf(job, s, n)), Names.Sorted(NamesOf(job, t, n))))[(Name(job, s, i), Name(job, t, j))]
            == if i == j then 1 else 0
  {
    var p, q, ds := job + ":" + s + ":", job + ":" + t + ":", Names.Sorted(Decimals(n));
    SortedNames(job, s, n);
    SortedNames(job, t, n);
    SortedDecimals(n);
    var z := Zip(Names.Prefixed(p, ds), Names.Prefixed(q, ds));
    forall k, l | 0 <= k < l < n ensures z[k] != z[l] {
      if z[k] == z[l] { PrefixCancels(p, ds[k], ds[l]); }
    }
    PairCount(z, (Name(job, s, i), Name(job, t, j)));
    assert Decimal(i) in Decimals(n) by { assert Decimals(n)[i] == Decimal(i); }
    var k :| 0 <= k < n && ds[k] == Decimal(i);
    assert z[k] == (Name(job, s, i), Name(job, t, i));
    forall l | 0 <= l < n && z[l] == (Name(job, s, i), Name(job, t, j)) ensures i == j {
      PrefixCancels(p, ds[l], Decimal(i));
      PrefixCancels(q, ds[l], Decimal(j));
      DecimalInjective(i, j);
    }
  }

  lemma NameMember(job: string, s: string, n: nat, t: string, j: nat)
    ensures Name(job, t, j) in NamesOf(job, s, n) <==> s == t && j < n
  {
    var names := NamesOf(job, s, n);
    if k :| 0 <= k < n && names[k] == Name(job, t, j) { NameInjective(job, s, k, t, j); }
    if s == t && j < n { assert names[j] == Name(job, t, j); }
  }

  lemma NamesDistinct(job: string, s: string, n: nat)
    ensures forall x :: multiset(NamesOf(job, s, n))[x] == if x in NamesOf(job, s, n) then 1 else 0
  {
    var names := NamesOf(job, s, n);
    forall i, j | 0 <= i < j < n ensures names[i] != names[j] {
      if names[i] == names[j] { NameInjective(job, s, i, s, j); }
    }
    Names.DistinctCounts(names);
    forall x ensures multiset(names)[x] == if x in names then 1 else 0 { assert x in multiset(names) <==> x in names; }
  }

  lemma ZipMembers(a: seq<Id>, b: seq<Id>, u: Id, v: Id)
    requires |a| == |b| && (u !in a || v !in b)
    ensures multiset(Zip(Names.Sorted(a), Names.Sorted(b)))[(u, v)] == 0
  {
    var z := Zip(Names.Sorted(a), Names.Sorted(b));
    Names.SortedPermutes(a);
    Names.SortedPermutes(b);
    Names.MultisetMembers(Names.Sorted(a), a);
    Names.MultisetMembers(Names.Sorted(b), b);
    assert (u, v) !in z by {
      forall k | 0 <= k < |z| ensures z[k] != (u, v) { assert z[k].0 in Names.Sorted(a) && z[k].1 in Names.Sorted(b); }
    }
    assert (u, v) !in multiset(z);
  }

  /** The links of one stage edge, for every two functions. */
  lemma PairsCount(job: string, trigger: string, src: string, n: nat, dst: string, m: nat, s: string, i: nat, t: string, j: nat)
    requires (s == src ==> i < n) && (t == dst ==> j < m)
    ensures multiset(PairsOf(trigger, NamesOf(job, src, n), NamesOf(job, dst, m)))[(Name(job, s, i), Name(job, t, j))]
            == if s == src && t == dst && (PairsUp(trigger, n, m) ==> i == j) then 1 else 0
  {
    var a, b, u, v := NamesOf(job, src, n), NamesOf(job, dst, m), Name(job, s, i), Name(job, t, j);
    NameMember(job, src, n, s, i);
    NameMember(job, dst, m, t, j);
    if PairsUp(trigger, n, m) {
      if s == src && t == dst { ZipCount(job, s, t, n, i, j); } else { ZipMembers(a, b, u, v); }
    } else {
      NamesDistinct(job, src, n);
      NamesDistinct(job, dst, m);
      ProductCount(a, b, u, v);
    }
  }

  // ------------------------------------------------------------ filling the lists

  /** The links of the first `k` lists. */
  ghost function Gather(lists: seq<seq<Pair>>, k: nat): multiset<Pair>
    requires k <= |lists|
  {
    if k == 0 then multiset{} else Gather(lists, k - 1) + multiset(lists[k - 1])
  }

  ghost function EdgeLists(job: Job): (r: seq<seq<Pair>>)
    ensures |r| == |job.edges| && forall k :: 0 <= k < |r| ==> r[k] == EdgePairs(job, job.edges[k])
  {
    seq(|job.edges|, k requires 0 <= k < |job.edges| => EdgePairs(job, job.edges[k]))
  }

  /** The links made by the first `k` stage edges. */
  ghost function Links(job: Job, k: nat): multiset<Pair>
    requires k <= |job.edges|
  {
    Gather(EdgeLists(job), k)
  }

  ghost function EdgePairs(job: Job, e: (string, string)): seq<Pair> {
    PairsOf(TriggerOf(job.stages, e.1), NamesOf(job.id, e.0, Width(job.stages, e.0)), NamesOf(job.id, e.1, Width(job.stages, e.1)))
  }

  /** How often a function precedes another: once per stage edge, and only at its own index where stages pair up. */
  ghost function Multiplicity(job: Job, s: string, i: nat, t: string, j: nat): nat {
    if Meet(job, s, i, t, j) then multiset(job.edges)[(s, t)] else 0
  }

  lemma NextLinks(job: Job, k: nat)
    requires k < |job.edges|
    ensures Links(job, k + 1) == Links(job, k) + multiset(EdgePairs(job, job.edges[k]))
  {
  }

  /** Whether the edges between two stages link these two functions. */
  ghost predicate Meet(job: Job, s: string, i: nat, t: string, j: nat) {
    PairsUp(TriggerOf(job.stages, t), Width(job.stages, s), Width(job.stages, t)) ==> i == j
  }

  lemma {:induction false} GatherCount(lists: seq<seq<Pair>>, edges: seq<(string, string)>, k: nat, x: Pair, e: (string, string), meet: bool)
    requires k <= |lists| == |edges|
    requires forall l {:trigger lists[l]} :: 0 <= l < |lists| ==> multiset(lists[l])[x] == if edges[l] == e && meet then 1 else 0
    ensures Gather(lists, k)[x] == if meet then multiset(edges[..k])[e] else 0
  {
    if k > 0 {
      GatherCount(lists, edges, k - 1, x, e, meet);
      assert lists[k - 1] == lists[k - 1];
      assert edges[..k] == edges[..k - 1] + [edges[k - 1]];
    }
  }

  lemma LinksCount(job: Job, s: string, i: nat, t: string, j: nat)
    requires i < Width(job.stages, s) && j < Width(job.stages, t)
    ensures Links(job, |job.edges|)[(Name(job.id, s, i), Name(job.id, t, j))] == Multiplicity(job, s, i, t, j)
  {
    var lists, x, meet := EdgeLists(job), (Name(job.id, s, i), Name(job.id, t, j)), Meet(job, s, i, t, j);
    forall l | 0 <= l < |lists| ensures multiset(lists[l])[x] == if job.edges[l] == (s, t) && meet then 1 else 0 {
      var d := job.edges[l];
      PairsCount(job.id, TriggerOf(job.stages, d.1), d.0, Width(job.stages, d.0), d.1, Width(job.stages, d.1), s, i, t, j);
    }
    GatherCount(lists, job.edges, |job.edges|, x, (s, t), meet);
    assert job.edges[..|job.edges|] == job.edges;
  }

  /** The lists record exactly the given links, in both directions. */
  ghost predicate Linked(g: Dag.Graph, links: multiset<Pair>) {
    && g.succs.Keys == g.preds.Keys
    && (forall u, v {:trigger multiset(g.preds[v])[u]} :: v in g.preds ==> multiset(g.preds[v])[u] == links[(u, v)])
    && (forall u, v {:trigger multiset(g.succs[u])[v]} :: u in g.preds ==> multiset(g.succs[u])[v] == links[(u, v)])
    && forall u, v {:trigger links[(u, v)]} :: links[(u, v)] > 0 ==> u in g.preds && v in g.preds
  }

  /** Both appends of one link. */
  function Join(g: Dag.Graph, u: Id, v: Id): Dag.Graph
    requires u in g.succs && v in g.preds
  {
    g.(succs := g.succs[u := g.succs[u] + [v]], preds := g.preds[v := g.preds[v] + [u]])
  }

  lemma JoinLinked(g: Dag.Graph, links: multiset<Pair>, u: Id, v: Id)
    requires Linked(g, links) && u in g.preds && v in g.preds
    ensures Linked(Join(g, u, v), links + multiset{(u, v)})
  {
  }

  method AddPairs(g: Dag.Graph, pairs: seq<Pair>, ghost links: multiset<Pair>) returns (g': Dag.Graph)
    requires Linked(g, links) && forall k :: 0 <= k < |pairs| ==> pairs[k].0 in g.preds && pairs[k].1 in g.preds
    ensures g'.order == g.order && g'.preds.Keys == g.preds.Keys
    ensures Linked(g', links + multiset(pairs))
  {
    g' := g;
    for k := 0 to |pairs|
      invariant g'.order == g.order && g'.preds.Keys == g.preds.Keys
      invariant Linked(g', links + multiset(pairs[..k]))
    {
      JoinLinked(g', links + multiset(pairs[..k]), pairs[k].0, pairs[k].1);
      g' := Join(g', pairs[k].0, pairs[k].1);
      assert pairs[..k + 1] == pairs[..k] + [pairs[k]];
      assert links + multiset(pairs[..k]) + multiset{pairs[k]} == links + multiset(pairs[..k + 1]);
    }
    assert pairs[..|pairs|] == pairs;
  }

  lemma {:induction false} RowInside(u: Id, b: seq<Id>)
    ensures forall x :: x in Row(u, b) ==> x.0 == u && x.1 in b
  {
    if b != [] { RowInside(u, b[..|b| - 1]); }
  }

  lemma {:induction false} ProductInside(a: seq<Id>, b: seq<Id>)
    ensures forall x :: x in Product(a, b) ==> x.0 in a && x.1 in b
  {
    if a != [] {
      ProductInside(a[..|a| - 1], b);
      RowInside(a[|a| - 1], b);
    }
  }

  lemma PairsInside(trigger: string, a: seq<Id>, b: seq<Id>)
    ensures forall x :: x in PairsOf(trigger, a, b) ==> x.0 in a && x.1 in b
  {
    ProductInside(a, b);
    if PairsUp(trigger, |a|, |b|) {
      Names.SortedPermutes(a);
      Names.SortedPermutes(b);
      Names.MultisetMembers(Names.Sorted(a), a);
      Names.MultisetMembers(Names.Sorted(b), b);
    }
  }

  /** The functions of both ends of a stage edge are vertices. */
  lemma EdgeInside(job: Job, order: seq<Id>, funcs: map<Id, Func>, e: (string, string))
    requires Table(job, order, funcs, job.stages)
    ensures var pairs := PairsOf(TriggerOf(job.stages, e.1), OfStage(order, funcs, e.0), OfStage(order, funcs, e.1));
            pairs == EdgePairs(job, e) && forall x :: x in pairs ==> x.0 in funcs && x.1 in funcs
  {
    PairsInside(TriggerOf(job.stages, e.1), OfStage(order, funcs, e.0), OfStage(order, funcs, e.1));
    forall f ensures f in OfStage(order, funcs, e.0) ==> f in funcs { OfStageMember(order, funcs, e.0, f); }
    forall f ensures f in OfStage(order, funcs, e.1) ==> f in funcs { OfStageMember(order, funcs, e.1, f); }
  }

  function Unlinked(order: seq<Id>, funcs: map<Id, Func>): (g: Dag.Graph)
    ensures g.order == order && g.preds.Keys == funcs.Keys && Linked(g, multiset{})
  {
    Dag.Graph(order, map f | f in funcs :: [], map f | f in funcs :: [])
  }

  /** One turn of the second loop. */
  method AddEdge(job: Job, order: seq<Id>, funcs: map<Id, Func>, e: (string, string), g: Dag.Graph, ghost links: multiset<Pair>)
    returns (g': Dag.Graph)
    requires Table(job, order, funcs, job.stages) && g.preds.Keys == funcs.Keys && Linked(g, links)
    ensures g'.order == g.order && g'.preds.Keys == g.preds.Keys
    ensures Linked(g', links + multiset(EdgePairs(job, e)))
  {
    EdgeInside(job, order, funcs, e);
    var pairs := PairsOf(TriggerOf(job.stages, e.1), OfStage(order, funcs, e.0), OfStage(order, funcs, e.1));
    g' := AddPairs(g, pairs, links);
  }

  /** The second loop of `expand_execution_graph`. */
  method AddLinks(job: Job, order: seq<Id>, funcs: map<Id, Func>) returns (g: Dag.Graph)
    requires Table(job, order, funcs, job.stages)
    ensures g.order == order && g.preds.Keys == funcs.Keys
    ensures Linked(g, Links(job, |job.edges|))
  {
    g := Unlinked(order, funcs);
    for k := 0 to |job.edges|
      invariant g.order == order && g.preds.Keys == funcs.Keys
      invariant Linked(g, Links(job, k))
    {
      NextLinks(job, k);
      g := AddEdge(job, order, funcs, job.edges[k], g, Links(job, k));
    }
  }

  /** The successor and predecessor lists are inverse to each other. */
  lemma LinkedValid(g: Dag.Graph, links: multiset<Pair>)
    requires Linked(g, links)
    ensures Dag.Valid(g)
  {
    forall v, i | v in g.preds && 0 <= i < |g.preds[v]| ensures g.preds[v][i] in g.preds {
      assert g.preds[v][i] in multiset(g.preds[v]);
      assert links[(g.preds[v][i], v)] > 0;
    }
    forall u | u in g.succs ensures Dag.FanOut(g, u) {
      forall i | 0 <= i < |g.succs[u]| ensures g.succs[u][i] in g.preds {
        assert g.succs[u][i] in multiset(g.succs[u]);
        assert links[(u, g.succs[u][i])] > 0;
      }
    }
  }

  /** The vertices are the `Width` functions of every stage. */
  ghost predicate Vertices(job: Job, g: Dag.Graph, funcs: map<Id, Func>) {
    && g.preds.Keys == funcs.Keys
    && (forall s, i: nat {:trigger Name(job.id, s, i)} ::
          (Name(job.id, s, i) in funcs <==> i < Width(job.stages, s))
          && (Name(job.id, s, i) in funcs ==> funcs[Name(job.id, s, i)] == Func(s, InitialStatus(job, s))))
    && forall f :: f in funcs ==> IsName(job, f, funcs[f].stage)
  }

  ghost predicate IsName(job: Job, f: Id, stage: string) {
    exists i: nat :: f == Name(job.id, stage, i)
  }

  /** Every function precedes every other exactly as often as the stage edges say. */
  ghost predicate ExactEdges(job: Job, g: Dag.Graph) {
    forall s, i: nat, t, j: nat {:trigger Name(job.id, s, i), Name(job.id, t, j)} ::
      Name(job.id, s, i) in g.preds && Name(job.id, t, j) in g.preds ==>
        multiset(g.preds[Name(job.id, t, j)])[Name(job.id, s, i)] == Multiplicity(job, s, i, t, j)
  }

  lemma TableVertices(job: Job, g: Dag.Graph, funcs: map<Id, Func>)
    requires Table(job, g.order, funcs, job.stages) && g.preds.Keys == funcs.Keys
    ensures Vertices(job, g, funcs)
  {
    forall s, i: nat
      ensures (Name(job.id, s, i) in funcs <==> i < Width(job.stages, s))
              && (Name(job.id, s, i) in funcs ==> funcs[Name(job.id, s, i)] == Func(s, InitialStatus(job, s)))
    {
      TableHas(job, g.order, funcs, job.stages, s, i);
    }
    forall f | f in funcs ensures IsName(job, f, funcs[f].stage) { assert Entry(job, f, funcs[f], job.stages); }
  }

  lemma LinkedExact(job: Job, g: Dag.Graph, funcs: map<Id, Func>)
    requires Vertices(job, g, funcs) && Linked(g, Links(job, |job.edges|))
    ensures ExactEdges(job, g)
  {
    forall s, i: nat, t, j: nat | Name(job.id, s, i) in g.preds && Name(job.id, t, j) in g.preds
      ensures multiset(g.preds[Name(job.id, t, j)])[Name(job.id, s, i)] == Multiplicity(job, s, i, t, j)
    {
      LinksCount(job, s, i, t, j);
    }
  }

  // ------------------------------------------------------ in terms of the stages

  /** The last stage of that name is at `m`. */
  ghost predicate LastNamed(stages: seq<Stage>, id: string, m: int) {
    0 <= m < |stages| && stages[m].id == id && forall l :: m < l < |stages| ==> stages[l].id != id
  }

  /** The last stage of a name decides its trigger; a name without a stage counts as "direct". */
  lemma {:induction false} LastStageDecides(stages: seq<Stage>, id: string)
    ensures forall m :: LastNamed(stages, id, m) ==> TriggerOf(stages, id) == stages[m].trigger
    ensures (forall m :: 0 <= m < |stages| ==> stages[m].id != id) ==> TriggerOf(stages, id) == "direct"
  {
    if stages != [] {
      var init := stages[..|stages| - 1];
      LastStageDecides(init, id);
      forall m | LastNamed(stages, id, m) ensures TriggerOf(stages, id) == stages[m].trigger {
        if m < |init| {
          assert LastNamed(init, id, m);
          assert stages[|init|].id != id;
        }
      }
    }
  }

  lemma {:induction false} SomeLastNamed(stages: seq<Stage>, id: string, k: nat) returns (m: int)
    requires k < |stages| && stages[k].id == id
    ensures LastNamed(stages, id, m)
    decreases |stages| - k
  {
    if l :| k < l < |stages| && stages[l].id == id { m := SomeLastNamed(stages, id, l); } else { m := k; }
  }

  /** The width of a name is the largest parallelism of its stages, and zero without any. */
  lemma {:induction false} WidthIsLargest(stages: seq<Stage>, id: string)
    ensures forall m :: 0 <= m < |stages| && stages[m].id == id ==> stages[m].parallelism <= Width(stages, id)
    ensures Width(stages, id) == 0 || exists m :: 0 <= m < |stages| && stages[m].id == id && stages[m].parallelism == Width(stages, id)
  {
    if stages != [] {
      var init, last := stages[..|stages| - 1], stages[|stages| - 1];
      WidthIsLargest(init, id);
      if last.id == id && last.parallelism >= Width(init, id) {
        assert stages[|init|].parallelism == last.parallelism;
      } else if Width(init, id) > 0 {
        var m :| 0 <= m < |init| && init[m].id == id && init[m].parallelism == Width(init, id);
        assert stages[m].parallelism == Width(init, id);
      }
    }
  }

  /** Stages of equal width whose target stage asks for "direct" or "one_to_one" are linked index to index. */
  ghost predicate IndexToIndex(job: Job, s: string, t: string) {
    Width(job.stages, s) == Width(job.stages, t)
    && exists m :: LastNamed(job.stages, t, m) && (job.stages[m].trigger == "direct" || job.stages[m].trigger == "one_to_one")
  }

  /** Function `i` of `s` precedes function `j` of `t` exactly when there is such an edge, and `i == j` where it goes index to index. */
  ghost predicate PlainEdges(job: Job, g: Dag.Graph) {
    forall s, i: nat, t, j: nat {:trigger Name(job.id, s, i), Name(job.id, t, j)} ::
      i < Width(job.stages, s) && j < Width(job.stages, t) ==>
        (Dag.Edge(g, Name(job.id, s, i), Name(job.id, t, j)) <==> (s, t) in job.edges && (IndexToIndex(job, s, t) ==> i == j))
  }

  lemma MeetIsPlain(job: Job, s: string, i: nat, t: string, j: nat)
    requires j < Width(job.stages, t)
    ensures Meet(job, s, i, t, j) <==> (IndexToIndex(job, s, t) ==> i == j)
  {
    LastStageDecides(job.stages, t);
    WidthIsLargest(job.stages, t);
    var k :| 0 <= k < |job.stages| && job.stages[k].id == t;
    var m := SomeLastNamed(job.stages, t, k);
    assert TriggerOf(job.stages, t) == job.stages[m].trigger;
  }

  lemma EdgesArePlain(job: Job, g: Dag.Graph, funcs: map<Id, Func>)
    requires Vertices(job, g, funcs) && ExactEdges(job, g)
    ensures PlainEdges(job, g)
  {
    forall s, i: nat, t, j: nat | i < Width(job.stages, s) && j < Width(job.stages, t)
      ensures Dag.Edge(g, Name(job.id, s, i), Name(job.id, t, j)) <==> (s, t) in job.edges && (IndexToIndex(job, s, t) ==> i == j)
    {
      var u, v := Name(job.id, s, i), Name(job.id, t, j);
      assert u in funcs && v in funcs;
      MeetIsPlain(job, s, i, t, j);
      assert u in g.preds[v] <==> u in multiset(g.preds[v]);
      assert (s, t) in job.edges <==> (s, t) in multiset(job.edges);
    }
  }

  /**
   `expand_execution_graph`.  The result is a well-formed graph whose vertices are
   the functions of the stages and whose edges are exactly those the stage edges
   call for: index to index where two stages of equal width pair up, all to all
   otherwise.
   */
  method ExpandExecutionGraph(job: Job) returns (g: Dag.Graph, funcs: map<Id, Func>)
    ensures Dag.Listed(g) && Dag.Valid(g)
    ensures Vertices(job, g, funcs) && ExactEdges(job, g) && PlainEdges(job, g)
  {
    var order;
    order, funcs := Functions(job);
    g := AddLinks(job, order, funcs);
    LinkedValid(g, Links(job, |job.edges|));
    TableVertices(job, g, funcs);
    LinkedExact(job, g, funcs);
    EdgesArePlain(job, g, funcs);
  }

  // ---------------------------------------------------- stages govern functions

  /** A function edge follows a stage edge. */
  lemma EdgeFollowsStages(job: Job, g: Dag.Graph, funcs: map<Id, Func>, u: Id, v: Id)
    requires Dag.Valid(g) && Vertices(job, g, funcs) && ExactEdges(job, g) && Dag.Edge(g, u, v)
    ensures u in funcs && v in funcs && (funcs[u].stage, funcs[v].stage) in job.edges
  {
    assert u in g.preds by {
      var k :| 0 <= k < |g.preds[v]| && g.preds[v][k] == u;
    }
    assert IsName(job, u, funcs[u].stage) && IsName(job, v, funcs[v].stage);
    var s, t := funcs[u].stage, funcs[v].stage;
    var i: nat :| u == Name(job.id, s, i);
    var j: nat :| v == Name(job.id, t, j);
    assert u in multiset(g.preds[v]);
    assert (s, t) in multiset(job.edges);
  }

  /** Functions that start out pending wait for nothing. */
  lemma PendingHasNoPredecessor(job: Job, g: Dag.Graph, funcs: map<Id, Func>, v: Id)
    requires Dag.Valid(g) && Vertices(job, g, funcs) && ExactEdges(job, g) && v in funcs
    ensures funcs[v].status == Pending || funcs[v].status == Waiting
    ensures funcs[v].status == Pending <==> forall e :: 0 <= e < |job.edges| ==> job.edges[e].1 != funcs[v].stage
    ensures funcs[v].status == Pending ==> g.preds[v] == []
  {
    assert IsName(job, v, funcs[v].stage);
    if g.preds[v] != [] {
      EdgeFollowsStages(job, g, funcs, g.preds[v][0], v);
      var e :| 0 <= e < |job.edges| && job.edges[e] == (funcs[g.preds[v][0]].stage, funcs[v].stage);
    }
  }

  ghost predicate StageCycle(job: Job, c: seq<string>) {
    |c| > 1 && c[0] == c[|c| - 1] && forall i :: 0 <= i < |c| - 1 ==> (c[i], c[i + 1]) in job.edges
  }

  /** An acyclic stage graph expands to an acyclic function graph. */
  lemma StagesAcyclic(job: Job, g: Dag.Graph, funcs: map<Id, Func>)
    requires Dag.Valid(g) && Vertices(job, g, funcs) && ExactEdges(job, g)
    requires forall c :: !StageCycle(job, c)
    ensures Dag.Acyclic(g)
  {
    forall p | Dag.IsCycle(g, p) ensures false {
      var c := seq(|p|, i requires 0 <= i < |p| => funcs[p[i]].stage);
      forall i | 0 <= i < |p| - 1 ensures (c[i], c[i + 1]) in job.edges {
        assert Dag.Edge(g, p[i], p[i + 1]);
        EdgeFollowsStages(job, g, funcs, p[i], p[i + 1]);
      }
      assert StageCycle(job, c);
    }
  }
}
