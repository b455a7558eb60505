/**
 Causal lattices of the key-value store: vector clocks that merge by pointwise
 maximum, and versions whose payload follows the clocks.
 */
module CausalLattice {

  datatype Node = Node(name: string)

  type Clock = map<Node, nat>

  // -------------------------------------------------------------- vector clocks

  function Max(a: nat, b: nat): nat { if a < b then b else a }

  function At(c: Clock, n: Node): nat { if n in c then c[n] else 0 }

  /** Pointwise maximum over the union of the entries. */
  function Join(a: Clock, b: Clock): Clock {
    map n | n in a.Keys + b.Keys :: Max(At(a, n), At(b, n))
  }

  /** `MapLattice::do_merge` over `MaxLattice` entries, in whatever order the hash map lists them. */
  method MergeClock(a: Clock, b: Clock) returns (c: Clock)
    ensures c == Join(a, b)
  {
    c := a;
    var todo := b.Keys;
    while todo != {}
      invariant todo <= b.Keys && Merged(a, b, todo, c)
      decreases |todo|
    {
      var n :| n in todo;
      MergedOne(a, b, todo, c, n);
      if n in c {
        if c[n] < b[n] { c := c[n := b[n]]; }
      } else {
        c := c[n := b[n]];
      }
      todo := todo - {n};
    }
  }

  /** The merge loop with the entries `todo` still to come. */
  ghost predicate Merged(a: Clock, b: Clock, todo: set<Node>, c: Clock) {
    && c.Keys == a.Keys + (b.Keys - todo)
    && forall n :: n in c ==> c[n] == if n in todo then At(a, n) else Max(At(a, n), At(b, n))
  }

  lemma MergedOne(a: Clock, b: Clock, todo: set<Node>, c: Clock, n: Node)
    requires Merged(a, b, todo, c) && n in todo && n in b
    ensures Merged(a, b, todo - {n}, if n in c && c[n] >= b[n] then c else c[n := b[n]])
  {
    assert n in c ==> c[n] == At(a, n);
    var c' := if n in c && c[n] >= b[n] then c else c[n := b[n]];
    assert c'.Keys == a.Keys + (b.Keys - (todo - {n}));
  }

  predicate Dominates(a: Clock, b: Clock) {
    Join(b, a) == a
  }

  lemma JoinCommutes(a: Clock, b: Clock)
    ensures Join(a, b) == Join(b, a)
  {
    assert a.Keys + b.Keys == b.Keys + a.Keys;
  }

  lemma JoinAssociates(a: Clock, b: Clock, c: Clock)
    ensures Join(Join(a, b), c) == Join(a, Join(b, c))
  {
    var l, r := Join(Join(a, b), c), Join(a, Join(b, c));
    assert l.Keys == r.Keys;
    forall n | n in l ensures l[n] == r[n] {
      assert At(Join(a, b), n) == Max(At(a, n), At(b, n)) && At(Join(b, c), n) == Max(At(b, n), At(c, n));
    }
  }

  // -------------------------------------------------------------------- versions

  datatype Version<P> = Version(clock: Clock, payload: P)

  /** `do_merge`: a dominating version replaces, a concurrent one is merged in, an old one is ignored. */
  function Merge<P>(a: Version<P>, p: Version<P>, join: (P, P) -> P): Version<P> {
    var c := Join(a.clock, p.clock);
    Version(c, if c == p.clock then p.payload else if c != a.clock then join(a.payload, p.payload) else a.payload)
  }

  /** Payload of the single-key lattice: a set-valued value. */
  type Value = set<string>

  function Unite(a: Value, b: Value): Value { a + b }

  /** Payload of the multi-key lattice: the dependencies and the value. */
  datatype Causal = Causal(dependencies: map<Node, Clock>, value: Value)

  function Depend(a: map<Node, Clock>, b: map<Node, Clock>): map<Node, Clock> {
    map k | k in a.Keys + b.Keys :: if k in a then (if k in b then Join(a[k], b[k]) else a[k]) else b[k]
  }

  function UniteCausal(a: Causal, b: Causal): Causal {
    Causal(Depend(a.dependencies, b.dependencies), a.value + b.value)
  }

  /** A dependency one side holds is kept; one that both hold gets the attained pointwise maximum of the two clocks. */
  lemma DependIs(a: map<Node, Clock>, b: map<Node, Clock>, k: Node)
    ensures k in Depend(a, b) <==> k in a || k in b
    ensures k in a && k !in b ==> Depend(a, b)[k] == a[k]
    ensures k !in a && k in b ==> Depend(a, b)[k] == b[k]
    ensures k in a && k in b ==>
              var c := Depend(a, b)[k];
              && (forall n :: n in c <==> n in a[k] || n in b[k])
              && (forall n :: n in a[k] ==> a[k][n] <= c[n]) && (forall n :: n in b[k] ==> b[k][n] <= c[n])
              && forall n :: n in c ==> (n in a[k] && c[n] == a[k][n]) || (n in b[k] && c[n] == b[k][n])
  {
  }

  class SingleKeyCausalLattice {
    var clock: Clock
    var value: Value

    ghost function Element(): Version<Value>
      reads this
    {
      Version(clock, value)
    }

    constructor ()
      ensures Element() == Version(map[], {})
    {
      clock, value := map[], {};
    }

    method DoMerge(p: Version<Value>)
      modifies this
      ensures Element() == Merge(old(Element()), p, Unite)
    {
      var prev := clock;
      clock := MergeClock(clock, p.clock);
      if clock == p.clock {
        value := p.payload;
      } else if clock != prev {
        value := value + p.payload;
      }
    }
  }

  class MultiKeyCausalLattice {
    var clock: Clock
    var dependencies: map<Node, Clock>
    var value: Value

    ghost function Element(): Version<Causal>
      reads this
    {
      Version(clock, Causal(dependencies, value))
    }

    constructor ()
      ensures Element() == Version(map[], Causal(map[], {}))
    {
      clock, dependencies, value := map[], map[], {};
    }

    method DoMerge(p: Version<Causal>)
      modifies this
      ensures Element() == Merge(old(Element()), p, UniteCausal)
    {
      var prev := clock;
      clock := MergeClock(clock, p.clock);
      if clock == p.clock {
        dependencies := p.payload.dependencies;
        value := p.payload.value;
      } else if clock != prev {
        dependencies := Depend(dependencies, p.payload.dependencies);
        value := value + p.payload.value;
      }
    }
  }

  ghost predicate Commutative<P(!new)>(join: (P, P) -> P) {
    forall x, y :: join(x, y) == join(y, x)
  }

  lemma UniteCommutes()
    ensures Commutative(Unite) && Commutative(UniteCausal)
  {
    forall x: Value, y: Value ensures Unite(x, y) == Unite(y, x) {}
    forall x: Causal, y: Causal ensures UniteCausal(x, y) == UniteCausal(y, x) {
      DependCommutes(x.dependencies, y.dependencies);
    }
  }

  lemma DependCommutes(a: map<Node, Clock>, b: map<Node, Clock>)
    ensures Depend(a, b) == Depend(b, a)
  {
    forall k | k in a && k in b ensures Join(a[k], b[k]) == Join(b[k], a[k]) { JoinCommutes(a[k], b[k]); }
    assert a.Keys + b.Keys == b.Keys + a.Keys;
  }

  /** Merging two versions commutes exactly when equal clocks carry equal payloads. */
  lemma MergeCommutes<P(!new)>(a: Version<P>, b: Version<P>, join: (P, P) -> P)
    requires Commutative(join)
    ensures Merge(a, b, join) == Merge(b, a, join) <==> (a.clock == b.clock ==> a.payload == b.payload)
  {
    JoinCommutes(a.clock, b.clock);
    assert Join(a.clock, a.clock) == a.clock;
  }

  /** Delivering a version twice in a row changes nothing. */
  lemma MergeIdempotent<P>(a: Version<P>, p: Version<P>, join: (P, P) -> P)
    ensures Merge(Merge(a, p, join), p, join) == Merge(a, p, join)
  {
    JoinAssociates(a.clock, p.clock, p.clock);
    assert Join(p.clock, p.clock) == p.clock;
  }

  // ------------------------------------------------------------------ deliveries

  function Deliver<P>(start: Version<P>, vs: seq<Version<P>>, join: (P, P) -> P): Version<P> {
    if vs == [] then start else Merge(Deliver(start, vs[..|vs| - 1], join), vs[|vs| - 1], join)
  }

  /** The clock is an upper bound of the start and everything delivered, and every entry comes from one of them. */
  ghost predicate IsMaximum<P>(c: Clock, start: Clock, vs: seq<Version<P>>) {
    && (forall n :: n in start ==> n in c && start[n] <= c[n])
    && (forall i, n :: 0 <= i < |vs| && n in vs[i].clock ==> n in c && vs[i].clock[n] <= c[n])
    && forall n {:trigger c[n]} :: n in c ==> Attained(c[n], n, start, vs)
  }

  ghost predicate Attained<P>(x: nat, n: Node, start: Clock, vs: seq<Version<P>>) {
    (n in start && start[n] == x) || exists i :: 0 <= i < |vs| && n in vs[i].clock && vs[i].clock[n] == x
  }

  lemma AttainedMore<P>(x: nat, n: Node, start: Clock, vs: seq<Version<P>>, m: nat)
    requires m <= |vs| && Attained(x, n, start, vs[..m])
    ensures Attained(x, n, start, vs)
  {
    if !(n in start && start[n] == x) {
      var i :| 0 <= i < m && n in vs[..m][i].clock && vs[..m][i].clock[n] == x;
      assert vs[i].clock[n] == x;
    }
  }

  /** For any order and repetition of deliveries the clock is the pointwise maximum. */
  lemma {:induction false} ClockIsMaximum<P>(start: Version<P>, vs: seq<Version<P>>, join: (P, P) -> P)
    ensures IsMaximum(Deliver(start, vs, join).clock, start.clock, vs)
  {
    if vs != [] {
      var m := |vs| - 1;
      ClockIsMaximum(start, vs[..m], join);
      MaximumNext(Deliver(start, vs[..m], join).clock, start.clock, vs, m);
    }
  }

  lemma AttainedNext<P>(c: Clock, start: Clock, vs: seq<Version<P>>, m: nat, n: Node)
    requires m + 1 == |vs| && IsMaximum(c, start, vs[..m]) && n in Join(c, vs[m].clock)
    ensures Attained(Join(c, vs[m].clock)[n], n, start, vs)
  {
    if n in c && At(vs[m].clock, n) <= c[n] {
      assert Attained(c[n], n, start, vs[..m]);
      AttainedMore(c[n], n, start, vs, m);
    } else {
      assert Join(c, vs[m].clock)[n] == vs[m].clock[n];
    }
  }

  lemma MaximumNext<P>(c: Clock, start: Clock, vs: seq<Version<P>>, m: nat)
    requires m + 1 == |vs| && IsMaximum(c, start, vs[..m])
    ensures IsMaximum(Join(c, vs[m].clock), start, vs)
  {
    var d := Join(c, vs[m].clock);
    forall i, n | 0 <= i < |vs| && n in vs[i].clock ensures n in d && vs[i].clock[n] <= d[n] {
      if i < m { assert vs[..m][i] == vs[i]; }
    }
    forall n | n in d ensures Attained(d[n], n, start, vs) { AttainedNext(c, start, vs, m, n); }
  }

  lemma MaximumUnique<P>(c: Clock, d: Clock, start: Clock, vs: seq<Version<P>>, ws: seq<Version<P>>)
    requires IsMaximum(c, start, vs) && IsMaximum(d, start, ws) && forall v :: v in vs <==> v in ws
    ensures c == d
  {
    forall n | n in c ensures n in d && c[n] <= d[n] { BelowMaximum(c[n], n, d, start, vs, ws); }
    forall n | n in d ensures n in c && d[n] <= c[n] { BelowMaximum(d[n], n, c, start, ws, vs); }
  }

  lemma BelowMaximum<P>(x: nat, n: Node, d: Clock, start: Clock, vs: seq<Version<P>>, ws: seq<Version<P>>)
    requires Attained(x, n, start, vs) && IsMaximum(d, start, ws) && forall v :: v in vs ==> v in ws
    ensures n in d && x <= d[n]
  {
    if !(n in start && start[n] == x) {
      var i :| 0 <= i < |vs| && n in vs[i].clock && vs[i].clock[n] == x;
      assert vs[i] in ws;
      var j :| 0 <= j < |ws| && ws[j] == vs[i];
    }
  }

  /** Replicas that received the same versions agree on the clock. */
  lemma ClocksConverge<P>(start: Version<P>, vs: seq<Version<P>>, ws: seq<Version<P>>, join: (P, P) -> P)
    requires forall v :: v in vs <==> v in ws
    ensures Deliver(start, vs, join).clock == Deliver(start, ws, join).clock
  {
    ClockIsMaximum(start, vs, join);
    ClockIsMaximum(start, ws, join);
    MaximumUnique(Deliver(start, vs, join).clock, Deliver(start, ws, join).clock, start.clock, vs, ws);
  }

  lemma DominatesJoin(d: Clock, a: Clock, b: Clock)
    requires Dominates(d, a) && Dominates(d, b)
    ensures Dominates(d, Join(a, b))
  {
    JoinAssociates(a, b, d);
  }

  /** While `top` is outstanding the state stays below it; once delivered, the state is `top`. */
  lemma {:induction false} TopWins<P>(start: Version<P>, vs: seq<Version<P>>, top: Version<P>, join: (P, P) -> P)
    requires Dominates(top.clock, start.clock)
    requires forall i :: 0 <= i < |vs| ==> Dominates(top.clock, vs[i].clock) && (vs[i].clock == top.clock ==> vs[i] == top)
    ensures Dominates(top.clock, Deliver(start, vs, join).clock)
    ensures top in vs ==> Deliver(start, vs, join) == top
  {
    if vs != [] {
      var init, v := vs[..|vs| - 1], vs[|vs| - 1];
      TopWins(start, init, top, join);
      assert vs == init + [v];
      var s := Deliver(start, init, join);
      DominatesJoin(top.clock, s.clock, v.clock);
      JoinCommutes(s.clock, v.clock);
    }
  }

  /** A version that dominates all others is the outcome, whatever the order and however often each arrives. */
  lemma DominatingVersionWins<P>(vs: seq<Version<P>>, top: Version<P>, bottom: P, join: (P, P) -> P)
    requires top in vs
    requires forall i :: 0 <= i < |vs| ==> Dominates(top.clock, vs[i].clock) && (vs[i].clock == top.clock ==> vs[i] == top)
    ensures Deliver(Version(map[], bottom), vs, join) == top
  {
    assert Join(map[], top.clock) == top.clock;
    TopWins(Version(map[], bottom), vs, top, join);
  }

  // ------------------------------------------------------ when grouping matters

  predicate Concurrent(a: Clock, b: Clock) {
    !Dominates(a, b) && !Dominates(b, a)
  }

  ghost predicate Associative<P(!new)>(join: (P, P) -> P) {
    forall x, y, z :: join(join(x, y), z) == join(x, join(y, z))
  }

  /** Merging versions with these clocks does not depend on the grouping, whatever they carry. */
  ghost predicate Associates<P(!new)>(a: Clock, b: Clock, c: Clock, join: (P, P) -> P) {
    forall x, y, z {:trigger Grouped(a, b, c, x, y, z, join)} :: Grouped(a, b, c, x, y, z, join)
  }

  ghost predicate Grouped<P>(a: Clock, b: Clock, c: Clock, x: P, y: P, z: P, join: (P, P) -> P) {
    var va, vb, vc := Version(a, x), Version(b, y), Version(c, z);
    Merge(Merge(va, vb, join), vc, join) == Merge(va, Merge(vb, vc, join), join)
  }

  /**
   The grouping `(a b) c` against `a (b c)`, decided by comparing clocks alone.  If `b`
   replaces `a` they agree.  If `b` is older than `a`, they agree unless `b` and `c` are
   concurrent, and then only if `c` is older than `a` and both together do not reach
   `a`.  If `a` and `b` are concurrent, they agree if `c` replaces both, or is older than
   `b`, or is concurrent with `b` while each of `a` and `c` knows something the other
   two do not.
   */
  predicate GroupingAgrees(a: Clock, b: Clock, c: Clock) {
    if Dominates(b, a) then true
    else if Dominates(a, b) then
      !Concurrent(b, c) || (Dominates(a, c) && !Dominates(Join(b, c), a))
    else
      || Dominates(c, Join(a, b))
      || (Dominates(b, c) && !Dominates(c, b))
      || (Concurrent(b, c) && !Dominates(Join(a, b), c) && !Dominates(Join(b, c), a))
  }

  lemma DominatesIs(a: Clock, b: Clock)
    ensures Dominates(a, b) <==> Join(a, b) == a
    ensures Dominates(a, b) && Dominates(b, a) ==> a == b
  {
    JoinCommutes(a, b);
  }

  lemma DominatesThrough(a: Clock, b: Clock, c: Clock)
    requires Dominates(a, b) && Dominates(b, c)
    ensures Dominates(a, c)
  {
    JoinAssociates(c, b, a);
  }

  /** A join is the least upper bound. */
  lemma JoinIsLeast(d: Clock, a: Clock, b: Clock)
    ensures Dominates(d, Join(a, b)) <==> Dominates(d, a) && Dominates(d, b)
    ensures Dominates(Join(a, b), a) && Dominates(Join(a, b), b)
  {
    assert Dominates(Join(a, b), a) by {
      JoinAssociates(a, a, b);
      assert Join(a, a) == a;
    }
    assert Dominates(Join(a, b), b) by {
      JoinAssociates(b, b, a);
      assert Join(b, b) == b;
      JoinCommutes(a, b);
    }
    if Dominates(d, a) && Dominates(d, b) { DominatesJoin(d, a, b); }
    if Dominates(d, Join(a, b)) {
      DominatesThrough(d, Join(a, b), a);
      DominatesThrough(d, Join(a, b), b);
    }
  }

  /** Which of the two sides of a merge survive, by their clocks. */
  datatype Outcome = OnlyRight | OnlyLeft | Both

  function Decide(a: Clock, p: Clock): Outcome {
    if Dominates(p, a) then OnlyRight else if Dominates(a, p) then OnlyLeft else Both
  }

  lemma MergeDecides<P>(a: Version<P>, p: Version<P>, join: (P, P) -> P)
    ensures Merge(a, p, join) == Version(Join(a.clock, p.clock), match Decide(a.clock, p.clock)
                                                                  case OnlyRight => p.payload
                                                                  case OnlyLeft => a.payload
                                                                  case Both => join(a.payload, p.payload))
  {
    DominatesIs(a.clock, p.clock);
  }

  /** The four decisions of the two groupings. */
  datatype Decisions = Decisions(ab: Outcome, ab_c: Outcome, bc: Outcome, a_bc: Outcome)

  function AllDecisions(a: Clock, b: Clock, c: Clock): Decisions {
    Decisions(Decide(a, b), Decide(Join(a, b), c), Decide(b, c), Decide(a, Join(b, c)))
  }

  /** Who survives in `(a b) c`, as three flags. */
  function LeftSurvivors(d: Decisions): (bool, bool, bool) {
    (!d.ab.OnlyRight? && !d.ab_c.OnlyRight?, !d.ab.OnlyLeft? && !d.ab_c.OnlyRight?, !d.ab_c.OnlyLeft?)
  }

  /** Who survives in `a (b c)`. */
  function RightSurvivors(d: Decisions): (bool, bool, bool) {
    (!d.a_bc.OnlyRight?, !d.bc.OnlyRight? && !d.a_bc.OnlyLeft?, !d.bc.OnlyLeft? && !d.a_bc.OnlyLeft?)
  }

  /** How three clocks and the joins of neighbours compare; `xy` says that `x` dominates `y`. */
  datatype Order = Order(ab: bool, ba: bool, bc: bool, cb: bool, ac: bool, ca: bool,
                         joinAB_c: bool, c_joinAB: bool, joinBC_a: bool, a_joinBC: bool)

  function OrderOf(a: Clock, b: Clock, c: Clock): Order {
    Order(Dominates(a, b), Dominates(b, a), Dominates(b, c), Dominates(c, b), Dominates(a, c), Dominates(c, a),
          Dominates(Join(a, b), c), Dominates(c, Join(a, b)), Dominates(Join(b, c), a), Dominates(a, Join(b, c)))
  }

  /** Domination is transitive, and a join is the least upper bound. */
  predicate Lawful(o: Order) {
    && (o.ab && o.bc ==> o.ac) && (o.ac && o.cb ==> o.ab) && (o.ba && o.ac ==> o.bc)
    && (o.bc && o.ca ==> o.ba) && (o.ca && o.ab ==> o.cb) && (o.cb && o.ba ==> o.ca)
    && (o.c_joinAB <==> o.ca && o.cb) && (o.a_joinBC <==> o.ab && o.ac)
    && (o.ab ==> (o.joinAB_c <==> o.ac)) && (o.ba ==> (o.joinAB_c <==> o.bc)) && (o.bc || o.ac ==> o.joinAB_c)
    && (o.bc ==> (o.joinBC_a <==> o.ba)) && (o.cb ==> (o.joinBC_a <==> o.ca)) && (o.ba || o.ca ==> o.joinBC_a)
  }

  function Compare(xRight: bool, xLeft: bool): Outcome {
    if xRight then OnlyRight else if xLeft then OnlyLeft else Both
  }

  function DecisionsOf(o: Order): Decisions {
    Decisions(Compare(o.ba, o.ab), Compare(o.c_joinAB, o.joinAB_c), Compare(o.cb, o.bc), Compare(o.joinBC_a, o.a_joinBC))
  }

  predicate AgreesOf(o: Order) {
    if o.ba then true
    else if o.ab then o.bc || o.cb || (o.ac && !o.joinBC_a)
    else o.c_joinAB || (o.bc && !o.cb) || (!o.bc && !o.cb && !o.joinAB_c && !o.joinBC_a)
  }

  lemma OrderDecides(o: Order)
    requires Lawful(o)
    ensures LeftSurvivors(DecisionsOf(o)) == RightSurvivors(DecisionsOf(o)) <==> AgreesOf(o)
  {
  }

  lemma OrderIsLawful(a: Clock, b: Clock, c: Clock)
    ensures Lawful(OrderOf(a, b, c))
  {
    JoinIsLeast(c, a, b);
    JoinIsLeast(a, b, c);
    if Dominates(c, b) && Dominates(b, a) { DominatesThrough(c, b, a); }
    if Dominates(c, a) && Dominates(a, b) { DominatesThrough(c, a, b); }
    if Dominates(a, b) && Dominates(b, c) { DominatesThrough(a, b, c); }
    if Dominates(a, c) && Dominates(c, b) { DominatesThrough(a, c, b); }
    if Dominates(b, a) && Dominates(a, c) { DominatesThrough(b, a, c); }
    if Dominates(b, c) && Dominates(c, a) { DominatesThrough(b, c, a); }
    LaterJoins(a, b, c);
    LaterJoins(c, b, a);
    JoinCommutes(a, b);
    JoinCommutes(b, c);
    AboveJoin(a, b, c);
    AboveJoin(c, b, a);
  }

  lemma AboveJoin(a: Clock, b: Clock, c: Clock)
    ensures Dominates(a, c) ==> Dominates(Join(a, b), c)
  {
    JoinIsLeast(a, a, b);
    if Dominates(a, c) { DominatesThrough(Join(a, b), a, c); }
  }

  /** The groupings have the same survivors exactly when the comparison of clocks says so. */
  lemma SurvivorsIff(a: Clock, b: Clock, c: Clock)
    ensures var d := AllDecisions(a, b, c); LeftSurvivors(d) == RightSurvivors(d) <==> GroupingAgrees(a, b, c)
  {
    OrderIsLawful(a, b, c);
    OrderDecides(OrderOf(a, b, c));
  }

  lemma LaterJoins(a: Clock, b: Clock, c: Clock)
    ensures Dominates(b, a) ==> Join(a, b) == b && Dominates(Join(b, c), a)
    ensures Dominates(a, b) ==> Join(a, b) == a
    ensures Dominates(c, b) ==> Join(b, c) == c
    ensures Dominates(b, c) ==> Join(b, c) == b && Dominates(Join(a, b), c)
  {
    DominatesIs(a, b);
    DominatesIs(b, c);
    JoinIsLeast(b, b, c);
    JoinIsLeast(b, a, b);
    if Dominates(b, a) { DominatesThrough(Join(b, c), b, a); }
    if Dominates(b, c) { DominatesThrough(Join(a, b), b, c); }
  }

  /** The payload the survivors leave. */
  function Combine<P>(f: (bool, bool, bool), x: P, y: P, z: P, join: (P, P) -> P): P {
    if f.0 && f.1 && f.2 then join(join(x, y), z)
    else if f.0 && f.1 then join(x, y)
    else if f.0 && f.2 then join(x, z)
    else if f.1 && f.2 then join(y, z)
    else if f.0 then x else if f.1 then y else z
  }

  lemma LeftIs<P>(a: Version<P>, b: Version<P>, c: Version<P>, join: (P, P) -> P)
    ensures Merge(Merge(a, b, join), c, join)
            == Version(Join(Join(a.clock, b.clock), c.clock),
                       Combine(LeftSurvivors(AllDecisions(a.clock, b.clock, c.clock)), a.payload, b.payload, c.payload, join))
  {
    MergeDecides(a, b, join);
    MergeDecides(Merge(a, b, join), c, join);
  }

  lemma RightIs<P(!new)>(a: Version<P>, b: Version<P>, c: Version<P>, join: (P, P) -> P)
    requires Associative(join)
    ensures Merge(a, Merge(b, c, join), join)
            == Version(Join(a.clock, Join(b.clock, c.clock)),
                       Combine(RightSurvivors(AllDecisions(a.clock, b.clock, c.clock)), a.payload, b.payload, c.payload, join))
  {
    MergeDecides(b, c, join);
    MergeDecides(a, Merge(b, c, join), join);
  }

  /** With an associative payload, grouping does not matter where the clocks agree. */
  lemma GroupingHolds<P(!new)>(a: Clock, b: Clock, c: Clock, join: (P, P) -> P)
    requires Associative(join) && GroupingAgrees(a, b, c)
    ensures Associates(a, b, c, join)
  {
    SurvivorsIff(a, b, c);
    JoinAssociates(a, b, c);
    forall x, y, z ensures Grouped(a, b, c, x, y, z, join) {
      LeftIs(Version(a, x), Version(b, y), Version(c, z), join);
      RightIs(Version(a, x), Version(b, y), Version(c, z), join);
    }
  }

  lemma UniteAssociates()
    ensures Associative(Unite)
  {
    forall x: Value, y: Value, z: Value ensures Unite(Unite(x, y), z) == Unite(x, Unite(y, z)) {}
  }

  lemma DependAssociates(a: map<Node, Clock>, b: map<Node, Clock>, c: map<Node, Clock>)
    ensures Depend(Depend(a, b), c) == Depend(a, Depend(b, c))
  {
    var l, r := Depend(Depend(a, b), c), Depend(a, Depend(b, c));
    assert l.Keys == r.Keys;
    forall k | k in l ensures l[k] == r[k] { DependAt(a, b, c, k); }
  }

  lemma DependAt(a: map<Node, Clock>, b: map<Node, Clock>, c: map<Node, Clock>, k: Node)
    requires k in a || k in b || k in c
    ensures Depend(Depend(a, b), c)[k] == Depend(a, Depend(b, c))[k]
  {
    var ab, bc := Depend(a, b), Depend(b, c);
    if k in a && k in b && k in c { JoinAssociates(a[k], b[k], c[k]); }
    assert k in ab <==> k in a || k in b;
    assert k in bc <==> k in b || k in c;
  }

  lemma UniteCausalAssociates()
    ensures Associative(UniteCausal)
  {
    forall x: Causal, y: Causal, z: Causal ensures UniteCausal(UniteCausal(x, y), z) == UniteCausal(x, UniteCausal(y, z)) {
      DependAssociates(x.dependencies, y.dependencies, z.dependencies);
    }
  }

  lemma CombineTells(f: (bool, bool, bool), x: string, y: string, z: string)
    requires x != y && y != z && x != z && (f.0 || f.1 || f.2)
    ensures var v := Combine(f, {x}, {y}, {z}, Unite); f == (x in v, y in v, z in v)
  {
  }

  lemma SomebodySurvives(d: Decisions)
    ensures var f := LeftSurvivors(d); f.0 || f.1 || f.2
    ensures var f := RightSurvivors(d); f.0 || f.1 || f.2
  {
  }

  /** Where the clocks disagree, three different values show it. */
  lemma GroupingFails(a: Clock, b: Clock, c: Clock, x: string, y: string, z: string)
    requires !GroupingAgrees(a, b, c) && x != y && y != z && x != z
    ensures !Grouped(a, b, c, {x}, {y}, {z}, Unite)
  {
    var d := AllDecisions(a, b, c);
    SurvivorsIff(a, b, c);
    UniteAssociates();
    LeftIs(Version(a, {x}), Version(b, {y}), Version(c, {z}), Unite);
    RightIs(Version(a, {x}), Version(b, {y}), Version(c, {z}), Unite);
    SomebodySurvives(d);
    CombineTells(LeftSurvivors(d), x, y, z);
    CombineTells(RightSurvivors(d), x, y, z);
  }

  /** Single-key versions: the grouping is immaterial for all values if and only if the clocks agree. */
  lemma SingleKeyAssociatesIff(a: Clock, b: Clock, c: Clock)
    ensures Associates(a, b, c, Unite) <==> GroupingAgrees(a, b, c)
  {
    UniteAssociates();
    if GroupingAgrees(a, b, c) { GroupingHolds(a, b, c, Unite); }
    if !GroupingAgrees(a, b, c) { GroupingFails(a, b, c, "", "a", "aa"); }
  }

  function Bare(v: Value): Causal { Causal(map[], v) }

  lemma BareMerge(a: Version<Value>, p: Version<Value>)
    ensures Merge(Version(a.clock, Bare(a.payload)), Version(p.clock, Bare(p.payload)), UniteCausal)
            == Version(Merge(a, p, Unite).clock, Bare(Merge(a, p, Unite).payload))
  {
    assert Depend(map[], map[]) == map[];
  }

  /** Multi-key versions: the same condition. */
  lemma MultiKeyAssociatesIff(a: Clock, b: Clock, c: Clock)
    ensures Associates(a, b, c, UniteCausal) <==> GroupingAgrees(a, b, c)
  {
    UniteCausalAssociates();
    if GroupingAgrees(a, b, c) { GroupingHolds(a, b, c, UniteCausal); }
    if Associates(a, b, c, UniteCausal) {
      forall x, y, z ensures Grouped(a, b, c, x, y, z, Unite) {
        var va, vb, vc := Version(a, x), Version(b, y), Version(c, z);
        BareMerge(va, vb);
        BareMerge(vb, vc);
        BareMerge(Merge(va, vb, Unite), vc);
        BareMerge(va, Merge(vb, vc, Unite));
        assert Grouped(a, b, c, Bare(x), Bare(y), Bare(z), UniteCausal);
      }
      SingleKeyAssociatesIff(a, b, c);
    }
  }

  /** A first failing shape: the second and third version are concurrent and together make up the first. */
  lemma SplitFails(a: Clock, b: Clock, c: Clock)
    requires Concurrent(b, c) && Join(b, c) == a
    ensures !GroupingAgrees(a, b, c)
  {
    JoinIsLeast(a, b, c);
    assert Join(a, a) == a;
    if Dominates(b, a) { DominatesThrough(b, a, c); }
  }

  /** A second one: between the second version and what it makes with a concurrent first one. */
  lemma BetweenFails(a: Clock, b: Clock, c: Clock)
    requires Concurrent(a, b) && Dominates(c, b) && Dominates(Join(a, b), c) && !Dominates(c, a)
    ensures !GroupingAgrees(a, b, c)
  {
    JoinIsLeast(c, a, b);
  }

  /** Concretely: a version that has seen one write of two nodes each, and those two writes. */
  lemma SplitWritesNotAssociative(x: Node, y: Node)
    requires x != y
    ensures !Associates(map[x := 1, y := 1], map[x := 1], map[y := 1], Unite)
  {
    var a: Clock, b: Clock, c: Clock := map[x := 1, y := 1], map[x := 1], map[y := 1];
    assert Join(b, c) == a;
    assert Join(c, b) == a;
    assert y !in b && x !in c && y in a && x in a;
    SplitFails(a, b, c);
    SingleKeyAssociatesIff(a, b, c);
  }

  /** Among concurrent versions the order of delivery can show: merging is not associative. */
  lemma MergeNotAssociative(x: Node, y: Node, a: Value, c: Value, d: Value)
    requires x != y && a + d != d + c
    ensures var va, vc, vd := Version(map[x := 1], a), Version(map[x := 1, y := 1], c), Version(map[y := 2], d);
            && Merge(Merge(va, vd, Unite), vc, Unite).payload == a + d
            && Merge(va, Merge(vd, vc, Unite), Unite).payload == d + c
            && Merge(Merge(va, vd, Unite), vc, Unite) != Merge(va, Merge(vd, vc, Unite), Unite)
            && !GroupingAgrees(va.clock, vd.clock, vc.clock)
  {
    ClockJoins(x, y);
    var va, vc, vd := Version(map[x := 1], a), Version(map[x := 1, y := 1], c), Version(map[y := 2], d);
    UniteAssociates();
    if GroupingAgrees(va.clock, vd.clock, vc.clock) {
      GroupingHolds(va.clock, vd.clock, vc.clock, Unite);
      assert Grouped(va.clock, vd.clock, vc.clock, a, d, c, Unite);
    }
  }

  lemma ClockJoins(x: Node, y: Node)
    requires x != y
    ensures var a: Clock, c: Clock, d: Clock, all: Clock := map[x := 1], map[x := 1, y := 1], map[y := 2], map[x := 1, y := 2];
            && a != all && c != all && d != all
            && Join(a, d) == all && Join(all, c) == all && Join(d, c) == all && Join(a, all) == all
  {
    var a: Clock, c: Clock, d: Clock, all: Clock := map[x := 1], map[x := 1, y := 1], map[y := 2], map[x := 1, y := 2];
    assert y !in a && x !in d && c[y] != all[y];
  }
}
