/**
 Whole-run accounting of three triggers (`trigger.hpp`): which arrivals each action
 consumes, over every sequence of arrivals without an intervening `clear`.
 */
module TriggerAccounting {

  import opened Sets

  datatype Object = Object(session: string, key: string)

  type Objects = seq<Object>

  // ------------------------------------------------------------------ by batch

  datatype Batch = Batch(buffer: Objects, actions: seq<Objects>)

  /** `actions` lists what has been handed out so far.  The size comparison is unsigned: a negative count never fires. */
  function BatchNext(count: int, s: Batch, x: Object): Batch {
    var buffer := s.buffer + [x];
    if 0 <= count <= |buffer| then Batch([], s.actions + [buffer]) else Batch(buffer, s.actions)
  }

  function BatchRun(count: int, arrivals: Objects): Batch {
    if arrivals == [] then Batch([], [])
    else BatchNext(count, BatchRun(count, arrivals[..|arrivals| - 1]), arrivals[|arrivals| - 1])
  }

  function Flat(actions: seq<Objects>): Objects {
    if actions == [] then [] else Flat(actions[..|actions| - 1]) + actions[|actions| - 1]
  }

  /** Every action has exactly `count` objects. */
  predicate EachOf(actions: seq<Objects>, count: int) {
    actions == [] || (|actions[|actions| - 1]| == count && EachOf(actions[..|actions| - 1], count))
  }

  lemma ActionAdded(actions: seq<Objects>, a: Objects, count: int)
    ensures Flat(actions + [a]) == Flat(actions) + a
    ensures EachOf(actions, count) && |a| == count ==> EachOf(actions + [a], count)
  {
    assert (actions + [a])[..|actions|] == actions;
  }

  class ByBatchSizeTrigger {
    const count: int
    var buffer: Objects
    ghost var arrivals: Objects
    ghost var handedOut: seq<Objects>

    /** With a positive count, what was handed out and what is buffered are the arrivals, in full batches. */
    ghost predicate Valid()
      reads this
    {
      count >= 1 ==> Conserves(count, Batch(buffer, handedOut), arrivals)
    }

    constructor (count: int)
      ensures Valid() && this.count == count && buffer == [] && arrivals == [] && handedOut == []
    {
      this.count, buffer, arrivals, handedOut := count, [], [], [];
    }

    method ActionForNewObject(x: Object) returns (actions: seq<Objects>)
      requires Valid()
      modifies this
      ensures Valid() && arrivals == old(arrivals) + [x] && handedOut == old(handedOut) + actions
      ensures Batch(buffer, handedOut) == BatchNext(count, Batch(old(buffer), old(handedOut)), x)
    {
      if count >= 1 { BatchStep(count, Batch(buffer, handedOut), arrivals, x); }
      actions := [];
      buffer := buffer + [x];
      if 0 <= count && |buffer| >= count {
        actions := [buffer];
        buffer := [];
      }
      arrivals, handedOut := arrivals + [x], handedOut + actions;
      assert Batch(buffer, handedOut) == BatchNext(count, Batch(old(buffer), old(handedOut)), x);
    }
  }

  /** Actions and buffer together are the arrivals, and every action is full. */
  ghost predicate Conserves(count: int, s: Batch, arrivals: Objects) {
    Flat(s.actions) + s.buffer == arrivals && |s.buffer| < count && EachOf(s.actions, count)
  }

  lemma BatchStep(count: int, s: Batch, arrivals: Objects, x: Object)
    requires count >= 1 && Conserves(count, s, arrivals)
    ensures Conserves(count, BatchNext(count, s, x), arrivals + [x])
  {
    ActionAdded(s.actions, s.buffer + [x], count);
    Reassociate(Flat(s.actions), s.buffer, [x]);
  }

  lemma Reassociate(a: Objects, b: Objects, c: Objects)
    ensures (a + b) + c == a + (b + c)
  {
  }

  /** Nothing is lost, doubled or reordered, and every action has exactly `count` objects. */
  lemma {:induction false} BatchConserves(count: int, arrivals: Objects)
    requires count >= 1
    ensures Conserves(count, BatchRun(count, arrivals), arrivals)
  {
    if arrivals != [] {
      var init, x := arrivals[..|arrivals| - 1], arrivals[|arrivals| - 1];
      BatchConserves(count, init);
      BatchStep(count, BatchRun(count, init), init, x);
      assert arrivals == init + [x];
    }
  }

  // ----------------------------------------------------------------- redundant

  datatype Redundant = Redundant(count: nat, buffer: Objects)

  /** The state after an arrival, and the action it causes if any. */
  datatype Result = Result(state: Redundant, actions: seq<Objects>)

  function RedundantNext(k: nat, n: nat, s: Redundant, x: Object): Result {
    var count := s.count + 1;
    if count <= k then
      var buffer := s.buffer + [x];
      if count == k then Result(Redundant(count, []), [buffer]) else Result(Redundant(count, buffer), [])
    else if count >= n then Result(Redundant(0, s.buffer), [])
    else Result(Redundant(count, s.buffer), [])
  }

  function RedundantRun(k: nat, n: nat, arrivals: Objects): Redundant {
    if arrivals == [] then Redundant(0, [])
    else RedundantNext(k, n, RedundantRun(k, n, arrivals[..|arrivals| - 1]), arrivals[|arrivals| - 1]).state
  }

  class RedundantTrigger {
    const k: nat
    const n: nat
    var count: nat
    var buffer: Objects
    ghost var arrivals: Objects

    /** The state is where the arrivals so far have brought it. */
    ghost predicate Valid()
      reads this
    {
      Redundant(count, buffer) == RedundantRun(k, n, arrivals)
    }

    constructor (k: nat, n: nat)
      ensures Valid() && this.k == k && this.n == n && arrivals == []
    {
      this.k, this.n, count, buffer, arrivals := k, n, 0, [], [];
    }

    /** Fires on the `k`-th arrival of every cycle, with the `k` arrivals of that cycle, and on no other. */
    method ActionForNewObject(x: Object) returns (actions: seq<Objects>)
      requires Valid()
      modifies this
      ensures Valid() && arrivals == old(arrivals) + [x]
      ensures k >= 1 ==> if Position(|arrivals|, Period(k, n)) == k then k <= |arrivals| && actions == [Tail(arrivals, k)] else actions == []
      ensures k == 0 ==> actions == []
    {
      if k >= 1 { RedundantFires(k, n, arrivals, x); }
      actions := [];
      count := count + 1;
      if count <= k {
        buffer := buffer + [x];
        if count == k {
          actions := [buffer];
          buffer := [];
        }
      } else if count >= n {
        count := 0;
      }
      arrivals := arrivals + [x];
      assert arrivals[..|arrivals| - 1] == old(arrivals);
    }
  }

  function NextInCycle(c: nat, p: nat): nat { if c + 1 == p then 0 else c + 1 }

  /** How far a cycle of length `p` has come after `j` arrivals. */
  function Position(j: nat, p: nat): (c: nat)
    requires p > 0
    ensures c < p && c <= j
  {
    if j == 0 then 0 else NextInCycle(Position(j - 1, p), p)
  }

  /** How many arrivals one cycle of the trigger takes. */
  function Period(k: nat, n: nat): nat {
    if k < n then n else k + 1
  }

  /** The last `c` arrivals. */
  function Tail(arrivals: Objects, c: nat): Objects
    requires c <= |arrivals|
  {
    arrivals[|arrivals| - c..]
  }

  /** The state when the current cycle has seen `c` arrivals. */
  function InCycle(k: nat, arrivals: Objects, c: nat): Redundant
    requires c <= |arrivals|
  {
    Redundant(c, if c < k then Tail(arrivals, c) else [])
  }

  lemma CycleNext(k: nat, n: nat, init: Objects, x: Object, c: nat)
    requires k >= 1 && c <= |init| && c < Period(k, n)
    ensures var c' := NextInCycle(c, Period(k, n));
            RedundantNext(k, n, InCycle(k, init, c), x)
            == Result(InCycle(k, init + [x], c'), if c + 1 == k then [Tail(init + [x], k)] else [])
  {
    assert Tail(init + [x], c + 1) == Tail(init, c) + [x];
    assert Tail(init + [x], 0) == [];
  }

  /** The run has come to position `c` of its cycle. */
  ghost predicate AtPosition(k: nat, n: nat, arrivals: Objects, c: nat) {
    c <= |arrivals| && RedundantRun(k, n, arrivals) == InCycle(k, arrivals, c)
  }

  lemma AtStart(k: nat, n: nat)
    ensures AtPosition(k, n, [], 0)
  {
  }

  /** The state is determined by how far the current cycle has come. */
  lemma {:induction false} RedundantState(k: nat, n: nat, arrivals: Objects, p: nat)
    requires k >= 1 && p == Period(k, n)
    ensures AtPosition(k, n, arrivals, Position(|arrivals|, p))
    decreases |arrivals|, 1
  {
    if arrivals == [] {
      AtStart(k, n);
    } else {
      StateNext(k, n, arrivals[..|arrivals| - 1], arrivals[|arrivals| - 1], p);
      assert arrivals == arrivals[..|arrivals| - 1] + [arrivals[|arrivals| - 1]];
    }
  }

  lemma {:induction false} StateNext(k: nat, n: nat, init: Objects, x: Object, p: nat)
    requires k >= 1 && p == Period(k, n)
    ensures AtPosition(k, n, init + [x], Position(|init| + 1, p))
    decreases |init| + 1, 0
  {
    RedundantState(k, n, init, p);
    RunInCycle(k, n, init, x, Position(|init|, p), p);
  }

  lemma RunInCycle(k: nat, n: nat, init: Objects, x: Object, c: nat, p: nat)
    requires k >= 1 && c <= |init| && c < p == Period(k, n) && AtPosition(k, n, init, c)
    ensures AtPosition(k, n, init + [x], NextInCycle(c, p))
  {
    CycleNext(k, n, init, x, c);
    assert (init + [x])[..|init|] == init;
  }

  /**
   The arrival that follows `init` fires exactly when it is the `k`-th of its cycle,
   and then with exactly the `k` arrivals of the cycle so far.
   */
  lemma RedundantFires(k: nat, n: nat, init: Objects, x: Object)
    requires k >= 1
    ensures var j := |init| + 1;
            var actions := RedundantNext(k, n, RedundantRun(k, n, init), x).actions;
            if Position(j, Period(k, n)) == k then k <= j && actions == [Tail(init + [x], k)] else actions == []
  {
    RedundantState(k, n, init, Period(k, n));
    CycleNext(k, n, init, x, Position(|init|, Period(k, n)));
  }

  /** The position is the remainder of the number of arrivals. */
  lemma {:induction false} PositionIsRemainder(q: nat, i: nat, r: nat, p: nat)
    requires r < p && q == i * p
    ensures Position(q + r, p) == r
    decreases i, r
  {
    if r > 0 {
      PositionIsRemainder(q, i, r - 1, p);
    } else if i > 0 {
      assert q - p == (i - 1) * p;
      PositionIsRemainder(q - p, i - 1, p - 1, p);
    }
  }

  /** With `1 <= k < n` the cycle is `n` long, so arrivals `i*n+k` fire; otherwise it is longer than `n`. */
  lemma RedundantPeriod(k: nat, n: nat, i: nat, q: nat, init: Objects, x: Object)
    requires 1 <= k && q == i * Period(k, n) && |init| + 1 == q + k
    ensures k <= |init| + 1 && RedundantNext(k, n, RedundantRun(k, n, init), x).actions == [Tail(init + [x], k)]
    ensures Period(k, n) == n <==> k < n
  {
    PositionIsRemainder(q, i, k, Period(k, n));
    RedundantFires(k, n, init, x);
  }

  /** With `k = 0` the trigger never fires. */
  lemma RedundantZero(n: nat, s: Redundant, x: Object)
    ensures RedundantNext(0, n, s, x).actions == []
  {
  }

  // ------------------------------------------------------------- dynamic group

  const CTRL: string := "ctrl"

  /** The part of a key before the first ':'; the whole key if there is none. */
  function Prefix(key: string): string {
    if key == [] || key[0] == ':' then [] else [key[0]] + Prefix(key[1..])
  }

  /** With a ':' in the key, the prefix is what stands before the first one. */
  lemma {:induction false} PrefixBeforeColon(g: string, rest: string)
    requires ':' !in g
    ensures Prefix(g + ":" + rest) == g
  {
    var key := g + ":" + rest;
    if g != [] {
      assert key[0] == g[0] && g[0] in g && key[1..] == g[1..] + ":" + rest;
      PrefixBeforeColon(g[1..], rest);
    }
  }

  /** Without one, it is the whole key. */
  lemma {:induction false} PrefixOfPlain(key: string)
    requires ':' !in key
    ensures Prefix(key) == key
  {
    if key != [] {
      assert key[0] in key;
      PrefixOfPlain(key[1..]);
    }
  }

  /** A key, kept apart from its text. */
  datatype Key = Key(text: string)

  type Groups = map<Key, set<Key>>

  function Group(k: Key): Key { Key(Prefix(k.text)) }

  datatype Dynamic = Dynamic(groups: Groups, seen: set<Key>)

  datatype Reaction = Quiet(next: Dynamic) | Fire(next: Dynamic, groups: Groups)

  function IsControl(k: Key): bool { Group(k) == Key(CTRL) }

  function InGroup(groups: Groups, g: Key): set<Key> {
    if g in groups then groups[g] else {}
  }

  function DynamicNext(control: set<Key>, s: Dynamic, k: Key): Reaction {
    if IsControl(k) then
      var seen := if k in control then s.seen + {k} else s.seen;
      if |seen| == |control| then Fire(Dynamic(map[], {}), s.groups) else Quiet(Dynamic(s.groups, seen))
    else Quiet(Dynamic(s.groups[Group(k) := InGroup(s.groups, Group(k)) + {k}], s.seen))
  }

  class DynamicGroupTrigger {
    const control: set<Key>
    var groups: Groups
    var seen: set<Key>
    ghost var since: set<Key>    // the distinct keys since the last firing

    ghost predicate Valid()
      reads this
    {
      Accounts(control, Dynamic(groups, seen), since)
    }

    constructor (control: set<Key>)
      ensures Valid() && this.control == control && since == {}
    {
      this.control, groups, seen, since := control, map[], {}, {};
    }

    /**
     Fires exactly when the last control key arrives; the actions, one per group,
     partition by prefix the distinct data keys since the last firing.
     */
    method ActionForNewObject(k: Key) returns (fired: bool, actions: Groups)
      requires Valid()
      modifies this
      ensures Valid() && since == if fired then {} else old(since) + {k}
      ensures fired <==> IsControl(k) && forall c :: c in control ==> IsControl(c) && c in old(since) + {k}
      ensures fired ==> Partition(actions, old(since))
      ensures !fired ==> actions == map[]
    {
      ghost var r := Run(Dynamic(groups, seen), since);
      AccountsNext(control, r, k);
      FiresWhenAllSeen(control, r, k);
      FiredGroups(control, r);
      fired, actions := false, map[];
      if IsControl(k) {
        if k in control { seen := seen + {k}; }
        if |seen| == |control| {
          fired, actions := true, groups;
          groups, seen := map[], {};
        }
      } else {
        groups := groups[Group(k) := InGroup(groups, Group(k)) + {k}];
      }
      since := if fired then {} else since + {k};
    }
  }

  /** No group is empty, and each data key is in the group of its prefix. */
  ghost predicate Partition(groups: Groups, keys: set<Key>) {
    && (forall g :: g in groups ==> groups[g] != {})
    && forall x, g {:trigger x in groups[g]} {:trigger g in groups, x in keys} ::
         (g in groups && x in groups[g]) <==> x in keys && !IsControl(x) && Group(x) == g
  }

  /** The groups are the data keys among `since`, by prefix; `seen` are the control keys among them. */
  ghost predicate Accounts(control: set<Key>, s: Dynamic, since: set<Key>) {
    && (forall g :: g in s.groups ==> InGroup(s.groups, g) != {})
    && (forall g, k {:trigger k in InGroup(s.groups, g)} :: k in InGroup(s.groups, g) <==> k in since && Group(k) == g && !IsControl(k))
    && forall k :: k in s.seen <==> k in since && k in control && IsControl(k)
  }

  /** A run, with the distinct keys that arrived since the last firing. */
  datatype Run = Run(state: Dynamic, since: set<Key>)

  function RunNext(control: set<Key>, r: Run, k: Key): Run {
    var reaction := DynamicNext(control, r.state, k);
    Run(reaction.next, if reaction.Fire? then {} else r.since + {k})
  }

  function DynamicRun(control: set<Key>, arrivals: seq<Key>): Run {
    if arrivals == [] then Run(Dynamic(map[], {}), {})
    else RunNext(control, DynamicRun(control, arrivals[..|arrivals| - 1]), arrivals[|arrivals| - 1])
  }

  lemma AccountsNext(control: set<Key>, r: Run, k: Key)
    requires Accounts(control, r.state, r.since)
    ensures var r' := RunNext(control, r, k); Accounts(control, r'.state, r'.since)
  {
    var r' := RunNext(control, r, k);
    forall g, x ensures x in InGroup(r'.state.groups, g) <==> x in r'.since && Group(x) == g && !IsControl(x) {
      assert x in InGroup(r.state.groups, g) <==> x in r.since && Group(x) == g && !IsControl(x);
    }
    forall g | g in r'.state.groups ensures InGroup(r'.state.groups, g) != {} {
      if g in r.state.groups { assert InGroup(r.state.groups, g) != {}; }
    }
  }

  /**
   In every run, an arrival fires exactly when it is a control key and all control keys
   have arrived since the last firing; and then the actions partition, by prefix,
   exactly the distinct data keys that arrived since then.
   */
  lemma {:induction false} DynamicAccounts(control: set<Key>, arrivals: seq<Key>, k: Key)
    ensures var r := DynamicRun(control, arrivals);
            var reaction := DynamicNext(control, r.state, k);
            && Accounts(control, r.state, r.since)
            && (reaction.Fire? <==> IsControl(k) && forall c :: c in control ==> IsControl(c) && c in r.since + {k})
            && (reaction.Fire? ==> Partition(reaction.groups, r.since))
  {
    if arrivals != [] {
      var init, l := arrivals[..|arrivals| - 1], arrivals[|arrivals| - 1];
      DynamicAccounts(control, init, l);
      AccountsNext(control, DynamicRun(control, init), l);
    }
    var r := DynamicRun(control, arrivals);
    FiresWhenAllSeen(control, r, k);
    FiredGroups(control, r);
  }

  lemma FiresWhenAllSeen(control: set<Key>, r: Run, k: Key)
    requires Accounts(control, r.state, r.since)
    ensures DynamicNext(control, r.state, k).Fire? <==> IsControl(k) && forall c :: c in control ==> IsControl(c) && c in r.since + {k}
  {
    if IsControl(k) {
      var seen := if k in control then r.state.seen + {k} else r.state.seen;
      forall c ensures c in seen <==> c in r.since + {k} && c in control && IsControl(c) {}
      SubsetSize(seen, control);
      assert seen == control <==> forall c :: c in control ==> c in seen;
    }
  }

  lemma FiredGroups(control: set<Key>, r: Run)
    requires Accounts(control, r.state, r.since)
    ensures Partition(r.state.groups, r.since)
  {
    forall g | g in r.state.groups ensures r.state.groups[g] != {} { assert InGroup(r.state.groups, g) != {}; }
    forall x, g ensures (g in r.state.groups && x in r.state.groups[g]) <==> x in r.since && !IsControl(x) && Group(x) == g {
      assert x in InGroup(r.state.groups, g) <==> x in r.since && Group(x) == g && !IsControl(x);
    }
  }
}
