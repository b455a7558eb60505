/**
 The distributed trigger protocol: any number of worker nodes and a coordinator,
 each with its own copy of every BySet trigger of a bucket, and a FIFO channel in
 each direction between every node and the coordinator.  Objects of any session
 and any key may appear anywhere at any time.

 The protocol is related step by step to its view from one trigger and one
 session (`TriggerInstance`), which shows that the others do not interfere.
 */
module TriggerProtocol {

  import opened BySetTrigger
  import I = TriggerInstance

  /** A bucket's triggers as one participant holds them, in the bucket's order. */
  type Copy = seq<Prepared>

  /** `KeyNotifyRequest`: the new object and the triggers the sender has already fired. */
  datatype Notify = Notify(session: Session, key: Key, active: set<nat>)

  /** `UpdateCoordMsg` of type 1: forget the session in these triggers. */
  datatype ClearMsg = ClearMsg(session: Session, triggers: set<nat>)

  /** A log entry: these triggers fired for this session. */
  datatype Fired = Fired(triggers: set<nat>, session: Session)

  datatype Sys = Sys(
    keySets: seq<set<Key>>,
    nodes: seq<Copy>,
    coord: Copy,
    up: seq<seq<Notify>>,
    down: seq<seq<ClearMsg>>,
    known: set<nat>,
    log: seq<Fired>)

  datatype Event = Put(node: nat, session: Session, key: Key) | Deliver(node: nat) | Obey(node: nat)

  function Fresh(keySets: seq<set<Key>>, nodes: nat): Sys {
    var blank: Copy := seq(|keySets|, _ => map[]);
    Sys(keySets, seq(nodes, _ => blank), blank, seq(nodes, _ => []), seq(nodes, _ => []), {}, [])
  }

  predicate WellFormed(s: Sys) {
    && |s.up| == |s.down| == |s.nodes| && |s.coord| == |s.keySets|
    && forall i :: 0 <= i < |s.nodes| ==> |s.nodes[i]| == |s.keySets|
  }

  predicate Enabled(s: Sys, e: Event) {
    WellFormed(s) && e.node < |s.nodes| &&
    match e
    case Put(_, _, _) => true
    case Deliver(i) => s.up[i] != []
    case Obey(i) => s.down[i] != []
  }

  /** The copy after an object arrived, trigger by trigger. */
  function Arrived(keySets: seq<set<Key>>, c: Copy, session: Session, key: Key): Copy
    requires |c| == |keySets|
  {
    seq(|c|, j requires 0 <= j < |c| => Arrive(keySets[j], c[j], session, key).0)
  }

  /** The triggers that fire on the arrival. */
  function Firing(keySets: seq<set<Key>>, c: Copy, session: Session, key: Key): set<nat>
    requires |c| == |keySets|
  {
    set j: nat | j < |c| && Arrive(keySets[j], c[j], session, key).1
  }

  function Forgotten(c: Copy, msg: ClearMsg): Copy {
    seq(|c|, j requires 0 <= j < |c| => if j in msg.triggers then c[j] - {msg.session} else c[j])
  }

  function Broadcast(down: seq<seq<ClearMsg>>, known: set<nat>, msg: ClearMsg): seq<seq<ClearMsg>> {
    seq(|down|, i requires 0 <= i < |down| => if i in known then down[i] + [msg] else down[i])
  }

  function Step(s: Sys, e: Event): Sys
    requires Enabled(s, e)
  {
    match e
    case Put(i, session, key) =>
      var active := Firing(s.keySets, s.nodes[i], session, key);
      s.(nodes := s.nodes[i := Arrived(s.keySets, s.nodes[i], session, key)],
         up := s.up[i := s.up[i] + [Notify(session, key, active)]],
         log := s.log + [Fired(active, session)])
    case Deliver(i) =>
      var msg := s.up[i][0];
      var fire := Firing(s.keySets, s.coord, msg.session, msg.key) - msg.active;
      s.(coord := Arrived(s.keySets, s.coord, msg.session, msg.key),
         up := s.up[i := s.up[i][1..]],
         known := s.known + {i},
         down := if fire == {} then s.down else Broadcast(s.down, s.known + {i}, ClearMsg(msg.session, fire)),
         log := s.log + [Fired(fire, msg.session)])
    case Obey(i) =>
      s.(nodes := s.nodes[i := Forgotten(s.nodes[i], s.down[i][0])], down := s.down[i := s.down[i][1..]])
  }

  /** The state after a schedule; an event that is not possible is skipped. */
  function Exec(s: Sys, events: seq<Event>): Sys
    decreases |events|
  {
    if events == [] then s
    else
      var before := Exec(s, events[..|events| - 1]);
      if Enabled(before, events[|events| - 1]) then Step(before, events[|events| - 1]) else before
  }

  /** How often trigger `j` fired for the session. */
  function FireCount(log: seq<Fired>, j: nat, session: Session): nat {
    if log == [] then 0
    else FireCount(log[..|log| - 1], j, session)
         + (if log[|log| - 1].session == session && j in log[|log| - 1].triggers then 1 else 0)
  }

  // -------------------------------------------- one trigger and one session

  function NotesOf(m: Notify, keys: set<Key>, j: nat, session: Session): seq<I.Note> {
    if m.session == session && m.key in keys then [I.Note(m.key, j in m.active)] else []
  }

  /** The notifications of a channel that concern the trigger and the session. */
  function Notes(q: seq<Notify>, keys: set<Key>, j: nat, session: Session): seq<I.Note> {
    if q == [] then [] else NotesOf(q[0], keys, j, session) + Notes(q[1..], keys, j, session)
  }

  function Clears(q: seq<ClearMsg>, j: nat, session: Session): nat {
    if q == [] then 0
    else (if q[0].session == session && j in q[0].triggers then 1 else 0) + Clears(q[1..], j, session)
  }

  lemma {:induction false} NotesSnoc(q: seq<Notify>, m: Notify, keys: set<Key>, j: nat, session: Session)
    ensures Notes(q + [m], keys, j, session) == Notes(q, keys, j, session) + NotesOf(m, keys, j, session)
  {
    if q == [] {
      assert [m][1..] == [];
    } else {
      assert (q + [m])[1..] == q[1..] + [m];
      NotesSnoc(q[1..], m, keys, j, session);
    }
  }

  lemma {:induction false} ClearsSnoc(q: seq<ClearMsg>, m: ClearMsg, j: nat, session: Session)
    ensures Clears(q + [m], j, session) == Clears(q, j, session) + (if m.session == session && j in m.triggers then 1 else 0)
  {
    if q == [] {
      assert [m][1..] == [];
    } else {
      assert (q + [m])[1..] == q[1..] + [m];
      ClearsSnoc(q[1..], m, j, session);
    }
  }

  /** Node `i` as trigger `j` and the session see it. */
  ghost predicate NodeMatches(s: Sys, a: I.Instance, j: nat, session: Session, i: nat)
    requires WellFormed(s) && j < |s.keySets| && i < |s.nodes| == |a.nodes|
  {
    a.nodes[i] == I.Node(Got(s.nodes[i][j], session), Notes(s.up[i], s.keySets[j], j, session), Clears(s.down[i], j, session))
  }

  /** The instance is the view of the system from trigger `j` and the session. */
  ghost predicate Matches(s: Sys, a: I.Instance, j: nat, session: Session) {
    && WellFormed(s) && j < |s.keySets| && |a.nodes| == |s.nodes|
    && a.keys == s.keySets[j]
    && a.got == Got(s.coord[j], session)
    && a.known == s.known
    && a.fires == FireCount(s.log, j, session)
    && forall i :: 0 <= i < |s.nodes| ==> NodeMatches(s, a, j, session, i)
  }

  /** What an arrival does to one trigger, as one session sees it. */
  lemma ArriveView(keys: set<Key>, m: Prepared, session': Session, key: Key, session: Session)
    ensures var (m', fired) := Arrive(keys, m, session', key);
            var got := Got(m, session) + {key};
            if session' == session && key in keys
            then fired == (|got| == |keys|) && Got(m', session) == if fired then {} else got
            else Got(m', session) == Got(m, session)
    ensures key !in keys ==> !Arrive(keys, m, session', key).1
  {
  }

  lemma LogSnoc(log: seq<Fired>, f: Fired, j: nat, session: Session)
    ensures FireCount(log + [f], j, session)
         == FireCount(log, j, session) + (if f.session == session && j in f.triggers then 1 else 0)
  {
    assert (log + [f])[..|log|] == log;
  }

  /** The move of the instance that goes with a step of the system. */
  function View(s: Sys, j: nat, session: Session, e: Event): I.Move
    requires Enabled(s, e) && j < |s.keySets|
  {
    match e
    case Put(i, session', key) => if session' == session && key in s.keySets[j] then I.Made(i, key) else I.Nothing
    case Deliver(i) =>
      if s.up[i][0].session == session && s.up[i][0].key in s.keySets[j] then I.Replayed(i) else I.Heard(i)
    case Obey(i) => if s.down[i][0].session == session && j in s.down[i][0].triggers then I.Cleared(i) else I.Nothing
  }

  lemma ViewPossible(s: Sys, a: I.Instance, j: nat, session: Session, e: Event)
    requires Matches(s, a, j, session) && Enabled(s, e)
    ensures I.Possible(a, View(s, j, session, e))
  {
    assert NodeMatches(s, a, j, session, e.node);
  }

  lemma PutNode(s: Sys, a: I.Instance, j: nat, session: Session, e: Event, i: nat)
    requires Matches(s, a, j, session) && Enabled(s, e) && e.Put? && i < |s.nodes|
    ensures NodeMatches(Step(s, e), I.Apply(a, View(s, j, session, e)), j, session, i)
  {
    assert NodeMatches(s, a, j, session, i);
    if i == e.node {
      ArriveView(s.keySets[j], s.nodes[i][j], e.session, e.key, session);
      NotesSnoc(s.up[i], Notify(e.session, e.key, Firing(s.keySets, s.nodes[i], e.session, e.key)), s.keySets[j], j, session);
    }
  }

  lemma PutMatches(s: Sys, a: I.Instance, j: nat, session: Session, e: Event)
    requires Matches(s, a, j, session) && Enabled(s, e) && e.Put?
    ensures Matches(Step(s, e), I.Apply(a, View(s, j, session, e)), j, session)
  {
    LogSnoc(s.log, Fired(Firing(s.keySets, s.nodes[e.node], e.session, e.key), e.session), j, session);
    assert NodeMatches(s, a, j, session, e.node);
    ArriveView(s.keySets[j], s.nodes[e.node][j], e.session, e.key, session);
    forall i | 0 <= i < |s.nodes| ensures NodeMatches(Step(s, e), I.Apply(a, View(s, j, session, e)), j, session, i) {
      PutNode(s, a, j, session, e, i);
    }
  }

  lemma DeliverNode(s: Sys, a: I.Instance, j: nat, session: Session, e: Event, i: nat)
    requires Matches(s, a, j, session) && Enabled(s, e) && e.Deliver? && i < |s.nodes|
    requires I.Possible(a, View(s, j, session, e))
    ensures NodeMatches(Step(s, e), I.Apply(a, View(s, j, session, e)), j, session, i)
  {
    var m := s.up[e.node][0];
    assert NodeMatches(s, a, j, session, i) && NodeMatches(s, a, j, session, e.node);
    ArriveView(s.keySets[j], s.coord[j], m.session, m.key, session);
    ClearsSnoc(s.down[i], ClearMsg(m.session, Firing(s.keySets, s.coord, m.session, m.key) - m.active), j, session);
  }

  lemma DeliverMatches(s: Sys, a: I.Instance, j: nat, session: Session, e: Event)
    requires Matches(s, a, j, session) && Enabled(s, e) && e.Deliver?
    requires I.Possible(a, View(s, j, session, e))
    ensures Matches(Step(s, e), I.Apply(a, View(s, j, session, e)), j, session)
  {
    var m := s.up[e.node][0];
    LogSnoc(s.log, Fired(Firing(s.keySets, s.coord, m.session, m.key) - m.active, m.session), j, session);
    ArriveView(s.keySets[j], s.coord[j], m.session, m.key, session);
    assert NodeMatches(s, a, j, session, e.node);
    forall i | 0 <= i < |s.nodes| ensures NodeMatches(Step(s, e), I.Apply(a, View(s, j, session, e)), j, session, i) {
      DeliverNode(s, a, j, session, e, i);
    }
  }

  lemma ObeyMatches(s: Sys, a: I.Instance, j: nat, session: Session, e: Event)
    requires Matches(s, a, j, session) && Enabled(s, e) && e.Obey?
    requires I.Possible(a, View(s, j, session, e))
    ensures Matches(Step(s, e), I.Apply(a, View(s, j, session, e)), j, session)
  {
    assert NodeMatches(s, a, j, session, e.node);
    forall i | 0 <= i < |s.nodes| ensures NodeMatches(Step(s, e), I.Apply(a, View(s, j, session, e)), j, session, i) {
      assert NodeMatches(s, a, j, session, i);
    }
  }

  /** The system and the instance move together, whatever the other triggers and sessions do. */
  lemma ViewMatches(s: Sys, a: I.Instance, j: nat, session: Session, e: Event)
    requires Matches(s, a, j, session) && Enabled(s, e)
    ensures I.Possible(a, View(s, j, session, e))
    ensures Matches(Step(s, e), I.Apply(a, View(s, j, session, e)), j, session)
  {
    ViewPossible(s, a, j, session, e);
    match e
    case Put(_, _, _) => PutMatches(s, a, j, session, e);
    case Deliver(_) => DeliverMatches(s, a, j, session, e);
    case Obey(_) => ObeyMatches(s, a, j, session, e);
  }

  // ------------------------------------------------------------ whole runs

  predicate Concerns(e: Event, nodes: nat, keys: set<Key>, session: Session) {
    e.Put? && e.node < nodes && e.session == session && e.key in keys
  }

  /** Each key of the set is produced at most once in the session. */
  ghost predicate ProducedOnce(events: seq<Event>, nodes: nat, keys: set<Key>, session: Session) {
    forall p, q :: 0 <= p < q < |events| && Concerns(events[p], nodes, keys, session) && Concerns(events[q], nodes, keys, session)
      ==> events[p].key != events[q].key
  }

  ghost function ProducedKeys(events: seq<Event>, nodes: nat, keys: set<Key>, session: Session): set<Key> {
    set p | 0 <= p < |events| && Concerns(events[p], nodes, keys, session) :: events[p].key
  }

  lemma FreshMatches(keySets: seq<set<Key>>, nodes: nat, j: nat, session: Session)
    requires j < |keySets|
    ensures Matches(Fresh(keySets, nodes), I.Fresh(keySets[j], nodes), j, session)
  {
    forall i | 0 <= i < nodes ensures NodeMatches(Fresh(keySets, nodes), I.Fresh(keySets[j], nodes), j, session, i) {}
  }

  lemma ViewMade(s: Sys, a: I.Instance, j: nat, session: Session, e: Event)
    requires Enabled(s, e) && j < |s.keySets| && I.Possible(a, View(s, j, session, e))
    ensures I.Apply(a, View(s, j, session, e)).made.Keys
         == a.made.Keys + (if Concerns(e, |s.nodes|, s.keySets[j], session) then {e.key} else {})
    ensures Step(s, e).keySets == s.keySets && |Step(s, e).nodes| == |s.nodes|
  {
  }

  lemma ProducedSnoc(events: seq<Event>, nodes: nat, keys: set<Key>, session: Session)
    requires events != [] && ProducedOnce(events, nodes, keys, session)
    ensures var init, e := events[..|events| - 1], events[|events| - 1];
            && ProducedOnce(init, nodes, keys, session)
            && ProducedKeys(events, nodes, keys, session)
                 == ProducedKeys(init, nodes, keys, session) + (if Concerns(e, nodes, keys, session) then {e.key} else {})
            && (Concerns(e, nodes, keys, session) ==> e.key !in ProducedKeys(init, nodes, keys, session))
  {
  }

  lemma Advance(s: Sys, a: I.Instance, j: nat, session: Session, e: Event) returns (s': Sys, b: I.Instance)
    requires Matches(s, a, j, session) && Enabled(s, e) && I.Inv(a)
    requires Concerns(e, |s.nodes|, s.keySets[j], session) ==> e.key !in a.made
    ensures s' == Step(s, e) && s'.keySets == s.keySets && |s'.nodes| == |s.nodes|
    ensures Matches(s', b, j, session) && I.Inv(b)
    ensures b.made.Keys == a.made.Keys + (if Concerns(e, |s.nodes|, s.keySets[j], session) then {e.key} else {})
  {
    ViewMatches(s, a, j, session, e);
    ViewMade(s, a, j, session, e);
    var m := View(s, j, session, e);
    I.ApplyInv(a, m);
    s', b := Step(s, e), I.Apply(a, m);
  }

  /** Every run that produces each key at most once has an instance that matches it and keeps the instance invariant. */
  lemma {:induction false} RunMatches(keySets: seq<set<Key>>, nodes: nat, events: seq<Event>, j: nat, session: Session)
    returns (s: Sys, a: I.Instance)
    requires j < |keySets| && keySets[j] != {}
    requires ProducedOnce(events, nodes, keySets[j], session)
    ensures s == Exec(Fresh(keySets, nodes), events) && s.keySets == keySets && |s.nodes| == nodes
    ensures Matches(s, a, j, session) && I.Inv(a)
    ensures a.made.Keys == ProducedKeys(events, nodes, keySets[j], session)
    decreases |events|
  {
    if events == [] {
      s, a := Fresh(keySets, nodes), I.Fresh(keySets[j], nodes);
      I.FreshInv(keySets[j], nodes);
      FreshMatches(keySets, nodes, j, session);
    } else {
      var e := events[|events| - 1];
      ProducedSnoc(events, nodes, keySets[j], session);
      s, a := RunMatches(keySets, nodes, events[..|events| - 1], j, session);
      if Enabled(s, e) { s, a := Advance(s, a, j, session, e); }
    }
  }

  /**
   Exactly-once firing.  For any number of nodes, any placement of the keys and any
   interleaving that respects the channels' order: if each key of the trigger's
   non-empty set is produced at most once in a session, the trigger fires at most
   once for that session; once all keys were produced and the notifications have
   drained it has fired exactly once and the coordinator keeps nothing; and once
   the clears have drained too, no node keeps anything either.
   */
  lemma ExactlyOnce(keySets: seq<set<Key>>, nodes: nat, events: seq<Event>, j: nat, session: Session)
    requires j < |keySets| && keySets[j] != {}
    requires ProducedOnce(events, nodes, keySets[j], session)
    ensures var s := Exec(Fresh(keySets, nodes), events);
            var all := ProducedKeys(events, nodes, keySets[j], session) == keySets[j];
            && WellFormed(s) && |s.keySets| == |keySets|
            && FireCount(s.log, j, session) <= 1
            && (all && (forall i :: 0 <= i < |s.up| ==> s.up[i] == []) ==>
                  FireCount(s.log, j, session) == 1 && Got(s.coord[j], session) == {})
            && (all && (forall i :: 0 <= i < |s.up| ==> s.up[i] == []) && (forall i :: 0 <= i < |s.down| ==> s.down[i] == []) ==>
                  forall i :: 0 <= i < |s.nodes| ==> Got(s.nodes[i][j], session) == {})
  {
    var s, a := RunMatches(keySets, nodes, events, j, session);
    I.Outcome(a);
    forall i | 0 <= i < |s.nodes|
      ensures a.nodes[i].got == Got(s.nodes[i][j], session)
      ensures s.up[i] == [] ==> a.nodes[i].up == []
      ensures s.down[i] == [] ==> a.nodes[i].clears == 0
    {
      assert NodeMatches(s, a, j, session, i);
    }
  }

  // ------------------------------------------------- with exactly the key set

  /** A participant prepares only keys of the trigger's set. */
  ghost predicate Within(keySets: seq<set<Key>>, c: Copy) {
    |c| == |keySets| && forall j, session {:trigger Got(c[j], session)} :: 0 <= j < |c| ==> Got(c[j], session) <= keySets[j]
  }

  ghost predicate AllWithin(s: Sys) {
    && WellFormed(s) && Within(s.keySets, s.coord)
    && forall i {:trigger s.nodes[i]} :: 0 <= i < |s.nodes| ==> Within(s.keySets, s.nodes[i])
  }

  lemma ArrivedWithin(keySets: seq<set<Key>>, c: Copy, session: Session, key: Key)
    requires Within(keySets, c)
    ensures Within(keySets, Arrived(keySets, c, session, key))
  {
    var d := Arrived(keySets, c, session, key);
    forall j, other | 0 <= j < |d| ensures Got(d[j], other) <= keySets[j] {
      assert Got(c[j], other) <= keySets[j] && Got(c[j], session) <= keySets[j];
    }
  }

  lemma ForgottenWithin(keySets: seq<set<Key>>, c: Copy, msg: ClearMsg)
    requires Within(keySets, c)
    ensures Within(keySets, Forgotten(c, msg))
  {
    var d := Forgotten(c, msg);
    forall j, other | 0 <= j < |d| ensures Got(d[j], other) <= keySets[j] { assert Got(c[j], other) <= keySets[j]; }
  }

  lemma StepWithin(s: Sys, e: Event)
    requires AllWithin(s) && Enabled(s, e)
    ensures AllWithin(Step(s, e)) && Step(s, e).keySets == s.keySets
  {
    match e
    case Put(i, session, key) => ArrivedWithin(s.keySets, s.nodes[i], session, key);
    case Deliver(i) => ArrivedWithin(s.keySets, s.coord, s.up[i][0].session, s.up[i][0].key);
    case Obey(i) => ForgottenWithin(s.keySets, s.nodes[i], s.down[i][0]);
  }

  lemma {:induction false} RunWithin(keySets: seq<set<Key>>, nodes: nat, events: seq<Event>)
    ensures var s := Exec(Fresh(keySets, nodes), events); AllWithin(s) && s.keySets == keySets
  {
    if events != [] {
      RunWithin(keySets, nodes, events[..|events| - 1]);
      var s := Exec(Fresh(keySets, nodes), events[..|events| - 1]);
      if Enabled(s, events[|events| - 1]) { StepWithin(s, events[|events| - 1]); }
    }
  }

  /**
   In every run, an arrival fires a trigger at a node or at the coordinator exactly
   when it completes the trigger's key set there, so the keys an action carries are
   all prepared.
   */
  lemma FiresWithTheKeySet(keySets: seq<set<Key>>, nodes: nat, events: seq<Event>, c: Copy, session: Session, key: Key, j: nat)
    requires var s := Exec(Fresh(keySets, nodes), events); c == s.coord || c in s.nodes
    requires j < |keySets|
    ensures |c| == |keySets|
    ensures j in Firing(keySets, c, session, key) <==> key in keySets[j] && Got(c[j], session) + {key} == keySets[j]
  {
    RunWithin(keySets, nodes, events);
    FiresOnWholeSet(keySets[j], c[j], session, key);
  }

  /** A node that has nothing prepared. */
  ghost predicate Blank(s: Sys, session: Session, key: Key) {
    WellFormed(s) && s.keySets == [{key}] && |s.nodes| == 1 && Got(s.nodes[0][0], session) == {}
  }

  /** With one key in the set, every production fires and leaves nothing behind. */
  lemma SingleKeyFires(s: Sys, session: Session, key: Key)
    requires Blank(s, session, key)
    ensures Enabled(s, Put(0, session, key)) && Blank(Step(s, Put(0, session, key)), session, key)
    ensures FireCount(Step(s, Put(0, session, key)).log, 0, session) == FireCount(s.log, 0, session) + 1
  {
    var s' := Step(s, Put(0, session, key));
    assert Got(s.nodes[0][0], session) + {key} == {key} && |{key}| == 1;
    assert Arrive(s.keySets[0], s.nodes[0][0], session, key).1;
    LogSnoc(s.log, s'.log[|s.log|], 0, session);
  }

  /** Producing a key twice breaks the promise: with one key in the set, two productions fire twice. */
  lemma TwiceProducedFiresTwice(session: Session, key: Key)
    ensures var s := Exec(Fresh([{key}], 1), [Put(0, session, key), Put(0, session, key)]);
            FireCount(s.log, 0, session) == 2
  {
    var s0 := Fresh([{key}], 1);
    var e := Put(0, session, key);
    assert Blank(s0, session, key);
    SingleKeyFires(s0, session, key);
    SingleKeyFires(Step(s0, e), session, key);
    TwoEvents(s0, e, e);
  }

  lemma TwoEvents(s: Sys, d: Event, e: Event)
    requires Enabled(s, d) && Enabled(Step(s, d), e)
    ensures Exec(s, [d, e]) == Step(Step(s, d), e)
  {
    assert [d, e][..1] == [d] && [d][..0] == [];
    assert Exec(s, [d]) == Step(s, d);
  }
}
