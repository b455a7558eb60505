/**
 The two-level firing protocol seen from one BySet trigger and one session.

 Every node keeps its own set of prepared keys, fires when the set is complete,
 and tells the coordinator about each new key and whether it fired.  The
 coordinator replays the key, fires when its own set completes unless the node
 already did, and then tells every node it knows of to forget the session.
 */
module TriggerInstance {

  import opened Sets

  type Key = string

  /** A notification: the key, and whether the sender fired on it. */
  datatype Note = Note(key: Key, active: bool)

  /**
   One node: its prepared keys, its notifications still under way (oldest first)
   and the number of clears still under way to it.
   */
  datatype Node = Node(got: set<Key>, up: seq<Note>, clears: nat)

  /**
   The instance.  `known` are the nodes the coordinator has heard from; the last
   four components are history: where each key was produced, which keys the
   coordinator has replayed, which node fired (or -1), and whether the
   coordinator did.
   */
  datatype Instance = Instance(
    keys: set<Key>,
    nodes: seq<Node>,
    got: set<Key>,
    known: set<nat>,
    fires: nat,
    made: map<Key, nat>,
    seen: set<Key>,
    winner: int,
    coordFired: bool)

  function Fresh(keys: set<Key>, nodes: nat): Instance {
    Instance(keys, seq(nodes, _ => Node({}, [], 0)), {}, {}, 0, map[], {}, -1, false)
  }

  /** A key of the trigger's set arrives at node `i`. */
  function Produce(a: Instance, i: nat, k: Key): Instance
    requires i < |a.nodes|
  {
    var got := a.nodes[i].got + {k};
    var fired := |got| == |a.keys|;
    var n := Node(if fired then {} else got, a.nodes[i].up + [Note(k, fired)], a.nodes[i].clears);
    a.(nodes := a.nodes[i := n], made := a.made[k := i],
       fires := a.fires + (if fired then 1 else 0), winner := if fired then i else a.winner)
  }

  /** The coordinator learns that node `i` takes part in the bucket. */
  function Know(a: Instance, i: nat): Instance {
    a.(known := a.known + {i})
  }

  function Broadcast(nodes: seq<Node>, known: set<nat>): seq<Node> {
    seq(|nodes|, i requires 0 <= i < |nodes| => if i in known then nodes[i].(clears := nodes[i].clears + 1) else nodes[i])
  }

  /** The coordinator takes the oldest notification of node `i`. */
  function Replay(a: Instance, i: nat): Instance
    requires i < |a.nodes| && a.nodes[i].up != []
  {
    var note := a.nodes[i].up[0];
    var got := a.got + {note.key};
    var complete := |got| == |a.keys|;
    var fire := complete && !note.active;
    var nodes := a.nodes[i := a.nodes[i].(up := a.nodes[i].up[1..])];
    var known := a.known + {i};
    a.(nodes := if fire then Broadcast(nodes, known) else nodes,
       got := if complete then {} else got,
       known := known,
       fires := a.fires + (if fire then 1 else 0),
       seen := a.seen + {note.key},
       coordFired := a.coordFired || fire)
  }

  /** Node `i` obeys a clear. */
  function Clear(a: Instance, i: nat): Instance
    requires i < |a.nodes| && a.nodes[i].clears > 0
  {
    a.(nodes := a.nodes[i := a.nodes[i].(got := {}, clears := a.nodes[i].clears - 1)])
  }

  /** What can happen to an instance. */
  datatype Move = Nothing | Made(i: nat, k: Key) | Heard(i: nat) | Replayed(i: nat) | Cleared(i: nat)

  predicate Possible(a: Instance, m: Move) {
    match m
    case Nothing => true
    case Made(i, k) => i < |a.nodes| && k in a.keys
    case Heard(i) => true
    case Replayed(i) => i < |a.nodes| && a.nodes[i].up != []
    case Cleared(i) => i < |a.nodes| && a.nodes[i].clears > 0
  }

  function Apply(a: Instance, m: Move): Instance
    requires Possible(a, m)
  {
    match m
    case Nothing => a
    case Made(i, k) => Produce(a, i, k)
    case Heard(i) => Know(a, i)
    case Replayed(i) => Replay(a, i)
    case Cleared(i) => Clear(a, i)
  }

  // ---------------------------------------------------------------- invariant

  /** The keys produced at a node. */
  ghost function MadeAt(a: Instance, i: nat): set<Key> {
    set k | k in a.made && a.made[k] == i
  }

  /** Notifications under way speak of the node's own keys, each once, and the last is active iff the node fired. */
  ghost predicate QueueOk(a: Instance, i: nat)
    requires i < |a.nodes|
  {
    var up := a.nodes[i].up;
    && (forall p :: 0 <= p < |up| ==>
          && up[p].key in a.made && a.made[up[p].key] == i && up[p].key !in a.seen
          && (up[p].active <==> a.winner == i && p == |up| - 1))
    && (forall p, q :: 0 <= p < q < |up| ==> up[p].key != up[q].key)
  }

  /** A node shows the keys made at it until it fires or obeys a clear, which comes only from a firing coordinator. */
  ghost predicate NodeOk(a: Instance, i: nat)
    requires i < |a.nodes|
  {
    && (a.winner == i <==> MadeAt(a, i) == a.keys)
    && (a.winner == i ==> a.nodes[i].got == {})
    && (a.winner != i && !a.coordFired ==> a.nodes[i].got == MadeAt(a, i))
    && (a.coordFired ==> a.nodes[i].got == {} || (a.nodes[i].got == MadeAt(a, i) && a.nodes[i].clears > 0))
    && (!a.coordFired ==> a.nodes[i].clears == 0)
  }

  /** A produced key is either still on its way or has been replayed. */
  ghost predicate KeyOk(a: Instance, k: Key)
    requires k in a.made
  {
    && k in a.keys && a.made[k] < |a.nodes|
    && (k in a.seen ==> a.made[k] in a.known)
    && (k !in a.seen ==> exists p :: 0 <= p < |a.nodes[a.made[k]].up| && a.nodes[a.made[k]].up[p].key == k)
  }

  ghost predicate Inv(a: Instance) {
    && a.keys != {}
    && a.seen <= a.made.Keys
    && -1 <= a.winner < |a.nodes|
    && a.got == (if a.seen == a.keys then {} else a.seen)
    && (a.coordFired <==> a.seen == a.keys && a.winner == -1)
    && a.fires == (if a.winner >= 0 then 1 else 0) + (if a.coordFired then 1 else 0)
    && (forall i :: 0 <= i < |a.nodes| ==> QueueOk(a, i))
    && (forall i :: 0 <= i < |a.nodes| ==> NodeOk(a, i))
    && (forall k :: k in a.made ==> KeyOk(a, k))
  }

  lemma FreshInv(keys: set<Key>, nodes: nat)
    requires keys != {}
    ensures Inv(Fresh(keys, nodes))
  {
    var a := Fresh(keys, nodes);
    forall i | 0 <= i < |a.nodes| ensures NodeOk(a, i) { assert MadeAt(a, i) == {}; }
  }

  lemma KnowInv(a: Instance, i: nat)
    requires Inv(a)
    ensures Inv(Know(a, i))
  {
    var b := Know(a, i);
    forall j | 0 <= j < |b.nodes| ensures QueueOk(b, j) && NodeOk(b, j) { assert QueueOk(a, j) && NodeOk(a, j) && MadeAt(b, j) == MadeAt(a, j); }
    forall k | k in b.made ensures KeyOk(b, k) { assert KeyOk(a, k); }
  }

  /** Nobody has fired while some key of the set has not been produced. */
  lemma NotYetFired(a: Instance, k: Key)
    requires Inv(a) && k in a.keys && k !in a.made
    ensures a.winner == -1 && !a.coordFired
  {
    forall i | 0 <= i < |a.nodes| ensures MadeAt(a, i) != a.keys { assert k !in MadeAt(a, i); }
    assert a.winner >= 0 ==> NodeOk(a, a.winner);
  }

  lemma ProduceKeys(a: Instance, i: nat, k: Key, x: Key)
    requires Inv(a) && i < |a.nodes| && k in a.keys && k !in a.made && (x in a.made || x == k)
    ensures KeyOk(Produce(a, i, k), x)
  {
    var b := Produce(a, i, k);
    if x == k {
      assert b.nodes[i].up[|a.nodes[i].up|].key == k;
    } else {
      assert KeyOk(a, x);
      if x !in a.seen {
        var p :| 0 <= p < |a.nodes[a.made[x]].up| && a.nodes[a.made[x]].up[p].key == x;
        assert b.nodes[b.made[x]].up[p].key == x;
      }
    }
  }

  lemma ProduceHere(a: Instance, i: nat, k: Key)
    requires Inv(a) && i < |a.nodes| && k in a.keys && k !in a.made
    requires a.winner == -1 && !a.coordFired
    ensures QueueOk(Produce(a, i, k), i) && NodeOk(Produce(a, i, k), i)
    ensures Produce(a, i, k).winner == i || Produce(a, i, k).winner == -1
  {
    var b := Produce(a, i, k);
    assert QueueOk(a, i) && NodeOk(a, i);
    assert MadeAt(b, i) == MadeAt(a, i) + {k};
    assert forall x :: x in MadeAt(a, i) ==> KeyOk(a, x);
    SubsetSize(MadeAt(b, i), a.keys);
  }

  lemma ProduceElsewhere(a: Instance, i: nat, k: Key, j: nat)
    requires Inv(a) && i < |a.nodes| && k in a.keys && k !in a.made && j < |a.nodes| && j != i
    requires a.winner == -1 && !a.coordFired
    ensures QueueOk(Produce(a, i, k), j) && NodeOk(Produce(a, i, k), j)
  {
    var b := Produce(a, i, k);
    assert QueueOk(a, j) && NodeOk(a, j);
    assert MadeAt(b, j) == MadeAt(a, j);
    assert k !in MadeAt(b, j);
  }

  lemma ProduceInv(a: Instance, i: nat, k: Key)
    requires Inv(a) && i < |a.nodes| && k in a.keys && k !in a.made
    ensures Inv(Produce(a, i, k))
  {
    NotYetFired(a, k);
    var b := Produce(a, i, k);
    forall j | 0 <= j < |b.nodes| ensures QueueOk(b, j) && NodeOk(b, j) {
      if j == i { ProduceHere(a, i, k); } else { ProduceElsewhere(a, i, k, j); }
    }
    forall x | x in b.made ensures KeyOk(b, x) { ProduceKeys(a, i, k, x); }
  }

  /** Only the last notification of a node that made every key can complete the coordinator's set. */
  lemma CompletionIsActive(a: Instance, i: nat)
    requires Inv(a) && i < |a.nodes| && a.nodes[i].up != []
    ensures a.seen + {a.nodes[i].up[0].key} == a.keys && a.winner >= 0 ==> a.nodes[i].up[0].active
    ensures a.nodes[i].up[0].active ==> a.seen + {a.nodes[i].up[0].key} == a.keys
  {
    var up := a.nodes[i].up;
    assert QueueOk(a, i);
    if a.winner >= 0 {
      assert NodeOk(a, a.winner);
      assert up[0].key in a.keys by { assert KeyOk(a, up[0].key); }
      assert up[0].key in MadeAt(a, a.winner);
      assert |up| > 1 ==> KeyOk(a, up[1].key) && up[1].key != up[0].key && up[1].key !in a.seen;
      if up[0].active {
        forall k | k in a.keys ensures k in a.seen + {up[0].key} {
          assert k in MadeAt(a, a.winner) && KeyOk(a, k);
        }
        assert forall k :: k in a.seen ==> KeyOk(a, k);
        assert KeyOk(a, up[0].key);
      }
    }
  }

  lemma ReplayKeys(a: Instance, i: nat, k: Key)
    requires Inv(a) && i < |a.nodes| && a.nodes[i].up != [] && k in a.made
    ensures KeyOk(Replay(a, i), k)
  {
    var b := Replay(a, i);
    assert KeyOk(a, k) && QueueOk(a, i);
    if k !in b.seen {
      var p :| 0 <= p < |a.nodes[a.made[k]].up| && a.nodes[a.made[k]].up[p].key == k;
      assert b.nodes[b.made[k]].up[if a.made[k] == i then p - 1 else p].key == k;
    }
  }

  lemma ReplayNode(a: Instance, i: nat, j: nat)
    requires Inv(a) && i < |a.nodes| && a.nodes[i].up != [] && j < |a.nodes|
    requires var k := a.nodes[i].up[0].key; a.got == a.seen && (|a.seen + {k}| == |a.keys| <==> a.seen + {k} == a.keys)
    ensures QueueOk(Replay(a, i), j) && NodeOk(Replay(a, i), j)
  {
    var b := Replay(a, i);
    var k := a.nodes[i].up[0].key;
    CompletionIsActive(a, i);
    assert QueueOk(a, j) && NodeOk(a, j) && QueueOk(a, i);
    assert MadeAt(b, j) == MadeAt(a, j);
    assert b.nodes[j].up == (if j == i then a.nodes[j].up[1..] else a.nodes[j].up);
    if b.coordFired && !a.coordFired && MadeAt(a, j) != {} {
      var x :| x in MadeAt(a, j);
      assert KeyOk(a, x);
      assert j in b.known;
    }
  }

  lemma ReplayInv(a: Instance, i: nat)
    requires Inv(a) && i < |a.nodes| && a.nodes[i].up != []
    ensures Inv(Replay(a, i))
  {
    var b := Replay(a, i);
    var k := a.nodes[i].up[0].key;
    assert QueueOk(a, i);
    assert forall x :: x in a.made ==> KeyOk(a, x);
    assert a.seen + {k} <= a.keys && a.seen != a.keys;
    SubsetSize(a.seen + {k}, a.keys);
    CompletionIsActive(a, i);
    forall j | 0 <= j < |b.nodes| ensures QueueOk(b, j) && NodeOk(b, j) { ReplayNode(a, i, j); }
    forall x | x in b.made ensures KeyOk(b, x) { ReplayKeys(a, i, x); }
  }

  lemma ClearInv(a: Instance, i: nat)
    requires Inv(a) && i < |a.nodes| && a.nodes[i].clears > 0
    ensures Inv(Clear(a, i))
  {
    var b := Clear(a, i);
    assert NodeOk(a, i);
    forall j | 0 <= j < |b.nodes| ensures QueueOk(b, j) && NodeOk(b, j) {
      assert QueueOk(a, j) && NodeOk(a, j) && MadeAt(b, j) == MadeAt(a, j);
    }
    forall k | k in b.made ensures KeyOk(b, k) { assert KeyOk(a, k); }
  }

  /** Every move keeps the invariant, as long as no key is made twice. */
  lemma ApplyInv(a: Instance, m: Move)
    requires Inv(a) && Possible(a, m) && (m.Made? ==> m.k !in a.made)
    ensures Inv(Apply(a, m))
  {
    match m
    case Nothing =>
    case Made(i, k) => ProduceInv(a, i, k);
    case Heard(i) => KnowInv(a, i);
    case Replayed(i) => ReplayInv(a, i);
    case Cleared(i) => ClearInv(a, i);
  }

  /** At most one firing ever; exactly one once every key was made and heard of; no residue once the clears are in. */
  lemma Outcome(a: Instance)
    requires Inv(a)
    ensures a.fires <= 1
    ensures a.made.Keys == a.keys && (forall i :: 0 <= i < |a.nodes| ==> a.nodes[i].up == []) ==>
              a.fires == 1 && a.got == {}
    ensures a.made.Keys == a.keys && (forall i :: 0 <= i < |a.nodes| ==> a.nodes[i].up == [] && a.nodes[i].clears == 0) ==>
              forall i :: 0 <= i < |a.nodes| ==> a.nodes[i].got == {}
  {
    if a.made.Keys == a.keys && (forall i :: 0 <= i < |a.nodes| ==> a.nodes[i].up == []) {
      assert forall k :: k in a.made ==> KeyOk(a, k);
      assert a.seen == a.keys;
      forall i | 0 <= i < |a.nodes| && a.nodes[i].clears == 0 ensures a.nodes[i].got == {} {
        assert NodeOk(a, i);
        if a.winner >= 0 && a.winner != i {
          assert NodeOk(a, a.winner);
        }
      }
    }
  }
}
