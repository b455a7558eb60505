/**
 The BySet trigger (`trigger.hpp`) and the two loops that feed it: the local
 scheduler's (`object_handlers.cpp`) and the coordinator's (`notify_handler.cpp`).
 */
module BySetTrigger {

  import Sets

  type Key = string
  type Session = string

  /** The keys prepared so far, per session. */
  type Prepared = map<Session, set<Key>>

  function Got(m: Prepared, session: Session): set<Key> {
    if session in m then m[session] else {}
  }

  /** The effect of a new object on the prepared keys, and whether the trigger fires. */
  function Arrive(keySet: set<Key>, m: Prepared, session: Session, key: Key): (Prepared, bool) {
    if key !in keySet then (m, false)
    else
      var got := Got(m, session) + {key};
      if |got| == |keySet| then (m - {session}, true) else (m[session := got], false)
  }

  datatype Action = Action(function_: string, sessionKeys: seq<(Session, Key)>)

  /** The action calls the target with every key of the set once, all of the given session. */
  ghost predicate IsActionOf(a: Action, target: string, keySet: set<Key>, session: Session) {
    && a.function_ == target && |a.sessionKeys| == |keySet|
    && forall k {:trigger k in keySet} {:trigger (session, k) in a.sessionKeys} :: k in keySet <==> (session, k) in a.sessionKeys
  }

  /** When a trigger fires, all its keys have been prepared. */
  lemma FiresOnWholeSet(keySet: set<Key>, m: Prepared, session: Session, key: Key)
    requires Got(m, session) <= keySet
    ensures Arrive(keySet, m, session, key).1 <==> key in keySet && Got(m, session) + {key} == keySet
    ensures Got(Arrive(keySet, m, session, key).0, session) <= keySet
  {
    if key in keySet { Sets.SubsetSize(Got(m, session) + {key}, keySet); }
  }

  class Trigger {
    const name: string
    const target: string
    const keySet: set<Key>
    var prepared: Prepared

    constructor (target: string, name: string, keySet: set<Key>)
      ensures this.target == target && this.name == name && this.keySet == keySet && prepared == map[]
    {
      this.target, this.name, this.keySet := target, name, keySet;
      prepared := map[];
    }

    /** `action_for_new_object`: at most one action, for the whole key set, each key once. */
    method ActionForNewObject(session: Session, key: Key) returns (actions: seq<Action>)
      modifies this`prepared
      ensures prepared == Arrive(keySet, old(prepared), session, key).0
      ensures |actions| == if Arrive(keySet, old(prepared), session, key).1 then 1 else 0
      ensures forall a :: a in actions ==> IsActionOf(a, target, keySet, session)
    {
      actions := [];
      if key in keySet {
        prepared := prepared[session := Got(prepared, session) + {key}];
        if |prepared[session]| == |keySet| {
          var pairs: seq<(Session, Key)> := [];
          var rest := keySet;
          while rest != {}
            invariant rest <= keySet && |pairs| + |rest| == |keySet|
            invariant forall k :: k in keySet - rest <==> (session, k) in pairs
            decreases |rest|
          {
            var k :| k in rest;
            pairs := pairs + [(session, k)];
            rest := rest - {k};
          }
          actions := [Action(target, pairs)];
          prepared := prepared - {session};
        }
      }
    }

    /** `clear`: the session is forgotten. */
    method Clear(session: Session)
      modifies this`prepared
      ensures prepared == old(prepared) - {session}
      ensures Got(prepared, session) == {}
      ensures forall other :: other != session ==> Got(prepared, other) == Got(old(prepared), other)
    {
      prepared := prepared - {session};
    }
  }

  /** Every trigger of a bucket is a separate object with a name of its own. */
  ghost predicate Distinct(triggers: seq<Trigger>) {
    forall i, j :: 0 <= i < j < |triggers| ==> triggers[i] != triggers[j] && triggers[i].name != triggers[j].name
  }

  /** The actions are those of the triggers at `from`, in the bucket's order. */
  ghost predicate ActionsFrom(actions: seq<Action>, from: seq<nat>, triggers: seq<Trigger>, session: Session) {
    && |from| == |actions|
    && (forall i :: 0 <= i < |from| ==> from[i] < |triggers|)
    && (forall i, j :: 0 <= i < j < |from| ==> from[i] < from[j])
    && forall i {:trigger actions[i]} :: 0 <= i < |from| ==> IsActionOf(actions[i], triggers[from[i]].target, triggers[from[i]].keySet, session)
  }

  lemma OneMore(actions: seq<Action>, from: seq<nat>, triggers: seq<Trigger>, session: Session, n: nat, a: Action)
    requires ActionsFrom(actions, from, triggers, session) && n < |triggers| && (forall i :: 0 <= i < |from| ==> from[i] < n)
    requires IsActionOf(a, triggers[n].target, triggers[n].keySet, session)
    ensures ActionsFrom(actions + [a], from + [n], triggers, session)
  {
  }

  /**
   `check_object_arrival`: every trigger of the bucket sees the object; those that
   fire are reported by name, and each contributes its action, with its whole key set.
   */
  method CheckObjectArrival(triggers: seq<Trigger>, session: Session, key: Key)
    returns (active: set<string>, actions: seq<Action>, ghost from: seq<nat>)
    requires Distinct(triggers)
    modifies triggers
    ensures forall j :: 0 <= j < |triggers| ==>
              && triggers[j].prepared == Arrive(triggers[j].keySet, old(triggers[j].prepared), session, key).0
              && (triggers[j].name in active <==> Arrive(triggers[j].keySet, old(triggers[j].prepared), session, key).1)
              && (j in from <==> Arrive(triggers[j].keySet, old(triggers[j].prepared), session, key).1)
    ensures |actions| == |active| && ActionsFrom(actions, from, triggers, session)
  {
    active, actions, from := {}, [], [];
    for n := 0 to |triggers|
      invariant forall j :: 0 <= j < n ==>
                  && triggers[j].prepared == Arrive(triggers[j].keySet, old(triggers[j].prepared), session, key).0
                  && (triggers[j].name in active <==> Arrive(triggers[j].keySet, old(triggers[j].prepared), session, key).1)
                  && (j in from <==> Arrive(triggers[j].keySet, old(triggers[j].prepared), session, key).1)
      invariant forall j :: n <= j < |triggers| ==> triggers[j].prepared == old(triggers[j].prepared) && triggers[j].name !in active
      invariant |actions| == |active| && ActionsFrom(actions, from, triggers, session) && forall i :: 0 <= i < |from| ==> from[i] < n
    {
      var fired := triggers[n].ActionForNewObject(session, key);
      if |fired| > 0 {
        assert fired == [fired[0]] && fired[0] in fired;
        OneMore(actions, from, triggers, session, n, fired[0]);
        active := active + {triggers[n].name};
        actions, from := actions + fired, from + [n];
      }
    }
  }

  /**
   The trigger loop of `notify_handler`: the object is replayed into every trigger,
   and only the firings that the sender did not already perform count, each with its
   whole key set.
   */
  method ReplayObject(triggers: seq<Trigger>, session: Session, key: Key, active: set<string>)
    returns (triggered: set<string>, actions: seq<Action>, ghost from: seq<nat>)
    requires Distinct(triggers)
    modifies triggers
    ensures forall j :: 0 <= j < |triggers| ==>
              && triggers[j].prepared == Arrive(triggers[j].keySet, old(triggers[j].prepared), session, key).0
              && (triggers[j].name in triggered <==>
                    Arrive(triggers[j].keySet, old(triggers[j].prepared), session, key).1 && triggers[j].name !in active)
              && (j in from <==> triggers[j].name in triggered)
    ensures |actions| == |triggered| && ActionsFrom(actions, from, triggers, session)
  {
    triggered, actions, from := {}, [], [];
    for n := 0 to |triggers|
      invariant forall j :: 0 <= j < n ==>
                  && triggers[j].prepared == Arrive(triggers[j].keySet, old(triggers[j].prepared), session, key).0
                  && (triggers[j].name in triggered <==>
                        Arrive(triggers[j].keySet, old(triggers[j].prepared), session, key).1 && triggers[j].name !in active)
                  && (j in from <==> triggers[j].name in triggered)
      invariant forall j :: n <= j < |triggers| ==> triggers[j].prepared == old(triggers[j].prepared) && triggers[j].name !in triggered
      invariant |actions| == |triggered| && ActionsFrom(actions, from, triggers, session) && forall i :: 0 <= i < |from| ==> from[i] < n
    {
      var fired := triggers[n].ActionForNewObject(session, key);
      if triggers[n].name in active { continue; }
      if |fired| > 0 {
        assert fired == [fired[0]] && fired[0] in fired;
        OneMore(actions, from, triggers, session, n, fired[0]);
        triggered := triggered + {triggers[n].name};
        actions, from := actions + fired, from + [n];
      }
    }
  }
}
