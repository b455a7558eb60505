/**
 The local scheduler's dataflow join (`scheduler_server.cpp`): a call whose key
 arguments are not all local waits until the missing objects have been fetched.
 Two maps record, in both directions, which call waits for which key.
 */
module DataflowJoin {

  /** An argument of a call: a plain value, or the name of an object. */
  datatype Key = Key(name: string)

  /** A call that waits; `missing` are the keys still to be fetched. */
  datatype Waiting = Waiting(func: string, session: string, keys: seq<Key>, flag: nat, missing: set<Key>)

  /** A call handed to an executor with its key arguments and their sizes. */
  datatype Dispatch = Dispatch(id: nat, func: string, session: string, args: seq<(Key, nat)>, flag: nat)

  datatype State = State(
    waiters: map<Key, set<nat>>,
    calls: map<nat, Waiting>,
    lens: map<Key, nat>,
    next: nat,
    asked: multiset<Key>,    // data requests without an answer
    sent: seq<Dispatch>)

  function Init(): State {
    State(map[], map[], map[], 0, multiset{}, [])
  }

  datatype Event =
    | Call(func: string, session: string, args: seq<Key>, flag: nat)
    | DataResp(key: Key, size: nat)
    | Stored(obj: Key, len: nat)    // the object becomes local without an answer to a request

  // ---------------------------------------------------------------------- calls

  /** Effect of the argument loop so far. */
  datatype Gathered = Gathered(waiters: map<Key, set<nat>>, asked: multiset<Key>, missing: set<Key>)

  function Waiters(waiters: map<Key, set<nat>>, k: Key): set<nat> {
    if k in waiters then waiters[k] else {}
  }

  function GatherOne(lens: map<Key, nat>, g: Gathered, c: nat, a: Key): Gathered {
    if a in lens then g
    else Gathered(g.waiters[a := Waiters(g.waiters, a) + {c}],
                  if a in g.waiters then g.asked else g.asked + multiset{a},
                  g.missing + {a})
  }

  function Gather(s: State, args: seq<Key>): Gathered {
    if args == [] then Gathered(s.waiters, s.asked, {})
    else GatherOne(s.lens, Gather(s, args[..|args| - 1]), s.next, args[|args| - 1])
  }

  /** The keys with their sizes; a key that is not local would count as empty. */
  function Sized(lens: map<Key, nat>, keys: seq<Key>): (r: seq<(Key, nat)>)
    ensures |r| == |keys| && forall i :: 0 <= i < |keys| ==> r[i] == (keys[i], if keys[i] in lens then lens[keys[i]] else 0)
  {
    seq(|keys|, i requires 0 <= i < |keys| => (keys[i], if keys[i] in lens then lens[keys[i]] else 0))
  }

  function Plain(args: seq<Key>): (r: seq<(Key, nat)>)
    ensures |r| == |args|
  {
    seq(|args|, i requires 0 <= i < |args| => (args[i], 0))
  }

  /** A call arrives; `flag` is positive when its arguments are keys. */
  function OnCall(s: State, func: string, session: string, args: seq<Key>, flag: nat): State {
    if flag == 0 then
      s.(sent := s.sent + [Dispatch(s.next, func, session, Plain(args), flag)], next := s.next + 1)
    else
      var g := Gather(s, args);
      if g.missing == {} then
        State(g.waiters, s.calls, s.lens, s.next + 1, g.asked,
              s.sent + [Dispatch(s.next, func, session, Sized(s.lens, args), flag)])
      else
        State(g.waiters, s.calls[s.next := Waiting(func, session, args, flag, g.missing)], s.lens, s.next + 1, g.asked, s.sent)
  }

  // -------------------------------------------------------------------- answers

  predicate IsLeast(c: nat, todo: set<nat>) {
    c in todo && forall d :: d in todo ==> c <= d
  }

  lemma {:induction false} LeastExists(todo: set<nat>)
    requires todo != {}
    ensures exists c :: IsLeast(c, todo)
  {
    var x :| x in todo;
    var rest := todo - {x};
    if rest == {} {
      assert IsLeast(x, todo) by { assert todo == {x}; }
    } else {
      LeastExists(rest);
      var c :| IsLeast(c, rest);
      assert forall d :: d in todo ==> d == x || d in rest;
      assert IsLeast(if x < c then x else c, todo);
    }
  }

  function Least(todo: set<nat>): (c: nat)
    requires todo != {}
    ensures IsLeast(c, todo)
  {
    LeastExists(todo);
    var c :| IsLeast(c, todo);
    c
  }

  /** One waiting call learns that `k` is local. */
  function SettleOne(s: State, k: Key, c: nat): State {
    if c !in s.calls then s
    else
      var w := s.calls[c];
      var missing := w.missing - {k};
      if missing == {} then
        s.(calls := s.calls - {c}, sent := s.sent + [Dispatch(c, w.func, w.session, Sized(s.lens, w.keys), w.flag)])
      else s.(calls := s.calls[c := w.(missing := missing)])
  }

  /** All of `todo`, in ascending order. */
  function Settle(s: State, k: Key, todo: set<nat>): State
    decreases |todo|
  {
    if todo == {} then s
    else var c := Least(todo); Settle(SettleOne(s, k, c), k, todo - {c})
  }

  function OnData(s: State, k: Key, size: nat): State {
    var t := s.(lens := s.lens[k := size], asked := s.asked[k := 0]);
    if k !in s.waiters then t
    else
      var u := Settle(t, k, s.waiters[k]);
      u.(waiters := u.waiters - {k})
  }

  function Step(s: State, e: Event): State {
    match e
    case Call(func, session, args, flag) => OnCall(s, func, session, args, flag)
    case DataResp(key, size) => OnData(s, key, size)
    case Stored(key, size) => s.(lens := s.lens[key := size])
  }

  function Exec(s: State, events: seq<Event>): State {
    if events == [] then s else Step(Exec(s, events[..|events| - 1]), events[|events| - 1])
  }

  // ------------------------------------------------------------------ invariant

  /** `c` is listed under `k`. */
  predicate Listed(s: State, k: Key, c: nat) {
    c in Waiters(s.waiters, k)
  }

  /** `k` is in flight for `c`. */
  predicate InFlight(s: State, k: Key, c: nat) {
    c in s.calls && k in s.calls[c].missing
  }

  /** The two maps are inverse relations, and no key is listed without a waiting call. */
  ghost predicate Inverse(s: State) {
    && (forall k, c {:trigger Listed(s, k, c)} {:trigger InFlight(s, k, c)} :: Listed(s, k, c) <==> InFlight(s, k, c))
    && forall k {:trigger Waiters(s.waiters, k)} :: k in s.waiters ==> Waiters(s.waiters, k) != {}
  }

  /** A waiting call misses something, and whatever else it needs is local. */
  ghost predicate WaitOk(lens: map<Key, nat>, w: Waiting) {
    && w.missing != {} && w.flag > 0
    && (forall k :: k in w.missing ==> k in w.keys)
    && forall i :: 0 <= i < |w.keys| ==> w.keys[i] in w.missing || w.keys[i] in lens
  }

  ghost predicate CallsOk(s: State) {
    forall c {:trigger s.calls[c]} :: c in s.calls ==> WaitOk(s.lens, s.calls[c])
  }

  /** Every key argument of a dispatched call is local. */
  ghost predicate DispatchOk(lens: map<Key, nat>, d: Dispatch) {
    d.flag > 0 ==> forall i :: 0 <= i < |d.args| ==> d.args[i].0 in lens
  }

  ghost predicate SentOk(s: State) {
    forall i :: 0 <= i < |s.sent| ==> DispatchOk(s.lens, s.sent[i])
  }

  /** Every call that came in either waits or was dispatched, never both, and at most once. */
  ghost predicate Conserved(s: State) {
    && (forall i, j :: 0 <= i < j < |s.sent| ==> s.sent[i].id != s.sent[j].id)
    && (forall i :: 0 <= i < |s.sent| ==> s.sent[i].id !in s.calls && s.sent[i].id < s.next)
    && (forall c :: c in s.calls ==> c < s.next)
    && forall c: nat {:trigger WasSent(s.sent, c)} :: c < s.next && c !in s.calls ==> WasSent(s.sent, c)
  }

  ghost predicate WasSent(sent: seq<Dispatch>, c: nat) {
    exists i :: 0 <= i < |sent| && sent[i].id == c
  }

  /** Exactly one request is outstanding for every key somebody waits for, and none for others. */
  ghost predicate AskedOnce(s: State) {
    forall k {:trigger s.asked[k]} :: s.asked[k] == if k in s.waiters then 1 else 0
  }

  ghost predicate Inv(s: State) {
    Inverse(s) && CallsOk(s) && SentOk(s) && Conserved(s) && AskedOnce(s)
  }

  // ---------------------------------------------------------------- call lemmas

  /** What the argument loop adds up to, for one key. */
  ghost predicate GatheredAt(s: State, args: seq<Key>, g: Gathered, k: Key) {
    && (k in g.missing <==> k in args && k !in s.lens)
    && (k in g.waiters <==> k in s.waiters || k in g.missing)
    && Waiters(g.waiters, k) == Waiters(s.waiters, k) + (if k in g.missing then {s.next} else {})
    && g.asked[k] == s.asked[k] + (if k in g.missing && k !in s.waiters then 1 else 0)
  }

  /** One more argument, for one key. */
  lemma GatherOneIs(s: State, args: seq<Key>, g: Gathered, a: Key, k: Key)
    requires GatheredAt(s, args, g, k)
    ensures GatheredAt(s, args + [a], GatherOne(s.lens, g, s.next, a), k)
  {
    assert k in args + [a] <==> k in args || k == a;
  }

  lemma {:induction false} GatherIs(s: State, args: seq<Key>, k: Key)
    ensures GatheredAt(s, args, Gather(s, args), k)
  {
    if args != [] {
      var most := args[..|args| - 1];
      GatherIs(s, most, k);
      GatherOneIs(s, most, Gather(s, most), args[|args| - 1], k);
      assert args == most + [args[|args| - 1]];
    }
  }

  lemma SentMore(sent: seq<Dispatch>, d: Dispatch, c: nat)
    ensures WasSent(sent + [d], c) <==> WasSent(sent, c) || d.id == c
  {
    var all := sent + [d];
    if WasSent(sent, c) {
      var i :| 0 <= i < |sent| && sent[i].id == c;
      assert all[i].id == c;
    }
    if d.id == c { assert all[|sent|].id == c; }
    if WasSent(all, c) && d.id != c {
      var i :| 0 <= i < |all| && all[i].id == c;
      assert sent[i].id == c;
    }
  }

  lemma CallSentConserved(s: State, s': State, d: Dispatch)
    requires Conserved(s) && d.id == s.next
    requires s'.calls == s.calls && s'.sent == s.sent + [d] && s'.next == s.next + 1
    ensures Conserved(s')
  {
    forall c: nat | c < s'.next && c !in s'.calls ensures WasSent(s'.sent, c) {
      SentMore(s.sent, d, c);
      assert c < s.next ==> WasSent(s.sent, c);
    }
  }

  lemma CallWaitsConserved(s: State, s': State, w: Waiting)
    requires Conserved(s)
    requires s'.calls == s.calls[s.next := w] && s'.sent == s.sent && s'.next == s.next + 1
    ensures Conserved(s')
  {
    forall c: nat | c < s'.next && c !in s'.calls ensures WasSent(s'.sent, c) {
      assert WasSent(s.sent, c);
    }
  }

  /** A call that starts to wait is entered on both sides. */
  lemma WaitsInverse(s: State, args: seq<Key>, w: Waiting, s': State)
    requires Inverse(s) && s.next !in s.calls && w.missing == Gather(s, args).missing
    requires s'.waiters == Gather(s, args).waiters && s'.calls == s.calls[s.next := w]
    ensures Inverse(s')
  {
    forall k, c ensures Listed(s', k, c) <==> InFlight(s', k, c) {
      GatherIs(s, args, k);
      assert Listed(s, k, c) <==> InFlight(s, k, c);
    }
    forall k | k in s'.waiters ensures Waiters(s'.waiters, k) != {} {
      GatherIs(s, args, k);
      assert k in s.waiters ==> Waiters(s.waiters, k) != {};
    }
  }

  lemma WaitsAsked(s: State, args: seq<Key>, s': State)
    requires AskedOnce(s) && s'.waiters == Gather(s, args).waiters && s'.asked == Gather(s, args).asked
    ensures AskedOnce(s')
  {
    forall k ensures s'.asked[k] == if k in s'.waiters then 1 else 0 { GatherIs(s, args, k); }
  }

  /** With nothing missing, the argument loop leaves no trace. */
  lemma NothingMissing(s: State, args: seq<Key>)
    requires Gather(s, args).missing == {}
    ensures Gather(s, args).waiters == s.waiters
    ensures forall i :: 0 <= i < |args| ==> args[i] in s.lens
  {
    var g := Gather(s, args);
    forall k ensures (k in g.waiters <==> k in s.waiters) && Waiters(g.waiters, k) == Waiters(s.waiters, k) { GatherIs(s, args, k); }
    assert g.waiters.Keys == s.waiters.Keys;
    forall k | k in g.waiters ensures g.waiters[k] == s.waiters[k] { assert Waiters(g.waiters, k) == Waiters(s.waiters, k); }
    forall i | 0 <= i < |args| ensures args[i] in s.lens { GatherIs(s, args, args[i]); }
  }

  lemma WaitsOk(s: State, args: seq<Key>, w: Waiting)
    requires w.missing == Gather(s, args).missing && w.missing != {} && w.keys == args && w.flag > 0
    ensures WaitOk(s.lens, w)
  {
    forall k ensures k in w.missing <==> k in args && k !in s.lens { GatherIs(s, args, k); }
  }

  lemma SameMaps(s: State, s': State)
    requires Inverse(s) && s'.waiters == s.waiters && s'.calls == s.calls
    ensures Inverse(s')
  {
    forall k, c ensures Listed(s', k, c) <==> InFlight(s', k, c) { assert Listed(s, k, c) <==> InFlight(s, k, c); }
  }

  lemma CallKeeps(s: State, func: string, session: string, args: seq<Key>, flag: nat)
    requires Inv(s)
    ensures Inv(OnCall(s, func, session, args, flag))
  {
    var s' := OnCall(s, func, session, args, flag);
    if flag == 0 {
      CallSentConserved(s, s', s'.sent[|s.sent|]);
      SameMaps(s, s');
    } else {
      WaitsAsked(s, args, s');
      if Gather(s, args).missing == {} {
        CallSentConserved(s, s', s'.sent[|s.sent|]);
        NothingMissing(s, args);
        SameMaps(s, s');
      } else {
        var w := Waiting(func, session, args, flag, Gather(s, args).missing);
        CallWaitsConserved(s, s', w);
        WaitsInverse(s, args, w, s');
        WaitsOk(s, args, w);
      }
    }
  }

  // -------------------------------------------------------------- answer lemmas

  /** The relations while the calls in `todo` have still to learn that `k` is local. */
  ghost predicate Relations(s: State, k: Key, todo: set<nat>) {
    && k in s.lens
    && (forall c {:trigger InFlight(s, k, c)} {:trigger c in todo} :: c in todo <==> InFlight(s, k, c))
    && (forall x, c {:trigger Listed(s, x, c)} {:trigger InFlight(s, x, c)} :: x != k ==> (Listed(s, x, c) <==> InFlight(s, x, c)))
  }

  ghost predicate Telling(s: State, k: Key, todo: set<nat>) {
    Relations(s, k, todo) && CallsOk(s) && SentOk(s) && Conserved(s)
  }

  lemma TellRelations(s: State, k: Key, c: nat, todo: set<nat>)
    requires Relations(s, k, todo) && c in todo
    ensures Relations(SettleOne(s, k, c), k, todo - {c})
  {
    var s' := SettleOne(s, k, c);
    assert InFlight(s, k, c);
    forall d ensures d in todo - {c} <==> InFlight(s', k, d) { assert d in todo <==> InFlight(s, k, d); }
    forall x, d | x != k ensures Listed(s', x, d) <==> InFlight(s', x, d) {
      assert x in s.calls[c].missing <==> x in s.calls[c].missing - {k};
      assert Listed(s, x, d) <==> InFlight(s, x, d);
    }
  }

  lemma TellCalls(s: State, k: Key, c: nat)
    requires CallsOk(s) && k in s.lens
    ensures CallsOk(SettleOne(s, k, c))
  {
  }

  lemma TellSent(s: State, k: Key, c: nat)
    requires CallsOk(s) && SentOk(s) && k in s.lens
    ensures SentOk(SettleOne(s, k, c))
  {
    if c in s.calls && s.calls[c].missing - {k} == {} {
      var w := s.calls[c];
      assert WaitOk(s.lens, w);
      forall i | 0 <= i < |w.keys| ensures w.keys[i] in s.lens {
        assert w.keys[i] in w.missing ==> w.keys[i] == k by { assert w.keys[i] !in w.missing - {k}; }
      }
    }
  }

  lemma TellConserved(s: State, k: Key, c: nat)
    requires Conserved(s)
    ensures Conserved(SettleOne(s, k, c))
  {
    var s' := SettleOne(s, k, c);
    if c in s.calls && s.calls[c].missing - {k} == {} {
      forall d: nat | d < s'.next && d !in s'.calls ensures WasSent(s'.sent, d) {
        SentMore(s.sent, s'.sent[|s.sent|], d);
        assert d != c ==> WasSent(s.sent, d);
      }
    } else {
      forall d: nat | d < s'.next && d !in s'.calls ensures WasSent(s'.sent, d) { assert WasSent(s.sent, d); }
    }
  }

  lemma {:induction false} TellAll(s: State, k: Key, todo: set<nat>)
    requires Telling(s, k, todo)
    ensures Telling(Settle(s, k, todo), k, {})
    ensures var t := Settle(s, k, todo); t.waiters == s.waiters && t.lens == s.lens && t.asked == s.asked && t.next == s.next
    decreases |todo|
  {
    if todo != {} {
      var c := Least(todo);
      TellOne(s, k, c, todo);
      TellAll(SettleOne(s, k, c), k, todo - {c});
    }
  }

  /** Dropping the entry of `k` once everybody was told. */
  lemma DropEntry(s: State, k: Key, s': State)
    requires Relations(s, k, {}) && s' == s.(waiters := s.waiters - {k})
    requires forall x {:trigger Waiters(s.waiters, x)} :: x in s.waiters ==> Waiters(s.waiters, x) != {}
    ensures Inverse(s')
  {
    forall x, c ensures Listed(s', x, c) <==> InFlight(s', x, c) {
      assert x != k ==> (Listed(s, x, c) <==> InFlight(s, x, c));
      assert x == k ==> !InFlight(s, k, c);
    }
    forall x | x in s'.waiters ensures Waiters(s'.waiters, x) != {} { assert Waiters(s.waiters, x) != {}; }
  }

  lemma LocalMore(s: State, k: Key, size: nat)
    requires CallsOk(s) && SentOk(s)
    ensures CallsOk(s.(lens := s.lens[k := size])) && SentOk(s.(lens := s.lens[k := size]))
  {
    var lens := s.lens[k := size];
    forall c | c in s.calls ensures WaitOk(lens, s.calls[c]) { assert WaitOk(s.lens, s.calls[c]); }
    forall i | 0 <= i < |s.sent| ensures DispatchOk(lens, s.sent[i]) { assert DispatchOk(s.lens, s.sent[i]); }
  }

  function Arrived(s: State, k: Key, size: nat): State {
    s.(lens := s.lens[k := size], asked := s.asked[k := 0])
  }

  lemma ArrivedTelling(s: State, k: Key, size: nat)
    requires Inv(s)
    ensures Telling(Arrived(s, k, size), k, Waiters(s.waiters, k))
  {
    var t := Arrived(s, k, size);
    LocalMore(s, k, size);
    forall c ensures c in Waiters(s.waiters, k) <==> InFlight(t, k, c) { assert Listed(s, k, c) <==> InFlight(s, k, c); }
    forall x, c ensures Listed(t, x, c) <==> InFlight(t, x, c) { assert Listed(s, x, c) <==> InFlight(s, x, c); }
    forall c | c in t.calls ensures WaitOk(t.lens, t.calls[c]) { assert WaitOk(s.lens[k := size], s.calls[c]); }
    forall c: nat | c < t.next && c !in t.calls ensures WasSent(t.sent, c) { assert WasSent(s.sent, c); }
  }

  lemma DataKeeps(s: State, k: Key, size: nat)
    requires Inv(s)
    ensures Inv(OnData(s, k, size))
  {
    var t := Arrived(s, k, size);
    ArrivedTelling(s, k, size);
    if k in s.waiters {
      TellAll(t, k, s.waiters[k]);
      var u := Settle(t, k, s.waiters[k]);
      DropEntry(u, k, OnData(s, k, size));
    } else {
      SameMaps(s, t);
    }
  }

  lemma StepKeeps(s: State, e: Event)
    requires Inv(s)
    ensures Inv(Step(s, e))
  {
    match e
    case Call(func, session, args, flag) => CallKeeps(s, func, session, args, flag);
    case DataResp(key, size) => DataKeeps(s, key, size);
    case Stored(key, size) =>
      LocalMore(s, key, size);
      SameMaps(s, Step(s, e));
      CallsAsBefore(s, Step(s, e));
  }

  lemma CallsAsBefore(s: State, s': State)
    requires Conserved(s) && s'.calls == s.calls && s'.sent == s.sent && s'.next == s.next
    ensures Conserved(s')
  {
    forall c: nat | c < s'.next && c !in s'.calls ensures WasSent(s'.sent, c) { assert WasSent(s.sent, c); }
  }

  /**
   In every run the two maps stay inverse to each other; every stored call misses
   something; every call that came in waits or was dispatched exactly once, with all
   its key arguments local; and each key somebody waits for has one request outstanding.
   */
  lemma EveryRun(events: seq<Event>)
    ensures Inv(Exec(Init(), events))
  {
    RunKeeps(Init(), events);
  }

  // ------------------------------------------------------- every call gets through

  /** The call went out as it came in. */
  ghost predicate SentAs(sent: seq<Dispatch>, c: nat, w: Waiting) {
    exists i {:trigger sent[i]} :: 0 <= i < |sent| && IsFor(sent[i], c, w)
  }

  /** The dispatch of a waiting call with the sizes known at the time. */
  function DispatchOf(c: nat, w: Waiting, lens: map<Key, nat>): Dispatch {
    Dispatch(c, w.func, w.session, Sized(lens, w.keys), w.flag)
  }

  ghost predicate IsFor(d: Dispatch, c: nat, w: Waiting) {
    && d.id == c && d.func == w.func && d.session == w.session && d.flag == w.flag && |d.args| == |w.keys|
    && forall i :: 0 <= i < |w.keys| ==> d.args[i].0 == w.keys[i]
  }

  /** From `s` to `t` call `c` has either gone out or lost exactly the answered keys. */
  ghost predicate Tracked(s: State, t: State, c: nat, answered: set<Key>)
    requires c in s.calls
  {
    if c in t.calls then t.calls[c] == s.calls[c].(missing := s.calls[c].missing - answered)
    else SentAs(t.sent, c, s.calls[c])
  }

  lemma SentStays(sent: seq<Dispatch>, more: seq<Dispatch>, c: nat, w: Waiting)
    requires SentAs(sent, c, w) && sent <= more
    ensures SentAs(more, c, w)
  {
    var i :| 0 <= i < |sent| && IsFor(sent[i], c, w);
    assert IsFor(more[i], c, w);
  }

  lemma {:induction false} SettleGrows(s: State, k: Key, todo: set<nat>)
    ensures s.sent <= Settle(s, k, todo).sent
    ensures Settle(s, k, todo).calls.Keys <= s.calls.Keys
    decreases |todo|
  {
    if todo != {} { SettleGrows(SettleOne(s, k, Least(todo)), k, todo - {Least(todo)}); }
  }

  lemma Tracks(s: State, t: State, u: State, c: nat, a: set<Key>, b: set<Key>)
    requires c in s.calls && Tracked(s, t, c, a) && t.sent <= u.sent
    requires if c in t.calls then Tracked(t, u, c, b) else c !in u.calls
    ensures Tracked(s, u, c, a + b)
  {
    var w := s.calls[c];
    if c in u.calls {
      assert w.missing - a - b == w.missing - (a + b);
    } else if c in t.calls {
      var i :| 0 <= i < |u.sent| && IsFor(u.sent[i], c, t.calls[c]);
      assert IsFor(u.sent[i], c, w);
    } else {
      SentStays(t.sent, u.sent, c, w);
    }
  }

  lemma SettleOneTracks(s: State, k: Key, d: nat, c: nat)
    requires c in s.calls && (c == d || k !in s.calls[c].missing)
    ensures Tracked(s, SettleOne(s, k, d), c, {k})
  {
    var s' := SettleOne(s, k, d);
    if c != d {
      assert s.calls[c].missing - {k} == s.calls[c].missing;
    } else if c !in s'.calls {
      assert IsFor(s'.sent[|s.sent|], c, s.calls[c]);
    }
  }

  lemma OtherUntouched(s: State, k: Key, d: nat, c: nat)
    requires c in s.calls && c != d
    ensures Tracked(s, SettleOne(s, k, d), c, {}) && c in SettleOne(s, k, d).calls
  {
    assert s.calls[c].missing - {} == s.calls[c].missing;
  }

  lemma {:induction false} SettleTracks(s: State, k: Key, todo: set<nat>, c: nat)
    requires c in s.calls && (c in todo || k !in s.calls[c].missing)
    ensures Tracked(s, Settle(s, k, todo), c, {k})
    decreases |todo|
  {
    if todo == {} {
      assert s.calls[c].missing - {k} == s.calls[c].missing;
    } else {
      var l := Least(todo);
      var s' := SettleOne(s, k, l);
      SettleGrows(s', k, todo - {l});
      if c != l {
        OtherUntouched(s, k, l, c);
        SettleTracks(s', k, todo - {l}, c);
        Tracks(s, s', Settle(s', k, todo - {l}), c, {}, {k});
        assert {} + {k} == {k};
      } else {
        SettleOneTracks(s, k, l, c);
        if c in s'.calls { SettleTracks(s', k, todo - {l}, c); }
        Tracks(s, s', Settle(s', k, todo - {l}), c, {k}, {k});
        assert {k} + {k} == {k};
      }
    }
  }

  function Answers(e: Event): set<Key> {
    if e.DataResp? then {e.key} else {}
  }

  function Answered(events: seq<Event>): set<Key> {
    if events == [] then {} else Answered(events[..|events| - 1]) + Answers(events[|events| - 1])
  }

  lemma DataTracks(s: State, k: Key, size: nat, c: nat)
    requires Inv(s) && c in s.calls
    ensures Tracked(s, OnData(s, k, size), c, {k}) && s.sent <= OnData(s, k, size).sent
  {
    var t := Arrived(s, k, size);
    assert Listed(s, k, c) <==> InFlight(s, k, c);
    if k in s.waiters {
      SettleTracks(t, k, s.waiters[k], c);
      SettleGrows(t, k, s.waiters[k]);
    } else {
      assert s.calls[c].missing - {k} == s.calls[c].missing;
    }
  }

  lemma StepTracks(s: State, e: Event, c: nat)
    requires Inv(s) && c in s.calls
    ensures Tracked(s, Step(s, e), c, Answers(e)) && s.sent <= Step(s, e).sent
  {
    if e.DataResp? {
      DataTracks(s, e.key, e.size, c);
    } else {
      assert s.calls[c].missing - {} == s.calls[c].missing;
    }
  }

  /** A call that was dispatched does not wait again. */
  lemma StepNeverRevives(s: State, e: Event, c: nat)
    requires Inv(s) && c < s.next && c !in s.calls
    ensures c !in Step(s, e).calls && s.next <= Step(s, e).next && s.sent <= Step(s, e).sent
  {
    if e.DataResp? {
      var t := Arrived(s, e.key, e.size);
      ArrivedTelling(s, e.key, e.size);
      if e.key in s.waiters {
        TellAll(t, e.key, s.waiters[e.key]);
        SettleGrows(t, e.key, s.waiters[e.key]);
      }
    }
  }

  lemma {:induction false} RunKeeps(s: State, events: seq<Event>)
    requires Inv(s)
    ensures Inv(Exec(s, events))
  {
    if events != [] {
      RunKeeps(s, events[..|events| - 1]);
      StepKeeps(Exec(s, events[..|events| - 1]), events[|events| - 1]);
    }
  }

  lemma {:induction false} RunTracks(s: State, events: seq<Event>, c: nat)
    requires Inv(s) && c in s.calls
    ensures var t := Exec(s, events);
            Tracked(s, t, c, Answered(events)) && s.sent <= t.sent && c < t.next
  {
    if events == [] {
      assert s.calls[c].missing - {} == s.calls[c].missing;
    } else {
      var init, e := events[..|events| - 1], events[|events| - 1];
      var t := Exec(s, init);
      RunTracks(s, init, c);
      RunKeeps(s, init);
      RunKeeps(s, events);
      if c in t.calls { StepTracks(t, e, c); } else { StepNeverRevives(t, e, c); }
      Tracks(s, t, Step(t, e), c, Answered(init), Answers(e));
    }
  }

  /** Once every key it missed has been answered, a call has gone out, with the arguments it came with. */
  lemma DispatchedOnceAnswered(s: State, events: seq<Event>, c: nat)
    requires Inv(s) && c in s.calls && s.calls[c].missing <= Answered(events)
    ensures c !in Exec(s, events).calls && SentAs(Exec(s, events).sent, c, s.calls[c])
  {
    RunTracks(s, events, c);
    RunKeeps(s, events);
    assert s.calls[c].missing - Answered(events) == {};
  }

  // ------------------------------------------------------ the fate of every call

  /** The size of an object after some events: that of its latest answer or storage, or -1 if it is not local. */
  function LatestSize(events: seq<Event>, k: Key): int {
    if events == [] then -1
    else
      match events[|events| - 1]
      case DataResp(key, size) => if key == k then size else LatestSize(events[..|events| - 1], k)
      case Stored(obj, len) => if obj == k then len else LatestSize(events[..|events| - 1], k)
      case Call(_, _, _, _) => LatestSize(events[..|events| - 1], k)
  }

  /** How many calls came in; calls are numbered from zero. */
  function CallsIn(events: seq<Event>): nat {
    if events == [] then 0 else CallsIn(events[..|events| - 1]) + if events[|events| - 1].Call? then 1 else 0
  }

  lemma DataFrame(s: State, k: Key, size: nat)
    requires Inv(s)
    ensures OnData(s, k, size).lens == s.lens[k := size] && OnData(s, k, size).next == s.next && s.sent <= OnData(s, k, size).sent
  {
    var t := Arrived(s, k, size);
    ArrivedTelling(s, k, size);
    if k in s.waiters {
      TellAll(t, k, s.waiters[k]);
      SettleGrows(t, k, s.waiters[k]);
    }
  }

  /** The lengths are the latest sizes, and the counter counts the calls. */
  lemma {:induction false} LensAreLatest(events: seq<Event>, k: Key)
    ensures var s := Exec(Init(), events);
            && (k in s.lens <==> LatestSize(events, k) >= 0) && (k in s.lens ==> s.lens[k] == LatestSize(events, k))
            && s.next == CallsIn(events)
  {
    if events != [] {
      var init, e := events[..|events| - 1], events[|events| - 1];
      LensAreLatest(init, k);
      RunKeeps(Init(), init);
      if e.DataResp? { DataFrame(Exec(Init(), init), e.key, e.size); }
    }
  }

  /** A dispatch carries the call's function, session, flag and arguments in order, each key with its latest size. */
  ghost predicate Carries(d: Dispatch, c: nat, e: Event, events: seq<Event>)
    requires e.Call?
  {
    && d.id == c && d.func == e.func && d.session == e.session && d.flag == e.flag && |d.args| == |e.args|
    && forall i :: 0 <= i < |e.args| ==>
         d.args[i].0 == e.args[i] && (e.flag > 0 ==> d.args[i].1 == LatestSize(events, e.args[i]) >= 0)
  }

  /** The keys the call at `p` still misses: not local when it came, and not answered since. */
  ghost function StillMissing(events: seq<Event>, p: nat): set<Key>
    requires p < |events| && events[p].Call?
  {
    (set a | a in events[p].args && LatestSize(events[..p], a) < 0) - Answered(events[p + 1..])
  }

  ghost predicate Waits(s: State, events: seq<Event>, p: nat)
    requires p < |events| && events[p].Call?
  {
    var e, c := events[p], CallsIn(events[..p]);
    c in s.calls && s.calls[c] == Waiting(e.func, e.session, e.args, e.flag, StillMissing(events, p))
  }

  /** The `n`-th event is the one after which the call at `p` first misses nothing. */
  ghost predicate Due(events: seq<Event>, p: nat, n: int)
    requires p < |events| && events[p].Call?
  {
    && p < n <= |events|
    && (events[p].flag == 0 || StillMissing(events[..n], p) == {})
    && (n == p + 1 || (events[p].flag > 0 && StillMissing(events[..n - 1], p) != {}))
  }

  /** Entry `i` of the log is the call at `p`, sent on the `n`-th event. */
  ghost predicate SentAt(s: State, events: seq<Event>, p: nat, i: int, n: int)
    requires p < |events| && events[p].Call?
  {
    0 <= i < |s.sent| && Due(events, p, n) && Carries(s.sent[i], CallsIn(events[..p]), events[p], events[..n])
  }

  ghost predicate WentOut(s: State, events: seq<Event>, p: nat)
    requires p < |events| && events[p].Call?
  {
    exists i, n :: SentAt(s, events, p, i, n)
  }

  /** The dispatch has the call's function, session, flag and arguments in order, the keys with their lengths. */
  ghost predicate IsDispatchOf(d: Dispatch, c: nat, e: Event, lens: map<Key, nat>)
    requires e.Call?
  {
    && d.id == c && d.func == e.func && d.session == e.session && d.flag == e.flag && |d.args| == |e.args|
    && forall i :: 0 <= i < |e.args| ==>
         d.args[i].0 == e.args[i] && (e.flag > 0 ==> e.args[i] in lens && d.args[i].1 == lens[e.args[i]])
  }

  /** A call is stored as it came, with the keys that are not local, or sent as it came. */
  lemma CallIsHeld(s: State, e: Event)
    requires e.Call?
    ensures var s' := Step(s, e);
            var missing := set a | a in e.args && a !in s.lens;
            && s'.lens == s.lens && s'.next == s.next + 1
            && if e.flag > 0 && missing != {} then
                 s'.calls == s.calls[s.next := Waiting(e.func, e.session, e.args, e.flag, missing)] && s'.sent == s.sent
               else
                 && s'.calls == s.calls && |s'.sent| == |s.sent| + 1 && s.sent <= s'.sent
                 && IsDispatchOf(s'.sent[|s.sent|], s.next, e, s.lens)
  {
    var g := Gather(s, e.args);
    assert g.missing == set a | a in e.args && a !in s.lens by {
      forall a ensures a in g.missing <==> a in e.args && a !in s.lens { GatherIs(s, e.args, a); }
    }
    if g.missing == {} { NothingMissing(s, e.args); }
  }

  lemma CarriesLatest(d: Dispatch, c: nat, e: Event, events: seq<Event>)
    requires e.Call? && IsDispatchOf(d, c, e, Exec(Init(), events).lens)
    ensures Carries(d, c, e, events)
  {
    forall i | 0 <= i < |e.args| ensures d.args[i].0 == e.args[i] && (e.flag > 0 ==> d.args[i].1 == LatestSize(events, e.args[i]) >= 0) {
      LensAreLatest(events, e.args[i]);
    }
  }

  lemma MissingAtFirst(init: seq<Event>, e: Event)
    requires e.Call?
    ensures StillMissing(init + [e], |init|) == (set a | a in e.args && a !in Exec(Init(), init).lens)
  {
    var events, p := init + [e], |init|;
    assert events[..p] == init && events[p + 1..] == [];
    forall a ensures a in StillMissing(events, p) <==> a in e.args && a !in Exec(Init(), init).lens { LensAreLatest(init, a); }
  }

  lemma StepAtEnd(init: seq<Event>, e: Event)
    ensures var events := init + [e];
            && events[..|init|] == init && events[|init|] == e && events[..|events|] == events
            && Exec(Init(), events) == Step(Exec(Init(), init), e)
            && Exec(Init(), init).next == CallsIn(init)
  {
    var events := init + [e];
    assert events[..|events| - 1] == init;
    LensAreLatest(init, Key(""));
  }

  lemma CallStays(init: seq<Event>, e: Event)
    requires e.Call? && e.flag > 0 && StillMissing(init + [e], |init|) != {}
    ensures Waits(Exec(Init(), init + [e]), init + [e], |init|)
  {
    StepAtEnd(init, e);
    MissingAtFirst(init, e);
    CallIsHeld(Exec(Init(), init), e);
  }

  lemma CallLeaves(init: seq<Event>, e: Event)
    requires e.Call? && (e.flag == 0 || StillMissing(init + [e], |init|) == {})
    ensures WentOut(Exec(Init(), init + [e]), init + [e], |init|)
  {
    var s0, s := Exec(Init(), init), Exec(Init(), init + [e]);
    StepAtEnd(init, e);
    MissingAtFirst(init, e);
    CallIsHeld(s0, e);
    CarriesLatest(s.sent[|s0.sent|], s0.next, e, init + [e]);
    assert SentAt(s, init + [e], |init|, |s0.sent|, |init| + 1);
  }

  /** What a call does when it comes in. */
  lemma CallComes(init: seq<Event>, e: Event)
    requires e.Call?
    ensures Decided(Exec(Init(), init + [e]), init + [e], |init|)
  {
    if e.flag > 0 && StillMissing(init + [e], |init|) != {} { CallStays(init, e); } else { CallLeaves(init, e); }
  }

  /** The call at `p` waits exactly as long as it misses a key, and has gone out otherwise. */
  ghost predicate Decided(s: State, events: seq<Event>, p: nat)
    requires p < |events| && events[p].Call?
  {
    if events[p].flag > 0 && StillMissing(events, p) != {} then Waits(s, events, p) else WentOut(s, events, p)
  }

  /** One more event for a call that waits. */
  lemma WaitingMeets(s: State, e: Event, c: nat)
    requires Inv(s) && c in s.calls
    ensures var s', w := Step(s, e), s.calls[c];
            var left := w.missing - Answers(e);
            if left != {} then c in s'.calls && s'.calls[c] == w.(missing := left)
            else c !in s'.calls && exists i :: 0 <= i < |s'.sent| && s'.sent[i] == DispatchOf(c, w, s'.lens)
  {
    var w := s.calls[c];
    assert WaitOk(s.lens, w);
    if e.DataResp? {
      DataMeets(s, e.key, e.size, c);
    } else {
      assert w.missing - {} == w.missing;
    }
  }

  lemma {:induction false} SettleMeets(s: State, k: Key, todo: set<nat>, c: nat)
    requires c in s.calls && (c in todo <==> k in s.calls[c].missing) && s.calls[c].missing != {}
    ensures var s', w := Settle(s, k, todo), s.calls[c];
            var left := w.missing - {k};
            && s'.lens == s.lens
            && if left != {} then c in s'.calls && s'.calls[c] == w.(missing := left)
               else c !in s'.calls && exists i :: 0 <= i < |s'.sent| && s'.sent[i] == DispatchOf(c, w, s.lens)
    decreases |todo|
  {
    var w := s.calls[c];
    if todo == {} {
      assert w.missing - {k} == w.missing;
    } else {
      var l := Least(todo);
      var s1 := SettleOne(s, k, l);
      SettleGrows(s1, k, todo - {l});
      if c != l {
        SettleMeets(s1, k, todo - {l}, c);
      } else if w.missing - {k} != {} {
        SettleMeets(s1, k, todo - {l}, c);
        assert w.missing - {k} - {k} == w.missing - {k};
      } else {
        SettleLens(s1, k, todo - {l});
        var r := Settle(s1, k, todo - {l});
        assert r.sent[|s.sent|] == s1.sent[|s.sent|] == DispatchOf(c, w, s.lens);
      }
    }
  }

  /** The calls an answer sets free go out in ascending order. */
  lemma {:induction false} SettleAscends(s: State, k: Key, todo: set<nat>)
    ensures var s' := Settle(s, k, todo);
            && s.sent <= s'.sent
            && (forall i :: |s.sent| <= i < |s'.sent| ==> s'.sent[i].id in todo)
            && forall i, j :: |s.sent| <= i < j < |s'.sent| ==> s'.sent[i].id < s'.sent[j].id
    decreases |todo|
  {
    if todo != {} {
      var l := Least(todo);
      var s1 := SettleOne(s, k, l);
      SettleAscends(s1, k, todo - {l});
      var s' := Settle(s, k, todo);
      forall i | |s.sent| <= i < |s'.sent| ensures s'.sent[i].id in todo && (i > |s.sent| || |s1.sent| == |s.sent| ==> s'.sent[i].id > l) {
        if i < |s1.sent| { assert s'.sent[i] == s1.sent[i]; }
      }
    }
  }

  lemma {:induction false} SettleLens(s: State, k: Key, todo: set<nat>)
    ensures Settle(s, k, todo).lens == s.lens
    decreases |todo|
  {
    if todo != {} { SettleLens(SettleOne(s, k, Least(todo)), k, todo - {Least(todo)}); }
  }

  lemma DataMeets(s: State, k: Key, size: nat, c: nat)
    requires Inv(s) && c in s.calls
    ensures var s', w := OnData(s, k, size), s.calls[c];
            var left := w.missing - {k};
            if left != {} then c in s'.calls && s'.calls[c] == w.(missing := left)
            else c !in s'.calls && exists i :: 0 <= i < |s'.sent| && s'.sent[i] == DispatchOf(c, w, s'.lens)
  {
    var t, w := Arrived(s, k, size), s.calls[c];
    assert WaitOk(s.lens, w);
    assert Listed(s, k, c) <==> InFlight(s, k, c);
    if k in s.waiters {
      SettleMeets(t, k, s.waiters[k], c);
    } else {
      assert w.missing - {k} == w.missing;
    }
  }

  lemma {:induction false} AnsweredSnoc(events: seq<Event>, e: Event)
    ensures Answered(events + [e]) == Answered(events) + Answers(e)
  {
    assert (events + [e])[..|events|] == events;
  }

  lemma MissingNext(init: seq<Event>, e: Event, p: nat)
    requires p < |init| && init[p].Call?
    ensures StillMissing(init + [e], p) == StillMissing(init, p) - Answers(e)
    ensures (init + [e])[..p] == init[..p]
  {
    var events := init + [e];
    assert events[..p] == init[..p] && events[p] == init[p];
    assert events[p + 1..] == init[p + 1..] + [e];
    AnsweredSnoc(init[p + 1..], e);
    var m := set a | a in init[p].args && LatestSize(init[..p], a) < 0;
    assert StillMissing(events, p) == m - (Answered(init[p + 1..]) + Answers(e));
    assert StillMissing(init, p) == m - Answered(init[p + 1..]);
  }

  lemma StillOut(s: State, s': State, init: seq<Event>, e: Event, p: nat)
    requires p < |init| && init[p].Call? && WentOut(s, init, p) && s.sent <= s'.sent
    ensures WentOut(s', init + [e], p)
  {
    var i, n :| SentAt(s, init, p, i, n);
    assert (init + [e])[..n] == init[..n] && (init + [e])[..p] == init[..p] && (init + [e])[..n - 1] == init[..n - 1];
    assert SentAt(s', init + [e], p, i, n);
  }

  lemma SentGrows(s: State, e: Event)
    requires Inv(s)
    ensures s.sent <= Step(s, e).sent
  {
    if e.DataResp? { DataFrame(s, e.key, e.size); }
    if e.Call? { CallIsHeld(s, e); }
  }

  lemma WaitingGoes(init: seq<Event>, e: Event, p: nat)
    requires p < |init| && init[p].Call? && Waits(Exec(Init(), init), init, p)
    ensures Decided(Exec(Init(), init + [e]), init + [e], p)
  {
    var events, c, call := init + [e], CallsIn(init[..p]), init[p];
    var s, s' := Exec(Init(), init), Exec(Init(), events);
    assert events[..|init|] == init && s' == Step(s, e);
    RunKeeps(Init(), init);
    MissingNext(init, e, p);
    WaitingMeets(s, e, c);
    assert WaitOk(s.lens, s.calls[c]);
    var w := s.calls[c];
    if w.missing - Answers(e) == {} {
      var i :| 0 <= i < |s'.sent| && s'.sent[i] == DispatchOf(c, w, s'.lens);
      RunKeeps(Init(), events);
      assert DispatchOk(s'.lens, s'.sent[i]);
      forall j | 0 <= j < |w.keys| ensures w.keys[j] in s'.lens { assert s'.sent[i].args[j].0 in s'.lens; }
      assert IsDispatchOf(s'.sent[i], c, call, s'.lens);
      CarriesLatest(s'.sent[i], c, call, events);
      assert events[..|events|] == events && events[..|events| - 1] == init;
      assert SentAt(s', events, p, i, |events|);
    }
  }

  /**
   The fate of every call in every run.  The call at `p` waits, with exactly its function,
   session, arguments and flag, as long as some key that was not local when it came has
   not been answered; otherwise it went out on the event after which it first missed
   nothing, with exactly those, each key with its latest size at that time.
   */
  lemma {:induction false} CallFate(events: seq<Event>, p: nat)
    requires p < |events| && events[p].Call?
    ensures Decided(Exec(Init(), events), events, p)
    ensures Inv(Exec(Init(), events))
  {
    var init, e := events[..|events| - 1], events[|events| - 1];
    assert events == init + [e];
    RunKeeps(Init(), events);
    if p == |init| {
      CallComes(init, e);
    } else {
      CallFate(init, p);
      MissingNext(init, e, p);
      if init[p].flag > 0 && StillMissing(init, p) != {} {
        WaitingGoes(init, e, p);
      } else {
        SentGrows(Exec(Init(), init), e);
        StillOut(Exec(Init(), init), Exec(Init(), events), init, e, p);
      }
    }
  }

  /** At most one entry of the log is the call, and none while it waits. */
  lemma SentOnce(events: seq<Event>, c: nat, i: nat, j: nat)
    requires var s := Exec(Init(), events); i < |s.sent| && j < |s.sent| && s.sent[i].id == c && s.sent[j].id == c
    ensures i == j && c !in Exec(Init(), events).calls
  {
    RunKeeps(Init(), events);
  }

  // -------------------------------------------------------------- the event loop

  class Scheduler {
    var waiters: map<Key, set<nat>>
    var calls: map<nat, Waiting>
    var lens: map<Key, nat>
    var next: nat
    var asked: multiset<Key>
    var sent: seq<Dispatch>

    ghost function Value(): State
      reads this
    {
      State(waiters, calls, lens, next, asked, sent)
    }

    constructor ()
      ensures Value() == Init()
    {
      waiters, calls, lens, next, asked, sent := map[], map[], map[], 0, multiset{}, [];
    }

    /** The argument loop of a call. */
    method Fetch(args: seq<Key>) returns (missing: set<Key>)
      modifies this`waiters, this`asked
      ensures Gathered(waiters, asked, missing) == Gather(old(Value()), args)
    {
      missing := {};
      for i := 0 to |args|
        invariant Gathered(waiters, asked, missing) == Gather(old(Value()), args[..i])
      {
        assert args[..i + 1][..i] == args[..i];
        var a := args[i];
        if a in lens { continue; }
        missing := missing + {a};
        if a !in waiters { asked := asked + multiset{a}; }
        waiters := waiters[a := (if a in waiters then waiters[a] else {}) + {next}];
      }
      assert args[..|args|] == args;
    }

    method Call(func: string, session: string, args: seq<Key>, flag: nat)
      requires Inv(Value())
      modifies this
      ensures Value() == OnCall(old(Value()), func, session, args, flag) && Inv(Value())
    {
      CallKeeps(Value(), func, session, args, flag);
      if flag > 0 {
        var missing := Fetch(args);
        if missing == {} {
          sent := sent + [Dispatch(next, func, session, Sized(lens, args), flag)];
        } else {
          calls := calls[next := Waiting(func, session, args, flag, missing)];
        }
      } else {
        sent := sent + [Dispatch(next, func, session, Plain(args), flag)];
      }
      next := next + 1;
    }

    /** Tells every call listed under `k`, in ascending order. */
    method Tell(k: Key, all: set<nat>)
      requires Telling(Value(), k, all)
      modifies this`calls, this`sent
      ensures Value() == Settle(old(Value()), k, all)
    {
      var todo := all;
      while todo != {}
        invariant Telling(Value(), k, todo) && Settle(Value(), k, todo) == Settle(old(Value()), k, all)
        decreases |todo|
      {
        var c := Least(todo);
        ghost var s := Value();
        assert InFlight(s, k, c);
        var w := calls[c];
        w := w.(missing := w.missing - {k});
        if w.missing == {} {
          sent := sent + [Dispatch(c, w.func, w.session, Sized(lens, w.keys), w.flag)];
          calls := calls - {c};
        } else {
          calls := calls[c := w];
        }
        assert Value() == SettleOne(s, k, c);
        TellOne(s, k, c, todo);
        todo := todo - {c};
      }
    }

    method Data(k: Key, size: nat)
      requires Inv(Value())
      modifies this
      ensures Value() == OnData(old(Value()), k, size) && Inv(Value())
    {
      DataKeeps(Value(), k, size);
      ArrivedTelling(Value(), k, size);
      lens := lens[k := size];
      asked := asked[k := 0];
      if k in waiters {
        Tell(k, waiters[k]);
        waiters := waiters - {k};
      }
    }
  }

  lemma TellOne(s: State, k: Key, c: nat, todo: set<nat>)
    requires Telling(s, k, todo) && c in todo
    ensures Telling(SettleOne(s, k, c), k, todo - {c})
  {
    TellRelations(s, k, c, todo);
    TellCalls(s, k, c);
    TellSent(s, k, c);
    TellConserved(s, k, c);
  }
}
