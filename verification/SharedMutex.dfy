/**
 The contention-free shared mutex (`safe_ptr.hpp`): readers raise a counter in a
 slot of their own, writers raise one global flag and wait for the slots to
 drain, and a reader that found no free slot falls back to the writers' flag.

 Every thread runs one atomic access at a time; the plain counter
 `recursive_xlock_count` is read and written in two separate steps.
 */
module SharedMutex {

  /** The identifier of no thread. */
  const NOBODY: int := -1

  /** Which counter an operation that goes through the global flag moves. */
  datatype Kind = Exclusive | Fallback

  /** Inside `register_thread` and the slot paths of `lock_shared` and `unlock_shared`. */
  datatype SlotPc =
    | RegLoad(i: nat)
    | RegCas(free: nat)
    | Load
    | Again(depth: int)
    | Raise
    | Check
    | Lower
    | Spin
    | LeaveLoad
    | Leave(left: int)

  /** Inside `lock`, `unlock` and the paths of a reader that has no slot. */
  datatype FlagPc =
    | Owner
    | Want
    | SetOwner
    | Scan(upto: nat)
    | IncLoad
    | IncStore(x: int)
    | DecLoad
    | DecStore(y: int)
    | ClearOwner
    | ClearWant

  datatype Pc = Idle | OnSlot(sp: SlotPc) | OnFlag(kind: Kind, fp: FlagPc)

  /**
   A thread: its position, its registered slot or -1, and how often it holds the
   mutex through its slot, through `lock` and through the fallback.
   */
  datatype Thread = Thread(pc: Pc, slot: int, shared: nat, exclusive: nat, fallback: nat)

  /** The shared words and, as proof-only history, the thread that raised `want_x_lock`. */
  datatype State = State(
    want: bool,
    owner: int,
    slots: seq<int>,
    count: int,
    threads: seq<Thread>,
    holder: int)

  datatype Action = Lock | Unlock | LockShared(register: bool) | UnlockShared | Unregister | Run(spurious: bool)

  function Init(threads: nat, slots: nat): State {
    State(false, NOBODY, seq(slots, _ => 0), 0, seq(threads, _ => Thread(Idle, -1, 0, 0, 0)), NOBODY)
  }

  /** Calls are matched and a thread never asks for X while it holds only S. */
  predicate Enabled(s: State, t: nat, a: Action) {
    t < |s.threads| &&
    var me := s.threads[t];
    match a
    case Run(_) => !me.pc.Idle?
    case Lock => me.pc.Idle? && me.shared == 0 && (me.fallback == 0 || me.exclusive > 0)
    case Unlock => me.pc.Idle? && me.exclusive > 0
    case LockShared(_) => me.pc.Idle?
    case UnlockShared => me.pc.Idle? && (if me.slot >= 0 then me.shared > 0 else me.fallback > 0)
    case Unregister => me.pc.Idle? && me.slot >= 0 && me.shared == 0
  }

  function Put(s: State, t: nat, me: Thread): State
    requires t < |s.threads|
  {
    s.(threads := s.threads[t := me])
  }

  function Goto(s: State, t: nat, pc: Pc): State
    requires t < |s.threads|
  {
    Put(s, t, s.threads[t].(pc := pc))
  }

  function SlotValue(s: State, t: nat): int
    requires t < |s.threads|
  {
    if 0 <= s.threads[t].slot < |s.slots| then s.slots[s.threads[t].slot] else 0
  }

  function StoreSlot(s: State, t: nat, v: int): State
    requires t < |s.threads|
  {
    if 0 <= s.threads[t].slot < |s.slots| then s.(slots := s.slots[s.threads[t].slot := v]) else s
  }

  function Start(s: State, t: nat, a: Action): State
    requires Enabled(s, t, a)
  {
    var me := s.threads[t];
    match a
    case Lock => Goto(s, t, OnFlag(Exclusive, Owner))
    case Unlock => Goto(s, t, OnFlag(Exclusive, DecLoad))
    case LockShared(register) =>
      if me.slot >= 0 then Goto(s, t, OnSlot(Load))
      else if register then Goto(s, t, OnSlot(RegLoad(0))) else Goto(s, t, OnFlag(Fallback, Owner))
    case UnlockShared => Goto(s, t, if me.slot >= 0 then OnSlot(LeaveLoad) else OnFlag(Fallback, DecLoad))
    case Unregister => if SlotValue(s, t) == 1 then Put(StoreSlot(s, t, 0), t, me.(slot := -1)) else s
    case Run(_) => s
  }

  /** One step of `register_thread` and of the slot paths. */
  function SlotStep(s: State, t: nat, pc: SlotPc): State
    requires t < |s.threads|
  {
    var me := s.threads[t];
    match pc
    case RegLoad(i) =>
      if i >= |s.slots| then Goto(s, t, OnFlag(Fallback, Owner))
      else if s.slots[i] == 0 then Goto(s, t, OnSlot(RegCas(i))) else Goto(s, t, OnSlot(RegLoad(i + 1)))
    case RegCas(i) =>
      if i < |s.slots| && s.slots[i] == 0
      then Put(s, t, me.(pc := OnSlot(Load), slot := i)).(slots := s.slots[i := 1])
      else Goto(s, t, OnSlot(RegLoad(i + 1)))
    case Load => Goto(s, t, OnSlot(if SlotValue(s, t) > 1 then Again(SlotValue(s, t)) else Raise))
    case Again(depth) => Put(StoreSlot(s, t, depth + 1), t, me.(pc := Idle, shared := me.shared + 1))
    case Raise => Goto(StoreSlot(s, t, 2), t, OnSlot(Check))
    case Check => if s.want then Goto(s, t, OnSlot(Lower)) else Put(s, t, me.(pc := Idle, shared := me.shared + 1))
    case Lower => Goto(StoreSlot(s, t, 1), t, OnSlot(Spin))
    case Spin => if s.want then s else Goto(s, t, OnSlot(Raise))
    case LeaveLoad => Goto(s, t, OnSlot(Leave(SlotValue(s, t))))
    case Leave(depth) =>
      Put(StoreSlot(s, t, depth - 1), t, me.(pc := Idle, shared := if me.shared > 0 then me.shared - 1 else 0))
  }

  function Gain(me: Thread, kind: Kind): Thread {
    match kind
    case Exclusive => me.(pc := Idle, exclusive := me.exclusive + 1)
    case Fallback => me.(pc := Idle, fallback := me.fallback + 1)
  }

  function Lose(me: Thread, kind: Kind, pc: Pc): Thread {
    match kind
    case Exclusive => me.(pc := pc, exclusive := if me.exclusive > 0 then me.exclusive - 1 else 0)
    case Fallback => me.(pc := pc, fallback := if me.fallback > 0 then me.fallback - 1 else 0)
  }

  /** One step of the paths that go through `want_x_lock`. */
  function FlagStep(s: State, t: nat, kind: Kind, pc: FlagPc, spurious: bool): State
    requires t < |s.threads|
  {
    match pc
    case Owner => Goto(s, t, OnFlag(kind, if s.owner == t then IncLoad else Want))
    case Want => if s.want || spurious then s else Goto(s, t, OnFlag(kind, SetOwner)).(want := true, holder := t)
    case SetOwner => Goto(s, t, OnFlag(kind, if kind.Exclusive? then Scan(0) else IncLoad)).(owner := t)
    case Scan(i) =>
      if i >= |s.slots| then Goto(s, t, OnFlag(kind, IncLoad))
      else if s.slots[i] > 1 then s else Goto(s, t, OnFlag(kind, Scan(i + 1)))
    case IncLoad => Goto(s, t, OnFlag(kind, IncStore(s.count)))
    case IncStore(x) => Put(s, t, Gain(s.threads[t], kind)).(count := x + 1)
    case DecLoad => Goto(s, t, OnFlag(kind, DecStore(s.count)))
    case DecStore(x) =>
      Put(s, t, Lose(s.threads[t], kind, if x - 1 == 0 then OnFlag(kind, ClearOwner) else Idle)).(count := x - 1)
    case ClearOwner => Goto(s, t, OnFlag(kind, ClearWant)).(owner := NOBODY)
    case ClearWant => Goto(s, t, Idle).(want := false, holder := NOBODY)
  }

  function Step(s: State, t: nat, a: Action): State
    requires Enabled(s, t, a)
  {
    match a
    case Run(spurious) =>
      (match s.threads[t].pc
       case Idle => s
       case OnSlot(pc) => SlotStep(s, t, pc)
       case OnFlag(kind, pc) => FlagStep(s, t, kind, pc, spurious))
    case _ => Start(s, t, a)
  }

  // ---------------------------------------------------------------- invariant

  /** The thread stands past its `want_x_lock` exchange and before it clears the flag. */
  predicate PcHolds(pc: Pc) {
    pc.OnFlag? && !pc.fp.Owner? && !pc.fp.Want?
  }

  function Depth(me: Thread): nat {
    me.exclusive + me.fallback
  }

  /** What the position of a thread says about its registration and its reads. */
  predicate Sane(me: Thread) {
    && -1 <= me.slot
    && (me.slot < 0 ==> me.shared == 0)
    && match me.pc
       case Idle => true
       case OnFlag(kind, pc) => kind.Fallback? && (pc.Owner? || pc.Want?) ==> me.slot == -1
       case OnSlot(pc) =>
         match pc
         case RegLoad(_) => me.slot == -1
         case RegCas(_) => me.slot == -1
         case Load => me.slot >= 0
         case Again(depth) => me.slot >= 0 && me.shared > 0 && depth == 1 + me.shared
         case LeaveLoad => me.slot >= 0 && me.shared > 0
         case Leave(depth) => me.slot >= 0 && me.shared > 0 && depth == 1 + me.shared
         case _ => me.slot >= 0 && me.shared == 0
  }

  /** The value that a registered thread shows in its slot. */
  function Shown(me: Thread): int {
    if me.pc.OnSlot? && (me.pc.sp.Check? || me.pc.sp.Lower?) then 2 else 1 + me.shared
  }

  ghost predicate SlotOk(s: State, t: nat)
    requires t < |s.threads|
  {
    var me := s.threads[t];
    Sane(me) && me.slot < |s.slots| && (me.slot >= 0 ==> s.slots[me.slot] == Shown(me))
  }

  /** What the position of a thread on the flag path says about its depth and the counter. */
  predicate FlagSane(me: Thread, count: int) {
    me.pc.OnFlag? ==>
      match me.pc.fp
      case Owner => me.pc.kind.Exclusive? ==> me.fallback == 0 || me.exclusive > 0
      case IncLoad => true
      case IncStore(x) => x == count
      case DecLoad => if me.pc.kind.Exclusive? then me.exclusive > 0 else me.fallback > 0
      case DecStore(x) => x == count && if me.pc.kind.Exclusive? then me.exclusive > 0 else me.fallback > 0
      case _ => Depth(me) == 0
  }

  /** What the flag, the owner and the counter say about the thread that holds the flag. */
  ghost predicate HolderOk(s: State, t: nat)
    requires t < |s.threads|
  {
    var me := s.threads[t];
    && (s.holder == t <==> PcHolds(me.pc) || Depth(me) > 0)
    && (s.owner == t <==> s.holder == t && !(me.pc.OnFlag? && (me.pc.fp.SetOwner? || me.pc.fp.ClearWant?)))
    && (s.holder == t ==> s.count == Depth(me))
    && FlagSane(me, s.count)
  }

  /** The writer has seen every slot drained. */
  predicate Drained(me: Thread) {
    me.exclusive > 0 || (me.pc.OnFlag? && me.pc.kind.Exclusive? && (me.pc.fp.IncLoad? || me.pc.fp.IncStore?))
  }

  predicate Scanning(me: Thread) {
    me.pc.OnFlag? && me.pc.fp.Scan?
  }

  /** A writer past the scan of a slot has seen its reader leave for good. */
  ghost predicate NoReaderBehind(s: State, t: nat, u: nat)
    requires t < |s.threads| && u < |s.threads|
  {
    && (Drained(s.threads[t]) ==> s.threads[u].shared == 0)
    && (Scanning(s.threads[t]) && 0 <= s.threads[u].slot < s.threads[t].pc.fp.upto ==> s.threads[u].shared == 0)
  }

  ghost predicate Inv(s: State) {
    && (s.want <==> s.holder != NOBODY)
    && (s.holder != NOBODY ==> 0 <= s.holder < |s.threads|)
    && (s.owner != NOBODY ==> s.owner == s.holder)
    && (s.holder == NOBODY ==> s.count == 0)
    && (forall t :: 0 <= t < |s.threads| ==> SlotOk(s, t))
    && (forall t :: 0 <= t < |s.threads| ==> HolderOk(s, t))
    && (forall t, u :: 0 <= t < |s.threads| && 0 <= u < |s.threads| ==> NoReaderBehind(s, t, u))
    && (forall t, u :: 0 <= t < u < |s.threads| && s.threads[t].slot >= 0 ==> s.threads[t].slot != s.threads[u].slot)
  }

  lemma InitInv(threads: nat, slots: nat)
    ensures Inv(Init(threads, slots))
  {
  }

  /** Only the record of thread `t` differs between the two states. */
  ghost predicate OnlyThread(s: State, s': State, t: nat) {
    && t < |s.threads| == |s'.threads|
    && forall u :: 0 <= u < |s.threads| && u != t ==> s'.threads[u] == s.threads[u]
  }

  /** A thread may touch its own slot `j`, or claim a free one; the others keep theirs. */
  lemma OthersSlots(s: State, s': State, t: nat, j: int)
    requires Inv(s) && OnlyThread(s, s', t)
    requires |s'.slots| == |s.slots|
    requires forall i :: 0 <= i < |s.slots| && i != j ==> s'.slots[i] == s.slots[i]
    requires j == s.threads[t].slot || (0 <= j < |s.slots| && s.slots[j] == 0)
    requires s'.threads[t].slot == s.threads[t].slot || s'.threads[t].slot == -1 || s'.threads[t].slot == j
    ensures forall u :: 0 <= u < |s'.threads| && u != t ==> SlotOk(s', u)
    ensures forall u, v :: 0 <= u < v < |s'.threads| && s'.threads[u].slot >= 0 ==> s'.threads[u].slot != s'.threads[v].slot
  {
    forall u | 0 <= u < |s'.threads| && u != t
      ensures SlotOk(s', u) && (s'.threads[u].slot >= 0 ==> s'.threads[u].slot != j)
    {
      assert SlotOk(s, u);
    }
  }

  /** Only the thread that holds the flag, or a thread that finds it free, changes the shared words. */
  lemma OthersHolders(s: State, s': State, t: nat)
    requires Inv(s) && OnlyThread(s, s', t)
    requires || (s'.holder == s.holder && s'.owner == s.owner && s'.count == s.count)
             || ((s.holder == NOBODY || s.holder == t) && (s'.holder == NOBODY || s'.holder == t) && (s'.owner == NOBODY || s'.owner == t))
    ensures forall u :: 0 <= u < |s'.threads| && u != t ==> HolderOk(s', u)
  {
    forall u | 0 <= u < |s'.threads| && u != t ensures HolderOk(s', u) { assert HolderOk(s, u); }
  }

  /** A thread that becomes a reader either was one, or saw the flag down. */
  lemma OthersReaders(s: State, s': State, t: nat)
    requires Inv(s) && OnlyThread(s, s', t)
    requires s'.threads[t].shared == 0 || (s.threads[t].shared > 0 && s'.threads[t].slot == s.threads[t].slot) || !s.want
    requires forall v :: 0 <= v < |s'.threads| ==> NoReaderBehind(s', t, v)
    ensures forall u, v :: 0 <= u < |s'.threads| && 0 <= v < |s'.threads| ==> NoReaderBehind(s', u, v)
  {
    forall u, v | 0 <= u < |s'.threads| && 0 <= v < |s'.threads| ensures NoReaderBehind(s', u, v) {
      if u != t { assert NoReaderBehind(s, u, v) && HolderOk(s, u); }
    }
  }

  /** The three frames together: it remains to look at thread `t` and the shared words. */
  lemma Preserved(s: State, s': State, t: nat, j: int)
    requires Inv(s) && t < |s.threads| && Shape(s, s', t, j)
    requires forall v :: 0 <= v < |s'.threads| ==> NoReaderBehind(s', t, v)
    ensures Inv(s')
  {
    OthersSlots(s, s', t, j);
    OthersHolders(s, s', t);
    OthersReaders(s, s', t);
  }

  /** A writer stays past the scan: what it has seen of the slots still holds. */
  lemma StillDrained(s: State, s': State, t: nat)
    requires Inv(s) && OnlyThread(s, s', t)
    requires s'.threads[t].shared == 0 || !s.want || (s'.threads[t].shared > 0 && s.threads[t].shared > 0)
    requires Drained(s'.threads[t]) ==> Drained(s.threads[t])
    requires !Scanning(s'.threads[t])
    ensures forall v :: 0 <= v < |s'.threads| ==> NoReaderBehind(s', t, v)
  {
    forall v | 0 <= v < |s'.threads| ensures NoReaderBehind(s', t, v) {
      assert NoReaderBehind(s, t, v) && HolderOk(s, t);
    }
  }

  /** What thread `t` alone needs to know to take its next step. */
  ghost predicate SelfOk(s: State, t: nat) {
    && t < |s.threads| && SlotOk(s, t) && HolderOk(s, t)
    && (s.want <==> s.holder != NOBODY)
    && (s.owner != NOBODY ==> s.owner == s.holder)
    && (s.holder == NOBODY ==> s.count == 0)
  }

  /** The step changes thread `t`, slot `j` and, if it may, the words of the flag. */
  ghost predicate Shape(s: State, s': State, t: nat, j: int)
    requires t < |s.threads|
  {
    && OnlyThread(s, s', t)
    && |s'.slots| == |s.slots|
    && (forall i :: 0 <= i < |s.slots| && i != j ==> s'.slots[i] == s.slots[i])
    && (j == s.threads[t].slot || (0 <= j < |s.slots| && s.slots[j] == 0))
    && (s'.threads[t].slot == s.threads[t].slot || s'.threads[t].slot == -1 || s'.threads[t].slot == j)
    && (|| (s'.holder == s.holder && s'.owner == s.owner && s'.count == s.count && s'.want == s.want)
        || ((s.holder == NOBODY || s.holder == t) && (s'.holder == NOBODY || s'.holder == t) && (s'.owner == NOBODY || s'.owner == t)
            && (s'.want <==> s'.holder != NOBODY) && (s'.owner != NOBODY ==> s'.owner == s'.holder)
            && (s'.holder == NOBODY ==> s'.count == 0)))
    && (s'.threads[t].shared == 0 || (s.threads[t].shared > 0 && s'.threads[t].slot == s.threads[t].slot) || !s.want)
    && SlotOk(s', t) && HolderOk(s', t)
  }

  lemma StartLockShared(s: State, t: nat, register: bool)
    requires SelfOk(s, t) && Enabled(s, t, LockShared(register))
    ensures Shape(s, Start(s, t, LockShared(register)), t, s.threads[t].slot)
  {
  }

  lemma StartUnlockShared(s: State, t: nat)
    requires SelfOk(s, t) && Enabled(s, t, UnlockShared)
    ensures Shape(s, Start(s, t, UnlockShared), t, s.threads[t].slot)
  {
  }

  lemma StartOther(s: State, t: nat, a: Action)
    requires SelfOk(s, t) && Enabled(s, t, a) && (a.Lock? || a.Unlock? || a.Unregister?)
    ensures Shape(s, Start(s, t, a), t, s.threads[t].slot)
  {
  }

  /** Neither starting a call nor moving on the slot path lets a writer past its scan. */
  lemma NotDraining(s: State, t: nat, a: Action, pc: SlotPc)
    requires t < |s.threads|
    ensures s.threads[t].pc == OnSlot(pc) ==>
              var me' := SlotStep(s, t, pc).threads[t]; !Scanning(me') && (Drained(me') ==> Drained(s.threads[t]))
    ensures Enabled(s, t, a) && !a.Run? ==>
              var me' := Start(s, t, a).threads[t]; !Scanning(me') && (Drained(me') ==> Drained(s.threads[t]))
  {
  }

  /** The slot that a step on the slot path may change. */
  function Touched(s: State, t: nat, pc: SlotPc): int
    requires t < |s.threads|
  {
    if pc.RegCas? && pc.free < |s.slots| && s.slots[pc.free] == 0 then pc.free else s.threads[t].slot
  }

  /** A step that only moves the thread to a position off the flag. */
  lemma MoveShape(s: State, t: nat, pc: Pc)
    requires SelfOk(s, t) && !PcHolds(s.threads[t].pc) && !PcHolds(pc)
    requires Sane(s.threads[t].(pc := pc)) && Shown(s.threads[t].(pc := pc)) == Shown(s.threads[t])
    requires FlagSane(s.threads[t].(pc := pc), s.count)
    ensures Shape(s, Goto(s, t, pc), t, s.threads[t].slot)
  {
  }

  lemma RegisterLoad(s: State, t: nat, pc: SlotPc)
    requires SelfOk(s, t) && s.threads[t].pc == OnSlot(pc) && (pc.RegLoad?)
    ensures Shape(s, SlotStep(s, t, pc), t, Touched(s, t, pc))
  {
    var i := pc.i;
    if i >= |s.slots| { MoveShape(s, t, OnFlag(Fallback, Owner)); }
    else if s.slots[i] == 0 { MoveShape(s, t, OnSlot(RegCas(i))); }
    else { MoveShape(s, t, OnSlot(RegLoad(i + 1))); }
  }

  lemma RegisterClaim(s: State, t: nat, pc: SlotPc)
    requires SelfOk(s, t) && s.threads[t].pc == OnSlot(pc) && (pc.RegCas?)
    ensures Shape(s, SlotStep(s, t, pc), t, Touched(s, t, pc))
  {
  }

  lemma EnterSlot(s: State, t: nat, pc: SlotPc)
    requires SelfOk(s, t) && s.threads[t].pc == OnSlot(pc) && (pc.Load? || pc.Again? || pc.Raise?)
    ensures Shape(s, SlotStep(s, t, pc), t, Touched(s, t, pc))
  {
  }

  lemma RecheckSlot(s: State, t: nat, pc: SlotPc)
    requires SelfOk(s, t) && s.threads[t].pc == OnSlot(pc) && (pc.Check? || pc.Lower? || pc.Spin?)
    ensures Shape(s, SlotStep(s, t, pc), t, Touched(s, t, pc))
  {
  }

  lemma LeaveSlot(s: State, t: nat, pc: SlotPc)
    requires SelfOk(s, t) && s.threads[t].pc == OnSlot(pc) && (pc.LeaveLoad? || pc.Leave?)
    ensures Shape(s, SlotStep(s, t, pc), t, Touched(s, t, pc))
  {
  }

  lemma AskOwner(s: State, t: nat, kind: Kind, pc: FlagPc, spurious: bool)
    requires SelfOk(s, t) && s.threads[t].pc == OnFlag(kind, pc) && (pc.Owner?)
    ensures Shape(s, FlagStep(s, t, kind, pc, spurious), t, s.threads[t].slot)
  {
  }

  lemma RaiseFlag(s: State, t: nat, kind: Kind, pc: FlagPc, spurious: bool)
    requires SelfOk(s, t) && s.threads[t].pc == OnFlag(kind, pc) && (pc.Want?)
    ensures Shape(s, FlagStep(s, t, kind, pc, spurious), t, s.threads[t].slot)
  {
  }

  lemma TakeOwner(s: State, t: nat, kind: Kind, pc: FlagPc, spurious: bool)
    requires SelfOk(s, t) && s.threads[t].pc == OnFlag(kind, pc) && (pc.SetOwner?)
    ensures Shape(s, FlagStep(s, t, kind, pc, spurious), t, s.threads[t].slot)
  {
  }

  lemma ScanSlots(s: State, t: nat, kind: Kind, pc: FlagPc, spurious: bool)
    requires SelfOk(s, t) && s.threads[t].pc == OnFlag(kind, pc) && (pc.Scan?)
    ensures Shape(s, FlagStep(s, t, kind, pc, spurious), t, s.threads[t].slot)
  {
  }

  lemma CountUp(s: State, t: nat, kind: Kind, pc: FlagPc, spurious: bool)
    requires SelfOk(s, t) && s.threads[t].pc == OnFlag(kind, pc) && (pc.IncLoad? || pc.IncStore? || pc.DecLoad?)
    ensures Shape(s, FlagStep(s, t, kind, pc, spurious), t, s.threads[t].slot)
  {
  }

  lemma Release(s: State, t: nat, kind: Kind, pc: FlagPc, spurious: bool)
    requires SelfOk(s, t) && s.threads[t].pc == OnFlag(kind, pc) && (pc.DecStore? || pc.ClearOwner? || pc.ClearWant?)
    ensures Shape(s, FlagStep(s, t, kind, pc, spurious), t, s.threads[t].slot)
  {
  }

  /** A writer moves its scan on only past a slot whose reader is gone, and nothing else changes what it has seen. */
  lemma FlagReaders(s: State, t: nat, kind: Kind, pc: FlagPc, spurious: bool, v: nat)
    requires t < |s.threads| && s.threads[t].pc == OnFlag(kind, pc) && HolderOk(s, t)
    requires v < |s.threads| && NoReaderBehind(s, t, v) && SlotOk(s, v)
    ensures NoReaderBehind(FlagStep(s, t, kind, pc, spurious), t, v)
  {
  }

  lemma StartInv(s: State, t: nat, a: Action)
    requires Inv(s) && Enabled(s, t, a) && !a.Run?
    ensures Inv(Start(s, t, a))
  {
    if a.LockShared? { StartLockShared(s, t, a.register); }
    else if a.UnlockShared? { StartUnlockShared(s, t); }
    else { StartOther(s, t, a); }
    NotDraining(s, t, a, Load);
    StillDrained(s, Start(s, t, a), t);
    Preserved(s, Start(s, t, a), t, s.threads[t].slot);
  }

  lemma SlotStepInv(s: State, t: nat, pc: SlotPc)
    requires Inv(s) && t < |s.threads| && s.threads[t].pc == OnSlot(pc)
    ensures Inv(SlotStep(s, t, pc))
  {
    if pc.RegLoad? { RegisterLoad(s, t, pc); }
    else if pc.RegCas? { RegisterClaim(s, t, pc); }
    else if pc.Load? || pc.Again? || pc.Raise? { EnterSlot(s, t, pc); }
    else if pc.Check? || pc.Lower? || pc.Spin? { RecheckSlot(s, t, pc); }
    else { LeaveSlot(s, t, pc); }
    NotDraining(s, t, Run(false), pc);
    StillDrained(s, SlotStep(s, t, pc), t);
    Preserved(s, SlotStep(s, t, pc), t, Touched(s, t, pc));
  }

  lemma FlagStepInv(s: State, t: nat, kind: Kind, pc: FlagPc, spurious: bool)
    requires Inv(s) && t < |s.threads| && s.threads[t].pc == OnFlag(kind, pc)
    ensures Inv(FlagStep(s, t, kind, pc, spurious))
  {
    if pc.Owner? { AskOwner(s, t, kind, pc, spurious); }
    else if pc.Want? { RaiseFlag(s, t, kind, pc, spurious); }
    else if pc.SetOwner? { TakeOwner(s, t, kind, pc, spurious); }
    else if pc.Scan? { ScanSlots(s, t, kind, pc, spurious); }
    else if pc.IncLoad? || pc.IncStore? || pc.DecLoad? { CountUp(s, t, kind, pc, spurious); }
    else { Release(s, t, kind, pc, spurious); }
    var s' := FlagStep(s, t, kind, pc, spurious);
    forall v | 0 <= v < |s.threads| ensures NoReaderBehind(s', t, v) {
      assert NoReaderBehind(s, t, v) && SlotOk(s, v);
      FlagReaders(s, t, kind, pc, spurious, v);
    }
    Preserved(s, s', t, s.threads[t].slot);
  }

  /** Every step of every thread keeps the invariant. */
  lemma StepInv(s: State, t: nat, a: Action)
    requires Inv(s) && Enabled(s, t, a)
    ensures Inv(Step(s, t, a))
  {
    if !a.Run? { StartInv(s, t, a); return; }
    match s.threads[t].pc
    case OnSlot(pc) => SlotStepInv(s, t, pc);
    case OnFlag(kind, pc) => FlagStepInv(s, t, kind, pc, a.spurious);
    case Idle =>
  }

  // ------------------------------------------------------------ whole runs

  type Schedule = seq<(nat, Action)>

  /** The state after a schedule; a decision that is not possible is skipped. */
  ghost function Exec(s: State, schedule: Schedule): (r: State)
    requires Inv(s)
    ensures Inv(r)
    decreases |schedule|
  {
    if schedule == [] then s
    else
      var (t, a) := schedule[0];
      if Enabled(s, t, a) then
        StepInv(s, t, a);
        Exec(Step(s, t, a), schedule[1..])
      else Exec(s, schedule[1..])
  }

  /**
   Mutual exclusion in every interleaving of threads that never upgrade: while a
   thread holds the mutex through `lock`, it owns the flag, the plain counter is
   its nesting depth, and no other thread holds the mutex in any way, be it
   through `lock`, through its slot or through the fallback.  The thread itself
   holds nothing through a slot.  Fallback readers exclude each other too.
   */
  lemma MutualExclusion(threads: nat, slots: nat, schedule: Schedule, t: nat, u: nat)
    requires t < threads && u < threads && t != u
    ensures Inv(Init(threads, slots))
    ensures var s := Exec(Init(threads, slots), schedule);
            && |s.threads| == threads
            && (s.threads[t].exclusive > 0 ==>
                  && s.want && s.threads[t].shared == 0
                  && s.threads[u].exclusive == s.threads[u].fallback == s.threads[u].shared == 0)
            && (s.threads[t].exclusive + s.threads[t].fallback > 0 ==>
                  && s.count == s.threads[t].exclusive + s.threads[t].fallback
                  && s.threads[u].exclusive == s.threads[u].fallback == 0)
  {
    InitInv(threads, slots);
    var s := Exec(Init(threads, slots), schedule);
    SameThreads(Init(threads, slots), schedule);
    assert HolderOk(s, t) && HolderOk(s, u);
    assert NoReaderBehind(s, t, u) && NoReaderBehind(s, t, t);
  }

  lemma {:induction false} SameThreads(s: State, schedule: Schedule)
    requires Inv(s)
    ensures |Exec(s, schedule).threads| == |s.threads|
    decreases |schedule|
  {
    if schedule != [] {
      var (t, a) := schedule[0];
      if Enabled(s, t, a) {
        StepInv(s, t, a);
        StepOnly(s, t, a);
        SameThreads(Step(s, t, a), schedule[1..]);
      } else {
        SameThreads(s, schedule[1..]);
      }
    }
  }

  // ------------------------------------------------- taking S while holding X

  /** The thread holds the flag, has a slot, and has asked for a shared lock on top. */
  ghost predicate SelfBlocked(s: State, t: nat) {
    && t < |s.threads| && s.holder == t && Depth(s.threads[t]) > 0
    && s.threads[t].shared == 0 && s.threads[t].slot >= 0
    && s.threads[t].pc.OnSlot?
    && var pc := s.threads[t].pc.sp; pc.Load? || pc.Raise? || pc.Check? || pc.Lower? || pc.Spin?
  }

  lemma OthersKeepHolder(s: State, t: nat, a: Action)
    requires Enabled(s, t, a) && HolderOk(s, t) && s.holder != t && s.want
    ensures Step(s, t, a).holder == s.holder
  {
  }

  lemma BlockedStep(s: State, t: nat, u: nat, a: Action)
    requires Inv(s) && SelfBlocked(s, t) && Enabled(s, u, a)
    ensures SelfBlocked(Step(s, u, a), t)
  {
    StepInv(s, u, a);
    assert SlotOk(s, t) && HolderOk(s, u);
    if u != t {
      OthersKeepHolder(s, u, a);
      StepOnly(s, u, a);
    }
  }

  lemma StepOnly(s: State, t: nat, a: Action)
    requires Enabled(s, t, a)
    ensures OnlyThread(s, Step(s, t, a), t)
  {
  }

  /** A shared lock asked for through a slot by a thread that holds the flag returns in no continuation whatever. */
  lemma {:induction false} SelfBlockedForEver(s: State, t: nat, schedule: Schedule)
    requires Inv(s) && SelfBlocked(s, t)
    ensures SelfBlocked(Exec(s, schedule), t)
    decreases |schedule|
  {
    if schedule != [] {
      var (u, a) := schedule[0];
      if Enabled(s, u, a) {
        BlockedStep(s, t, u, a);
        StepInv(s, u, a);
        SelfBlockedForEver(Step(s, u, a), t, schedule[1..]);
      } else {
        SelfBlockedForEver(s, t, schedule[1..]);
      }
    }
  }

  // ------------------------------------------------------- a thread run alone

  /** The thread takes `n` steps by itself, or fewer if its call returns before. */
  function RunAlone(s: State, t: nat, n: nat): (r: State)
    requires t < |s.threads|
    ensures |r.threads| == |s.threads|
    decreases n
  {
    if n == 0 || s.threads[t].pc.Idle? then s
    else
      StepOnly(s, t, Run(false));
      RunAlone(Step(s, t, Run(false)), t, n - 1)
  }

  /** The call the thread is in returns when nobody else moves. */
  ghost predicate ReturnsAlone(s: State, t: nat)
    requires t < |s.threads|
  {
    exists n :: n >= 0 && RunAlone(s, t, n).threads[t].pc.Idle?
  }

  function Repeat(t: nat, n: nat): (r: Schedule)
    ensures |r| == n && forall i :: 0 <= i < n ==> r[i] == (t, Run(false))
  {
    seq(n, _ => (t, Run(false)))
  }

  lemma {:induction false} SkipsIdle(s: State, t: nat, n: nat)
    requires Inv(s) && t < |s.threads| && s.threads[t].pc.Idle?
    ensures Exec(s, Repeat(t, n)) == s
    decreases n
  {
    if n > 0 {
      SkipsIdle(s, t, n - 1);
      assert Repeat(t, n)[1..] == Repeat(t, n - 1);
    }
  }

  /** Running alone is one of the schedules. */
  lemma {:induction false} AloneIsSchedule(s: State, t: nat, n: nat)
    requires Inv(s) && t < |s.threads|
    ensures Inv(RunAlone(s, t, n)) && Exec(s, Repeat(t, n)) == RunAlone(s, t, n)
    decreases n
  {
    if n > 0 {
      assert Repeat(t, n)[1..] == Repeat(t, n - 1);
      if s.threads[t].pc.Idle? {
        SkipsIdle(s, t, n);
      } else {
        StepInv(s, t, Run(false));
        StepOnly(s, t, Run(false));
        AloneIsSchedule(Step(s, t, Run(false)), t, n - 1);
      }
    }
  }

  lemma {:induction false} BlockedAlone(s: State, t: nat, n: nat)
    requires Inv(s) && SelfBlocked(s, t)
    ensures SelfBlocked(RunAlone(s, t, n), t)
  {
    AloneIsSchedule(s, t, n);
    SelfBlockedForEver(s, t, Repeat(t, n));
  }

  // ------------------------------------------------------- taking and releasing

  /** `unlock`, or `unlock_shared` without a slot, of the last level: the flag is down and nobody owns it. */
  function Released(s: State, t: nat, kind: Kind): State
    requires t < |s.threads|
  {
    Put(s, t, Lose(s.threads[t], kind, Idle)).(want := false, owner := NOBODY, count := 0, holder := NOBODY)
  }

  /** ... and of any other level: one level less. */
  function Lowered(s: State, t: nat, kind: Kind): State
    requires t < |s.threads|
  {
    Put(s, t, Lose(s.threads[t], kind, Idle)).(count := s.count - 1)
  }

  lemma LowersFlag(s: State, s1: State, t: nat, kind: Kind)
    requires t < |s.threads| && s1 == Goto(s, t, OnFlag(kind, DecLoad)) && s.count > 1
    ensures |s1.threads| == |s.threads| && RunAlone(s1, t, 4) == Lowered(s, t, kind)
  {
    var s2 := Step(s1, t, Run(false));
    assert s2 == Goto(s, t, OnFlag(kind, DecStore(s.count)));
    var s3 := Step(s2, t, Run(false));
    assert s3 == Lowered(s, t, kind);
    assert RunAlone(s3, t, 2) == s3;
    assert RunAlone(s2, t, 3) == s3;
  }

  lemma ClearsFlag(s: State, s1: State, t: nat, kind: Kind)
    requires t < |s.threads| && s1 == Goto(s, t, OnFlag(kind, DecLoad)) && s.count == 1
    ensures |s1.threads| == |s.threads| && RunAlone(s1, t, 4) == Released(s, t, kind)
  {
    var s2 := Step(s1, t, Run(false));
    assert s2 == Goto(s, t, OnFlag(kind, DecStore(1)));
    var s3 := Step(s2, t, Run(false));
    assert s3 == Put(s, t, Lose(s.threads[t], kind, OnFlag(kind, ClearOwner))).(count := 0);
    var s4 := Step(s3, t, Run(false));
    assert s4 == Put(s, t, Lose(s.threads[t], kind, OnFlag(kind, ClearWant))).(count := 0, owner := NOBODY);
    var s5 := Step(s4, t, Run(false));
    assert s5 == Released(s, t, kind);
    assert RunAlone(s5, t, 0) == s5;
    assert RunAlone(s4, t, 1) == s5;
    assert RunAlone(s3, t, 2) == s5;
    assert RunAlone(s2, t, 3) == s5;
  }

  /** `unlock` gives up one level, and with the last one the flag. */
  lemma UnlockReleases(s: State, t: nat)
    requires Inv(s) && Enabled(s, t, Unlock)
    ensures |Start(s, t, Unlock).threads| == |s.threads|
    ensures var r := RunAlone(Start(s, t, Unlock), t, 4);
            && r.threads[t] == s.threads[t].(exclusive := s.threads[t].exclusive - 1)
            && (Depth(s.threads[t]) == 1 ==> !r.want && r.owner == NOBODY && r.count == 0)
            && (Depth(s.threads[t]) > 1 ==> r.want && r.owner == t && r.count == s.count - 1)
            && r.slots == s.slots && forall u :: 0 <= u < |s.threads| && u != t ==> r.threads[u] == s.threads[u]
  {
    assert HolderOk(s, t);
    if s.count == 1 { ClearsFlag(s, Start(s, t, Unlock), t, Exclusive); } else { LowersFlag(s, Start(s, t, Unlock), t, Exclusive); }
  }

  /** `unlock_shared` of a reader without a slot does the same. */
  lemma UnlockFallbackReleases(s: State, t: nat)
    requires Inv(s) && Enabled(s, t, UnlockShared) && s.threads[t].slot < 0
    ensures |Start(s, t, UnlockShared).threads| == |s.threads|
    ensures var r := RunAlone(Start(s, t, UnlockShared), t, 4);
            && r.threads[t] == s.threads[t].(fallback := s.threads[t].fallback - 1)
            && (Depth(s.threads[t]) == 1 ==> !r.want && r.owner == NOBODY && r.count == 0)
            && (Depth(s.threads[t]) > 1 ==> r.want && r.owner == t && r.count == s.count - 1)
            && r.slots == s.slots && forall u :: 0 <= u < |s.threads| && u != t ==> r.threads[u] == s.threads[u]
  {
    assert HolderOk(s, t);
    if s.count == 1 { ClearsFlag(s, Start(s, t, UnlockShared), t, Fallback); } else { LowersFlag(s, Start(s, t, UnlockShared), t, Fallback); }
  }

  /** `unlock_shared` of a reader with a slot lowers its slot by one, at any depth. */
  lemma UnlockSlotReleases(s: State, t: nat)
    requires Inv(s) && Enabled(s, t, UnlockShared) && s.threads[t].slot >= 0
    ensures |Start(s, t, UnlockShared).threads| == |s.threads| && s.threads[t].slot < |s.slots|
    ensures var me := s.threads[t];
            RunAlone(Start(s, t, UnlockShared), t, 2)
            == Put(s, t, me.(shared := me.shared - 1)).(slots := s.slots[me.slot := me.shared])
  {
    assert SlotOk(s, t);
    var s1 := Start(s, t, UnlockShared);
    var s2 := Step(s1, t, Run(false));
    var s3 := Step(s2, t, Run(false));
    assert RunAlone(s3, t, 0) == s3 && RunAlone(s2, t, 1) == s3;
  }

  /** A thread that holds nothing gives its slot back. */
  lemma UnregisterFrees(s: State, t: nat)
    requires Inv(s) && Enabled(s, t, Unregister)
    ensures s.threads[t].slot < |s.slots|
    ensures Start(s, t, Unregister) == Put(s, t, s.threads[t].(slot := -1)).(slots := s.slots[s.threads[t].slot := 0])
  {
    assert SlotOk(s, t);
  }

  /** Inside `lock` or `lock_shared`. */
  predicate Acquiring(pc: Pc) {
    match pc
    case Idle => false
    case OnSlot(p) => !p.LeaveLoad? && !p.Leave?
    case OnFlag(_, p) => p.Owner? || p.Want? || p.SetOwner? || p.Scan? || p.IncLoad? || p.IncStore?
  }

  /** The thread holds what it held before, and one level more of what the call asked for. */
  ghost predicate GotIn(before: Thread, after: Thread, exclusive: bool) {
    && after.pc.Idle?
    && if exclusive then after == before.(pc := Idle, exclusive := before.exclusive + 1)
       else
         || (before.fallback + 1 == after.fallback && after == before.(pc := Idle, fallback := after.fallback))
         || (before.shared + 1 == after.shared && after == before.(pc := Idle, shared := after.shared))
  }

  predicate Exclusively(pc: Pc) {
    pc.OnFlag? && pc.kind.Exclusive?
  }

  /** A call for a lock goes on until the thread holds it; nothing else ends it. */
  lemma AcquireStep(s: State, t: nat, a: Action)
    requires Enabled(s, t, a) && Acquiring(s.threads[t].pc)
    ensures var s' := Step(s, t, a);
            && |s'.threads| == |s.threads|
            && (var me, me' := s.threads[t], s'.threads[t];
                || (Acquiring(me'.pc) && Exclusively(me'.pc) == Exclusively(me.pc)
                    && me'.shared == me.shared && me'.exclusive == me.exclusive && me'.fallback == me.fallback)
                || GotIn(me, me', Exclusively(me.pc)))
  {
    match s.threads[t].pc
    case OnSlot(pc) => AcquireSlot(s, t, pc);
    case OnFlag(kind, pc) => AcquireFlag(s, t, kind, pc, a.spurious);
  }

  lemma AcquireSlot(s: State, t: nat, pc: SlotPc)
    requires t < |s.threads| && s.threads[t].pc == OnSlot(pc) && Acquiring(OnSlot(pc))
    ensures var s' := SlotStep(s, t, pc);
            && |s'.threads| == |s.threads|
            && (var me, me' := s.threads[t], s'.threads[t];
                || (Acquiring(me'.pc) && !Exclusively(me'.pc)
                    && me'.shared == me.shared && me'.exclusive == me.exclusive && me'.fallback == me.fallback)
                || GotIn(me, me', false))
  {
  }

  lemma AcquireFlag(s: State, t: nat, kind: Kind, pc: FlagPc, spurious: bool)
    requires t < |s.threads| && s.threads[t].pc == OnFlag(kind, pc) && Acquiring(OnFlag(kind, pc))
    ensures var s' := FlagStep(s, t, kind, pc, spurious);
            && |s'.threads| == |s.threads|
            && (var me, me' := s.threads[t], s'.threads[t];
                || (Acquiring(me'.pc) && Exclusively(me'.pc) == kind.Exclusive?
                    && me'.shared == me.shared && me'.exclusive == me.exclusive && me'.fallback == me.fallback)
                || GotIn(me, me', kind.Exclusive?))
  {
  }

  /** The step at `n` is the thread's, and gives it the lock. */
  ghost predicate GotInAt(s: State, t: nat, exclusive: bool, schedule: Schedule, n: nat)
    requires Inv(s) && n < |schedule|
  {
    var m, e := Exec(s, schedule[..n]), schedule[n];
    e.0 == t && Enabled(m, t, e.1) && t < |Step(m, t, e.1).threads| && GotIn(m.threads[t], Step(m, t, e.1).threads[t], exclusive)
  }

  lemma ExecTail(s: State, schedule: Schedule, n: nat)
    requires Inv(s) && n < |schedule|
    ensures var (t, a) := schedule[0];
            var s1 := if Enabled(s, t, a) then Step(s, t, a) else s;
            Inv(s1) && Exec(s, schedule[..n + 1]) == Exec(s1, schedule[1..][..n])
  {
    var (t, a) := schedule[0];
    if Enabled(s, t, a) { StepInv(s, t, a); }
    assert schedule[..n + 1][1..] == schedule[1..][..n];
  }

  /** In every interleaving: a call for a lock is still under way, or ended with the thread holding it. */
  lemma {:induction false} AcquireInAnyRun(s: State, t: nat, schedule: Schedule)
    requires Inv(s) && t < |s.threads| && Acquiring(s.threads[t].pc)
    ensures (t < |Exec(s, schedule).threads| && Acquiring(Exec(s, schedule).threads[t].pc))
            || exists n :: 0 <= n < |schedule| && GotInAt(s, t, Exclusively(s.threads[t].pc), schedule, n)
    decreases |schedule|
  {
    if schedule != [] {
      var (u, a) := schedule[0];
      var s1 := if Enabled(s, u, a) then Step(s, u, a) else s;
      var x := Exclusively(s.threads[t].pc);
      ExecTail(s, schedule, 0);
      assert Exec(s, schedule[..0]) == s;
      if Enabled(s, u, a) {
        StepOnly(s, u, a);
        if u == t { AcquireStep(s, t, a); }
      }
      if Acquiring(s1.threads[t].pc) {
        AcquireInAnyRun(s1, t, schedule[1..]);
        if n :| 0 <= n < |schedule[1..]| && GotInAt(s1, t, x, schedule[1..], n) {
          ExecTail(s, schedule, n);
          assert GotInAt(s, t, x, schedule, n + 1);
        }
      } else {
        assert GotInAt(s, t, x, schedule, 0);
      }
    }
  }

  /** The mutex is free and no reader is inside. */
  predicate FreeAndDrained(s: State) {
    !s.want && forall i :: 0 <= i < |s.slots| ==> s.slots[i] <= 1
  }

  lemma {:induction false} ScansThrough(s: State, s1: State, t: nat, i: nat, n: nat)
    requires t < |s.threads| && i <= |s.slots| && (forall j :: 0 <= j < |s.slots| ==> s.slots[j] <= 1)
    requires s1 == Goto(s, t, OnFlag(Exclusive, Scan(i))) && n == |s.slots| - i + 3
    ensures |s1.threads| == |s.threads|
    ensures RunAlone(s1, t, n) == Put(s, t, Gain(s.threads[t], Exclusive)).(count := s.count + 1)
    decreases |s.slots| - i
  {
    var s2 := Step(s1, t, Run(false));
    if i < |s.slots| {
      assert s2 == Goto(s, t, OnFlag(Exclusive, Scan(i + 1)));
      ScansThrough(s, s2, t, i + 1, n - 1);
    } else {
      assert s2 == Goto(s, t, OnFlag(Exclusive, IncLoad));
      CountsUp(s, s2, t, Exclusive);
    }
  }

  lemma CountsUp(s: State, s1: State, t: nat, kind: Kind)
    requires t < |s.threads| && s1 == Goto(s, t, OnFlag(kind, IncLoad))
    ensures |s1.threads| == |s.threads|
    ensures RunAlone(s1, t, 2) == Put(s, t, Gain(s.threads[t], kind)).(count := s.count + 1)
  {
    var s2 := Step(s1, t, Run(false));
    var s3 := Step(s2, t, Run(false));
    assert s2 == Goto(s, t, OnFlag(kind, IncStore(s.count)));
    assert s3 == Put(s, t, Gain(s.threads[t], kind)).(count := s.count + 1);
    assert RunAlone(s3, t, 0) == s3 && RunAlone(s2, t, 1) == s3;
  }

  /** The state in which the thread owns the flag and holds nothing yet. */
  function Flagged(s: State, t: nat): State {
    s.(want := true, owner := t, holder := t)
  }

  lemma TakesFlag(s: State, s1: State, t: nat, kind: Kind, n: nat)
    requires t < |s.threads| && !s.want && s.owner != t && s1 == Goto(s, t, OnFlag(kind, Owner))
    ensures |s1.threads| == |s.threads| == |Goto(Flagged(s, t), t, Idle).threads|
    ensures RunAlone(s1, t, n + 3) == RunAlone(Goto(Flagged(s, t), t, OnFlag(kind, if kind.Exclusive? then Scan(0) else IncLoad)), t, n)
  {
    var s2 := Step(s1, t, Run(false));
    var s3 := Step(s2, t, Run(false));
    var s4 := Step(s3, t, Run(false));
    assert s2 == Goto(s, t, OnFlag(kind, Want));
    assert s3 == Goto(s, t, OnFlag(kind, SetOwner)).(want := true, holder := t);
    assert s4 == Goto(Flagged(s, t), t, OnFlag(kind, if kind.Exclusive? then Scan(0) else IncLoad));
    assert RunAlone(s1, t, n + 3) == RunAlone(s2, t, n + 2) == RunAlone(s3, t, n + 1) == RunAlone(s4, t, n);
  }

  /** `lock` on a free, drained mutex returns holding it. */
  lemma LockTakes(s: State, t: nat)
    requires Inv(s) && Enabled(s, t, Lock) && FreeAndDrained(s)
    ensures |Start(s, t, Lock).threads| == |s.threads|
    ensures RunAlone(Start(s, t, Lock), t, |s.slots| + 6)
            == Put(Flagged(s, t), t, s.threads[t].(exclusive := s.threads[t].exclusive + 1)).(count := 1)
  {
    assert HolderOk(s, t);
    TakesFlag(s, Start(s, t, Lock), t, Exclusive, |s.slots| + 3);
    ScansThrough(Flagged(s, t), Goto(Flagged(s, t), t, OnFlag(Exclusive, Scan(0))), t, 0, |s.slots| + 3);
  }

  /** `lock_shared` without a slot on a free mutex returns holding the flag. */
  lemma FallbackTakes(s: State, t: nat)
    requires Inv(s) && Enabled(s, t, LockShared(false)) && s.threads[t].slot < 0 && !s.want
    ensures |Start(s, t, LockShared(false)).threads| == |s.threads|
    ensures RunAlone(Start(s, t, LockShared(false)), t, 5)
            == Put(Flagged(s, t), t, s.threads[t].(fallback := s.threads[t].fallback + 1)).(count := 1)
  {
    assert HolderOk(s, t);
    TakesFlag(s, Start(s, t, LockShared(false)), t, Fallback, 2);
    CountsUp(Flagged(s, t), Goto(Flagged(s, t), t, OnFlag(Fallback, IncLoad)), t, Fallback);
  }

  /** The thread reads through its slot, one level deeper than in `s`. */
  function Reading(s: State, t: nat): State
    requires t < |s.threads| && 0 <= s.threads[t].slot < |s.slots|
  {
    var me := s.threads[t];
    Put(s, t, me.(pc := Idle, shared := me.shared + 1)).(slots := s.slots[me.slot := me.shared + 2])
  }

  /** `lock_shared` with a slot on a free mutex, or one the thread already reads, returns one level deeper. */
  lemma SlotTakes(s: State, t: nat)
    requires Inv(s) && Enabled(s, t, LockShared(true)) && s.threads[t].slot >= 0 && (!s.want || s.threads[t].shared > 0)
    ensures |Start(s, t, LockShared(true)).threads| == |s.threads| && s.threads[t].slot < |s.slots|
    ensures RunAlone(Start(s, t, LockShared(true)), t, 3) == Reading(s, t)
  {
    assert SlotOk(s, t);
    var s1 := Start(s, t, LockShared(true));
    var s2 := Step(s1, t, Run(false));
    var s3 := Step(s2, t, Run(false));
    if s.threads[t].shared > 0 {
      assert s3 == Reading(s, t);
      assert RunAlone(s3, t, 1) == s3 && RunAlone(s2, t, 2) == s3;
    } else {
      var s4 := Step(s3, t, Run(false));
      assert s4 == Reading(s, t);
      assert RunAlone(s4, t, 0) == s4 && RunAlone(s3, t, 1) == s4 && RunAlone(s2, t, 2) == s4;
    }
  }

  /** The first free slot from `i` on. */
  ghost predicate FirstFree(s: State, i: nat, j: nat) {
    i <= j < |s.slots| && s.slots[j] == 0 && forall l :: i <= l < j ==> s.slots[l] != 0
  }

  /** The thread has taken slot `j` and not yet read. */
  function Seated(s: State, t: nat, j: nat): State
    requires t < |s.threads| && j < |s.slots|
  {
    Put(s, t, s.threads[t].(pc := OnSlot(Load), slot := j)).(slots := s.slots[j := 1])
  }

  lemma {:induction false} Registers(s: State, s1: State, t: nat, i: nat, j: nat, n: nat)
    requires t < |s.threads| && FirstFree(s, i, j) && s1 == Goto(s, t, OnSlot(RegLoad(i)))
    ensures |s1.threads| == |s.threads| == |Seated(s, t, j).threads|
    ensures RunAlone(s1, t, n + (j - i) + 2) == RunAlone(Seated(s, t, j), t, n)
    decreases j - i
  {
    var s2 := Step(s1, t, Run(false));
    if i < j {
      assert s2 == Goto(s, t, OnSlot(RegLoad(i + 1)));
      Registers(s, s2, t, i + 1, j, n);
    } else {
      assert s2 == Goto(s, t, OnSlot(RegCas(i)));
      var s3 := Step(s2, t, Run(false));
      assert s3 == Seated(s, t, j);
      assert RunAlone(s2, t, n + 1) == RunAlone(s3, t, n);
    }
  }

  lemma SeatedReads(s: State, t: nat, j: nat)
    requires t < |s.threads| && j < |s.slots| && !s.want && s.threads[t].shared == 0
    ensures |Seated(s, t, j).threads| == |s.threads|
    ensures RunAlone(Seated(s, t, j), t, 3) == Put(s, t, s.threads[t].(pc := Idle, slot := j, shared := 1)).(slots := s.slots[j := 2])
  {
    var s1 := Seated(s, t, j);
    var s2 := Step(s1, t, Run(false));
    var s3 := Step(s2, t, Run(false));
    var s4 := Step(s3, t, Run(false));
    assert s4 == Put(s, t, s.threads[t].(pc := Idle, slot := j, shared := 1)).(slots := s.slots[j := 2]);
    assert RunAlone(s4, t, 0) == s4 && RunAlone(s3, t, 1) == s4 && RunAlone(s2, t, 2) == s4;
  }

  /** `lock_shared` of a thread without a slot takes the first free one, on a free mutex, and reads through it. */
  lemma RegisterTakes(s: State, t: nat, j: nat)
    requires Inv(s) && Enabled(s, t, LockShared(true)) && s.threads[t].slot < 0 && !s.want && FirstFree(s, 0, j)
    ensures |Start(s, t, LockShared(true)).threads| == |s.threads|
    ensures RunAlone(Start(s, t, LockShared(true)), t, j + 5) == Put(s, t, s.threads[t].(slot := j, shared := 1)).(slots := s.slots[j := 2])
  {
    assert SlotOk(s, t);
    Registers(s, Start(s, t, LockShared(true)), t, 0, j, 3);
    SeatedReads(s, t, j);
  }

  lemma RaiseReads(s: State, s1: State, t: nat)
    requires t < |s.threads| && 0 <= s.threads[t].slot < |s.slots| && s.threads[t].shared == 0 && !s.want
    requires s1 == Goto(s, t, OnSlot(Raise))
    ensures |s1.threads| == |s.threads| && RunAlone(s1, t, 2) == Reading(s, t)
  {
    var s2 := Step(s1, t, Run(false));
    assert s2 == Goto(s, t, OnSlot(Check)).(slots := s.slots[s.threads[t].slot := 2]);
    var s3 := Step(s2, t, Run(false));
    assert s3 == Reading(s, t);
    assert RunAlone(s3, t, 0) == s3;
    assert RunAlone(s2, t, 1) == s3;
  }

  /** A reader that waits for the flag gets in once it is down. */
  lemma SpinnerGetsIn(s: State, t: nat)
    requires Inv(s) && t < |s.threads| && s.threads[t].pc == OnSlot(Spin) && !s.want
    ensures s.threads[t].slot < |s.slots| && s.threads[t].slot >= 0
    ensures RunAlone(s, t, 3) == Reading(s, t)
  {
    assert SlotOk(s, t);
    assert Step(s, t, Run(false)) == Goto(s, t, OnSlot(Raise));
    RaiseReads(s, Goto(s, t, OnSlot(Raise)), t);
  }

  // ------------------------------------------- exactly when recursion works

  /** The thread holds the flag and is between calls. */
  ghost predicate HoldsFlag(s: State, t: nat) {
    Inv(s) && t < |s.threads| && s.threads[t].pc.Idle? && Depth(s.threads[t]) > 0
  }

  /** X inside X always works: the call returns in three steps with one level more. */
  lemma ExclusiveInsideExclusive(s: State, t: nat)
    requires HoldsFlag(s, t) && Enabled(s, t, Lock)
    ensures |Start(s, t, Lock).threads| == |s.threads|
    ensures RunAlone(Start(s, t, Lock), t, 3) == Put(s, t, s.threads[t].(exclusive := s.threads[t].exclusive + 1)).(count := s.count + 1)
  {
    assert HolderOk(s, t);
    var s1 := Start(s, t, Lock);
    FallsThrough(s, s1, t, Exclusive);
  }

  /** A thread that owns the flag only counts up. */
  lemma FallsThrough(s: State, s1: State, t: nat, kind: Kind)
    requires t < |s.threads| && s.owner == t && s1 == Goto(s, t, OnFlag(kind, Owner))
    ensures |s1.threads| == |s.threads|
    ensures RunAlone(s1, t, 3) == Put(s, t, Gain(s.threads[t], kind)).(count := s.count + 1)
  {
    var s2 := Step(s1, t, Run(false));
    var s3 := Step(s2, t, Run(false));
    var s4 := Step(s3, t, Run(false));
    assert s2 == Goto(s, t, OnFlag(kind, IncLoad));
    assert s3 == Goto(s, t, OnFlag(kind, IncStore(s.count)));
    assert s4 == Put(s, t, Gain(s.threads[t], kind)).(count := s.count + 1);
    assert RunAlone(s4, t, 0) == s4;
    assert RunAlone(s3, t, 1) == s4;
    assert RunAlone(s2, t, 2) == s4;
  }

  /** No slot is free. */
  predicate Full(s: State) {
    forall i :: 0 <= i < |s.slots| ==> s.slots[i] != 0
  }

  /** What a caller that holds the flag must know before it calls `lock_shared`. */
  predicate MayShare(s: State, t: nat, register: bool)
    requires t < |s.threads|
  {
    s.threads[t].shared > 0 || (s.threads[t].slot < 0 && (!register || Full(s)))
  }

  lemma StepReturns(s: State, t: nat)
    requires t < |s.threads| && !s.threads[t].pc.Idle?
    ensures |Step(s, t, Run(false)).threads| == |s.threads|
    ensures ReturnsAlone(Step(s, t, Run(false)), t) ==> ReturnsAlone(s, t)
  {
    StepOnly(s, t, Run(false));
    var s' := Step(s, t, Run(false));
    if ReturnsAlone(s', t) {
      var n :| n >= 0 && RunAlone(s', t, n).threads[t].pc.Idle?;
      assert RunAlone(s, t, n + 1) == RunAlone(s', t, n);
    }
  }

  /** The search for a free slot runs off the end of a full array, and the call falls back on the flag. */
  lemma {:induction false} FullFallsBack(s: State, s1: State, t: nat, i: nat)
    requires t < |s.threads| && s.owner == t && Full(s) && i <= |s.slots| && s1 == Goto(s, t, OnSlot(RegLoad(i)))
    ensures |s1.threads| == |s.threads| && ReturnsAlone(s1, t)
    decreases |s.slots| - i
  {
    var s2 := Step(s1, t, Run(false));
    StepReturns(s1, t);
    if i < |s.slots| {
      assert s2 == Goto(s, t, OnSlot(RegLoad(i + 1)));
      FullFallsBack(s, s2, t, i + 1);
    } else {
      assert s2 == Goto(s, t, OnFlag(Fallback, Owner));
      FallsThrough(s, s2, t, Fallback);
      assert RunAlone(s2, t, 3).threads[t].pc.Idle?;
    }
  }

  /** The thread searches for a slot inside `lock_shared` while it holds the flag. */
  ghost predicate Registering(s: State, t: nat) {
    && t < |s.threads| && s.holder == t && Depth(s.threads[t]) > 0
    && s.threads[t].shared == 0 && s.threads[t].slot == -1
    && s.threads[t].pc.OnSlot? && (s.threads[t].pc.sp.RegLoad? || s.threads[t].pc.sp.RegCas?)
  }

  /** Its search will find a slot if nobody else moves. */
  ghost predicate WillFind(s: State, t: nat) {
    && Registering(s, t)
    && (s.threads[t].pc.sp.RegLoad? ==> exists j :: s.threads[t].pc.sp.i <= j < |s.slots| && s.slots[j] == 0)
    && (s.threads[t].pc.sp.RegCas? ==> s.threads[t].pc.sp.free < |s.slots| && s.slots[s.threads[t].pc.sp.free] == 0)
  }

  lemma FindsSlot(s: State, t: nat)
    requires Inv(s) && WillFind(s, t)
    ensures WillFind(Step(s, t, Run(false)), t) || SelfBlocked(Step(s, t, Run(false)), t)
  {
    StepInv(s, t, Run(false));
    var s' := Step(s, t, Run(false));
    if s.threads[t].pc.sp.RegLoad? && s'.threads[t].pc.sp.RegLoad? {
      var j :| s.threads[t].pc.sp.i <= j < |s.slots| && s.slots[j] == 0;
      assert s'.slots[j] == 0;
    }
  }

  lemma {:induction false} NeverReturnsAlone(s: State, t: nat, n: nat)
    requires Inv(s) && (WillFind(s, t) || SelfBlocked(s, t))
    ensures !RunAlone(s, t, n).threads[t].pc.Idle?
    decreases n
  {
    if SelfBlocked(s, t) {
      BlockedAlone(s, t, n);
    } else if n > 0 {
      FindsSlot(s, t);
      StepInv(s, t, Run(false));
      StepOnly(s, t, Run(false));
      NeverReturnsAlone(Step(s, t, Run(false)), t, n - 1);
    }
  }

  lemma ShareReturns(s: State, t: nat, register: bool)
    requires HoldsFlag(s, t) && MayShare(s, t, register)
    ensures Enabled(s, t, LockShared(register)) && |Start(s, t, LockShared(register)).threads| == |s.threads|
    ensures ReturnsAlone(Start(s, t, LockShared(register)), t)
  {
    assert HolderOk(s, t) && SlotOk(s, t);
    var me, s1 := s.threads[t], Start(s, t, LockShared(register));
    if me.shared > 0 {
      var s2 := Step(s1, t, Run(false));
      var s3 := Step(s2, t, Run(false));
      assert s3.threads[t].pc.Idle? && RunAlone(s3, t, 0) == s3 && RunAlone(s2, t, 1) == s3 && RunAlone(s1, t, 2) == s3;
    } else if register {
      FullFallsBack(s, s1, t, 0);
    } else {
      FallsThrough(s, s1, t, Fallback);
      assert RunAlone(s1, t, 3).threads[t].pc.Idle?;
    }
  }

  lemma ShareBlocks(s: State, t: nat, register: bool)
    requires HoldsFlag(s, t) && !MayShare(s, t, register)
    ensures Enabled(s, t, LockShared(register)) && |Start(s, t, LockShared(register)).threads| == |s.threads|
    ensures !ReturnsAlone(Start(s, t, LockShared(register)), t)
  {
    assert HolderOk(s, t) && SlotOk(s, t);
    var s1 := Start(s, t, LockShared(register));
    StepInv(s, t, LockShared(register));
    if s.threads[t].slot < 0 {
      var j :| 0 <= j < |s.slots| && s.slots[j] == 0;
      assert s1.slots[j] == 0 && WillFind(s1, t);
    }
    forall n: nat ensures !RunAlone(s1, t, n).threads[t].pc.Idle? { NeverReturnsAlone(s1, t, n); }
  }

  /**
   The comment above the class promises that a shared lock may be taken inside an
   exclusive one, and inside a shared one.  For a thread that holds the flag, through
   `lock` or as a reader without a slot, this is so exactly when it already reads
   through its slot, or has no slot and the call finds none for it.
   */
  lemma SharedInsideFlagIff(s: State, t: nat, register: bool)
    requires HoldsFlag(s, t)
    ensures Enabled(s, t, LockShared(register)) && |Start(s, t, LockShared(register)).threads| == |s.threads|
    ensures ReturnsAlone(Start(s, t, LockShared(register)), t) <==> MayShare(s, t, register)
  {
    if MayShare(s, t, register) { ShareReturns(s, t, register); } else { ShareBlocks(s, t, register); }
  }

  // --------------------------------------------------- the same among others

  /** The call has found no slot and goes through the flag, which the thread owns. */
  ghost predicate FallingBack(s: State, t: nat) {
    && t < |s.threads| && s.holder == t && s.threads[t].slot == -1 && Depth(s.threads[t]) > 0
    && s.threads[t].pc.OnFlag? && s.threads[t].pc.kind.Fallback?
    && (s.threads[t].pc.fp.Owner? || s.threads[t].pc.fp.IncLoad? || s.threads[t].pc.fp.IncStore?)
  }

  /** The thread is inside a `lock_shared` that it called while it held the flag. */
  ghost predicate Calling(s: State, t: nat) {
    Registering(s, t) || FallingBack(s, t) || SelfBlocked(s, t)
  }

  lemma CallingStep(s: State, t: nat, u: nat, a: Action)
    requires Inv(s) && Calling(s, t) && Enabled(s, u, a)
    ensures var s' := Step(s, u, a);
            && |s'.threads| == |s.threads| && (s'.threads[t].pc.Idle? || Calling(s', t))
            && (FallingBack(s, t) ==> s'.threads[t].pc.Idle? || FallingBack(s', t))
  {
    StepInv(s, u, a);
    StepOnly(s, u, a);
    assert SlotOk(s, t) && HolderOk(s, t) && HolderOk(s, u);
    if u != t { OthersKeepHolder(s, u, a); }
  }

  /** At some point of the schedule the thread is between calls. */
  ghost predicate Returned(s: State, t: nat, schedule: Schedule)
    requires Inv(s)
  {
    exists n :: 0 <= n <= |schedule| && IdleAfter(s, t, schedule[..n])
  }

  ghost predicate IdleAfter(s: State, t: nat, schedule: Schedule)
    requires Inv(s)
  {
    t < |Exec(s, schedule).threads| && Exec(s, schedule).threads[t].pc.Idle?
  }

  lemma ReturnedLater(s: State, t: nat, schedule: Schedule)
    requires Inv(s) && schedule != []
    ensures var (u, a) := schedule[0];
            var s' := if Enabled(s, u, a) then Step(s, u, a) else s;
            Inv(s') && (Returned(s', t, schedule[1..]) ==> Returned(s, t, schedule))
  {
    var (u, a) := schedule[0];
    var s' := if Enabled(s, u, a) then Step(s, u, a) else s;
    if Enabled(s, u, a) { StepInv(s, u, a); }
    if Returned(s', t, schedule[1..]) {
      var n :| 0 <= n <= |schedule[1..]| && IdleAfter(s', t, schedule[1..][..n]);
      assert schedule[..n + 1][1..] == schedule[1..][..n];
      assert IdleAfter(s, t, schedule[..n + 1]);
    }
  }

  /**
   In every interleaving: as long as the call has not returned it is blocked for ever
   exactly when it ended up with a slot, and once it has fallen back on the flag it
   never blocks.
   */
  lemma {:induction false} CallAmongOthers(s: State, t: nat, schedule: Schedule)
    requires Inv(s) && Calling(s, t)
    ensures Returned(s, t, schedule) || Calling(Exec(s, schedule), t)
    ensures FallingBack(s, t) ==> Returned(s, t, schedule) || FallingBack(Exec(s, schedule), t)
    ensures !Returned(s, t, schedule) ==> (SelfBlocked(Exec(s, schedule), t) <==> Exec(s, schedule).threads[t].slot >= 0)
    decreases |schedule|
  {
    if schedule != [] {
      var (u, a) := schedule[0];
      ReturnedLater(s, t, schedule);
      if Enabled(s, u, a) {
        CallingStep(s, t, u, a);
        var s' := Step(s, u, a);
        if s'.threads[t].pc.Idle? {
          assert IdleAfter(s', t, schedule[1..][..0]);
          assert Returned(s', t, schedule[1..]);
        } else {
          CallAmongOthers(s', t, schedule[1..]);
        }
      } else {
        CallAmongOthers(s, t, schedule[1..]);
      }
    }
  }

  /** That is how every such call begins. */
  lemma CallBegins(s: State, t: nat, register: bool)
    requires HoldsFlag(s, t) && s.threads[t].shared == 0
    ensures Enabled(s, t, LockShared(register)) && Calling(Start(s, t, LockShared(register)), t)
  {
    assert HolderOk(s, t) && SlotOk(s, t);
  }

  // ------------------------------------------------------------ both do happen

  ghost predicate Reachable(threads: nat, slots: nat, s: State) {
    exists schedule :: Inv(Init(threads, slots)) && Exec(Init(threads, slots), schedule) == s
  }

  lemma {:induction false} ExecSnoc(s: State, schedule: Schedule, t: nat, a: Action)
    requires Inv(s) && Enabled(Exec(s, schedule), t, a)
    ensures Exec(s, schedule + [(t, a)]) == Step(Exec(s, schedule), t, a)
    decreases |schedule|
  {
    var all := schedule + [(t, a)];
    if schedule == [] {
      StepInv(s, t, a);
      assert Exec(Step(s, t, a), all[1..]) == Step(s, t, a);
    } else {
      var (u, b) := schedule[0];
      assert all[1..] == schedule[1..] + [(t, a)];
      if Enabled(s, u, b) {
        StepInv(s, u, b);
        ExecSnoc(Step(s, u, b), schedule[1..], t, a);
      } else {
        ExecSnoc(s, schedule[1..], t, a);
      }
    }
  }

  lemma ReachStep(threads: nat, slots: nat, s: State, t: nat, a: Action)
    requires Reachable(threads, slots, s) && Enabled(s, t, a)
    ensures Reachable(threads, slots, Step(s, t, a))
  {
    var schedule :| Inv(Init(threads, slots)) && Exec(Init(threads, slots), schedule) == s;
    ExecSnoc(Init(threads, slots), schedule, t, a);
  }

  lemma {:induction false} ReachAlone(threads: nat, slots: nat, s: State, t: nat, n: nat)
    requires Reachable(threads, slots, s) && t < |s.threads|
    ensures Reachable(threads, slots, RunAlone(s, t, n))
    decreases n
  {
    if n > 0 && !s.threads[t].pc.Idle? {
      ReachStep(threads, slots, s, t, Run(false));
      StepOnly(s, t, Run(false));
      ReachAlone(threads, slots, Step(s, t, Run(false)), t, n - 1);
    }
  }

  lemma ReachInit(threads: nat, slots: nat)
    ensures Reachable(threads, slots, Init(threads, slots))
  {
    InitInv(threads, slots);
    assert Exec(Init(threads, slots), []) == Init(threads, slots);
  }

  /** Calls `a` and runs it alone for `n` steps. */
  function Perform(s: State, t: nat, a: Action, n: nat): State
    requires Enabled(s, t, a)
  {
    StepOnly(s, t, a);
    RunAlone(Step(s, t, a), t, n)
  }

  lemma ReachPerform(threads: nat, slots: nat, s: State, t: nat, a: Action, n: nat)
    requires Reachable(threads, slots, s) && Enabled(s, t, a)
    ensures Reachable(threads, slots, Perform(s, t, a, n))
  {
    ReachStep(threads, slots, s, t, a);
    StepOnly(s, t, a);
    ReachAlone(threads, slots, Step(s, t, a), t, n);
  }

  function Lone(pc: Pc, slot: int, shared: nat, exclusive: nat, fallback: nat): seq<Thread> {
    [Thread(pc, slot, shared, exclusive, fallback)]
  }

  /** One thread and one slot: `lock` runs through and registers nothing. */
  lemma LoneLock()
    ensures Init(1, 1) == State(false, NOBODY, [0], 0, Lone(Idle, -1, 0, 0, 0), NOBODY)
    ensures Perform(Init(1, 1), 0, Lock, 7) == State(true, 0, [0], 1, Lone(Idle, -1, 0, 1, 0), 0)
  {
    var z := Init(1, 1);
    assert z == State(false, NOBODY, [0], 0, Lone(Idle, -1, 0, 0, 0), NOBODY);
    var r, r0 := Run(false), Step(z, 0, Lock);
    var r1 := Step(r0, 0, r);
    var r2 := Step(r1, 0, r);
    var r3 := Step(r2, 0, r);
    var r4 := Step(r3, 0, r);
    var r5 := Step(r4, 0, r);
    var r6 := Step(r5, 0, r);
    var r7 := Step(r6, 0, r);
    assert r3 == State(true, 0, [0], 0, Lone(OnFlag(Exclusive, Scan(0)), -1, 0, 0, 0), 0);
    assert r7 == State(true, 0, [0], 1, Lone(Idle, -1, 0, 1, 0), 0);
    assert RunAlone(r7, 0, 0) == r7 && RunAlone(r6, 0, 1) == r7 && RunAlone(r5, 0, 2) == r7;
    assert RunAlone(r4, 0, 3) == r7 && RunAlone(r3, 0, 4) == r7 && RunAlone(r2, 0, 5) == r7;
    assert RunAlone(r1, 0, 6) == r7 && RunAlone(r0, 0, 7) == r7;
  }

  lemma ReachInv(threads: nat, slots: nat, s: State)
    requires Reachable(threads, slots, s)
    ensures Inv(s)
  {
  }

  lemma LoneShared(s: State)
    requires s == State(true, 0, [0], 1, Lone(Idle, -1, 0, 1, 0), 0)
    ensures Perform(s, 0, LockShared(true), 2) == State(true, 0, [1], 1, Lone(OnSlot(Load), 0, 0, 1, 0), 0)
  {
    var r0 := Step(s, 0, LockShared(true));
    var r1 := Step(r0, 0, Run(false));
    var r2 := Step(r1, 0, Run(false));
    assert r2 == State(true, 0, [1], 1, Lone(OnSlot(Load), 0, 0, 1, 0), 0);
    assert RunAlone(r2, 0, 0) == r2 && RunAlone(r1, 0, 1) == r2 && RunAlone(r0, 0, 2) == r2;
  }

  /** A reachable state in which a thread that holds the flag and has no slot calls `lock_shared` and blocks. */
  ghost predicate BlocksFrom(threads: nat, slots: nat, s: State, t: nat) {
    && Reachable(threads, slots, s) && HoldsFlag(s, t) && s.threads[t].slot == -1 && !MayShare(s, t, true)
    && SelfBlocked(Perform(s, t, LockShared(true), 2), t)
  }

  /** X then S in one thread that never had a slot: the shared call registers, and blocks. */
  lemma ExclusiveThenSharedBlocks()
    ensures exists s :: BlocksFrom(1, 1, s, 0) && s.threads[0].exclusive == 1
  {
    ReachInit(1, 1);
    LoneLock();
    ReachPerform(1, 1, Init(1, 1), 0, Lock, 7);
    var s := Perform(Init(1, 1), 0, Lock, 7);
    ReachInv(1, 1, s);
    LoneShared(s);
    assert s.slots[0] == 0;
    assert BlocksFrom(1, 1, s, 0);
  }

  /** Two threads that are between calls. */
  function Pair(slot0: int, shared0: nat, fallback1: nat): seq<Thread> {
    [Thread(Idle, slot0, shared0, 0, 0), Thread(Idle, -1, 0, 0, fallback1)]
  }

  /** The first thread takes the only slot. */
  lemma FirstReads()
    ensures Init(2, 1) == State(false, NOBODY, [0], 0, Pair(-1, 0, 0), NOBODY)
    ensures Perform(Init(2, 1), 0, LockShared(true), 5) == State(false, NOBODY, [2], 0, Pair(0, 1, 0), NOBODY)
  {
    var z := Init(2, 1);
    assert z == State(false, NOBODY, [0], 0, Pair(-1, 0, 0), NOBODY);
    var r, r0 := Run(false), Step(z, 0, LockShared(true));
    var r1 := Step(r0, 0, r);
    var r2 := Step(r1, 0, r);
    var r3 := Step(r2, 0, r);
    var r4 := Step(r3, 0, r);
    var r5 := Step(r4, 0, r);
    assert r5 == State(false, NOBODY, [2], 0, Pair(0, 1, 0), NOBODY);
    assert RunAlone(r5, 0, 0) == r5 && RunAlone(r4, 0, 1) == r5 && RunAlone(r3, 0, 2) == r5;
    assert RunAlone(r2, 0, 3) == r5 && RunAlone(r1, 0, 4) == r5 && RunAlone(r0, 0, 5) == r5;
  }

  /** The second finds no slot and reads through the flag. */
  lemma SecondFallsBack(z: State)
    requires z == State(false, NOBODY, [2], 0, Pair(0, 1, 0), NOBODY)
    ensures Perform(z, 1, LockShared(true), 7) == State(true, 1, [2], 1, Pair(0, 1, 1), 1)
  {
    var r, r0 := Run(false), Step(z, 1, LockShared(true));
    var r1 := Step(r0, 1, r);
    var r2 := Step(r1, 1, r);
    var r3 := Step(r2, 1, r);
    var r4 := Step(r3, 1, r);
    var r5 := Step(r4, 1, r);
    var r6 := Step(r5, 1, r);
    var r7 := Step(r6, 1, r);
    assert r7 == State(true, 1, [2], 1, Pair(0, 1, 1), 1);
    assert RunAlone(r7, 1, 0) == r7 && RunAlone(r6, 1, 1) == r7 && RunAlone(r5, 1, 2) == r7;
    assert RunAlone(r4, 1, 3) == r7 && RunAlone(r3, 1, 4) == r7 && RunAlone(r2, 1, 5) == r7;
    assert RunAlone(r1, 1, 6) == r7 && RunAlone(r0, 1, 7) == r7;
  }

  /** The first leaves and gives its slot up. */
  lemma FirstLeaves(z: State)
    requires z == State(true, 1, [2], 1, Pair(0, 1, 1), 1)
    ensures Perform(z, 0, UnlockShared, 2) == State(true, 1, [1], 1, Pair(0, 0, 1), 1)
    ensures Perform(State(true, 1, [1], 1, Pair(0, 0, 1), 1), 0, Unregister, 0) == State(true, 1, [0], 1, Pair(-1, 0, 1), 1)
  {
    var r0 := Step(z, 0, UnlockShared);
    var r1 := Step(r0, 0, Run(false));
    var r2 := Step(r1, 0, Run(false));
    assert r2 == State(true, 1, [1], 1, Pair(0, 0, 1), 1);
    assert RunAlone(r2, 0, 0) == r2 && RunAlone(r1, 0, 1) == r2 && RunAlone(r0, 0, 2) == r2;
    assert Step(r2, 0, Unregister) == State(true, 1, [0], 1, Pair(-1, 0, 1), 1);
  }

  /** The second reads again: now it finds the slot, and blocks. */
  lemma SecondReadsAgain(z: State)
    requires z == State(true, 1, [0], 1, Pair(-1, 0, 1), 1)
    ensures SelfBlocked(Perform(z, 1, LockShared(true), 2), 1)
  {
    var r0 := Step(z, 1, LockShared(true));
    var r1 := Step(r0, 1, Run(false));
    var r2 := Step(r1, 1, Run(false));
    assert RunAlone(r2, 1, 0) == r2 && RunAlone(r1, 1, 1) == r2 && RunAlone(r0, 1, 2) == r2;
  }

  /** S then S in a reader that had no slot the first time: the second call registers, and blocks. */
  lemma SharedThenSharedBlocks()
    ensures exists s :: BlocksFrom(2, 1, s, 1) && s.threads[1].exclusive == 0 && s.threads[1].fallback == 1
  {
    ReachInit(2, 1);
    FirstReads();
    var a := State(false, NOBODY, [2], 0, Pair(0, 1, 0), NOBODY);
    ReachPerform(2, 1, Init(2, 1), 0, LockShared(true), 5);
    SecondFallsBack(a);
    ReachPerform(2, 1, a, 1, LockShared(true), 7);
    var b := State(true, 1, [2], 1, Pair(0, 1, 1), 1);
    FirstLeaves(b);
    ReachPerform(2, 1, b, 0, UnlockShared, 2);
    ReachPerform(2, 1, State(true, 1, [1], 1, Pair(0, 0, 1), 1), 0, Unregister, 0);
    FirstGone();
  }

  lemma FirstGone()
    requires Reachable(2, 1, State(true, 1, [0], 1, Pair(-1, 0, 1), 1))
    ensures exists s :: BlocksFrom(2, 1, s, 1) && s.threads[1].exclusive == 0 && s.threads[1].fallback == 1
  {
    var s := State(true, 1, [0], 1, Pair(-1, 0, 1), 1);
    ReachInv(2, 1, s);
    SecondReadsAgain(s);
    assert s.slots[0] == 0;
    assert BlocksFrom(2, 1, s, 1);
  }
}
