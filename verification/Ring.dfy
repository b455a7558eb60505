/**
 The lock-free multi-producer / multi-consumer unicast ring (`prod_cons.h`).

 Every thread runs `push` or `pop` one atomic load, store or compare-and-swap
 at a time, and any interleaving is allowed.  Item payloads are copied word by
 word, so a reader may overlap a writer.  Memory is sequentially consistent and
 the counters do not wrap.
 */
module Ring {

  type Value = seq<int>

  /** The number of slots: `index_of` keeps the low eight bits of a counter. */
  const SLOTS: nat := 256

  function IndexOf(c: nat): (i: nat)
    ensures i < SLOTS
  {
    c % SLOTS
  }

  /** Bitwise complement over unbounded two's complement integers. */
  function Not(x: int): int {
    -1 - x
  }

  datatype Slot = Slot(data: Value, flag: int)

  /** Where a thread stands inside `push` or `pop`, with its live locals. */
  datatype Pc =
    | Idle
    | PushLoadCt(v: Value)
    | PushLoadRd(v: Value, cur: nat)
    | PushCas(v: Value, cur: nat)
    | PushWrite(v: Value, cur: nat, k: nat)
    | PushFlag(v: Value, cur: nat)
    | HelpLoadFlag(cur: nat)
    | HelpLoadWt(cur: nat, cac: int)
    | HelpCas(cur: nat, cac: int)
    | HelpStoreWt(cur: nat)
    | PopLoadRd
    | PopLoadWt(crd: nat)
    | PopLoadFlag(cwt: nat)
    | PopCasFlag(cwt: nat, cac: int)
    | PopStoreWt(cwt: nat)
    | PopCopy(crd: nat, buff: Value)
    | PopCas(crd: nat, buff: Value)

  /** How far the item with a given index has come; a proof-only history. */
  datatype Phase = Writing(t: nat) | Committed | Advancing(t: nat) | Visible

  /**
   The shared words, the threads, and three history variables: the values in
   the order in which pushes won their reservation, the values in the order in
   which pops took them, and the phase of every reserved index.
   */
  datatype State = State(
    width: nat,
    rd: nat, wt: nat, ct: nat,
    slots: seq<Slot>,
    pcs: seq<Pc>,
    reserved: seq<Value>,
    delivered: seq<Value>,
    phase: seq<Phase>)

  /** What the scheduler lets a thread do next. */
  datatype Action = StartPush(v: Value) | StartPop | Run(spurious: bool)

  function Init(threads: nat, width: nat, blank: Value): State
  {
    State(width, 0, 0, 0, seq(SLOTS, _ => Slot(blank, 0)), seq(threads, _ => Idle), [], [], [])
  }

  /** The action is possible for the thread. */
  predicate Enabled(s: State, t: nat, a: Action) {
    t < |s.pcs| &&
    match a
    case StartPush(v) => s.pcs[t].Idle? && |v| == s.width
    case StartPop => s.pcs[t].Idle?
    case Run(_) => !s.pcs[t].Idle?
  }

  predicate WellShaped(s: State) {
    && |s.slots| == SLOTS
    && |s.phase| == s.ct
    && forall i :: 0 <= i < SLOTS ==> |s.slots[i].data| == s.width
  }

  function Goto(s: State, t: nat, pc: Pc): State
    requires t < |s.pcs|
  {
    s.(pcs := s.pcs[t := pc])
  }

  function SetFlag(s: State, c: nat, flag: int): State
    requires WellShaped(s)
  {
    s.(slots := s.slots[IndexOf(c) := s.slots[IndexOf(c)].(flag := flag)])
  }

  function SetWord(s: State, c: nat, k: nat, w: int): State
    requires WellShaped(s) && k < s.width
  {
    var old_ := s.slots[IndexOf(c)];
    s.(slots := s.slots[IndexOf(c) := old_.(data := old_.data[k := w])])
  }

  function SetPhase(s: State, c: nat, p: Phase): State {
    if c < |s.phase| then s.(phase := s.phase[c := p]) else s
  }

  /** The words of a slot that a thread can still see of item `c`. */
  function SlotOf(s: State, c: nat): Slot
    requires WellShaped(s)
  {
    s.slots[IndexOf(c)]
  }

  /** One step of `push`. */
  function PushStep(s: State, t: nat, spurious: bool): State
    requires WellShaped(s) && t < |s.pcs|
  {
    match s.pcs[t]
    case PushLoadCt(v) => Goto(s, t, PushLoadRd(v, s.ct))
    case PushLoadRd(v, cur) =>
      if IndexOf(cur + 1) == IndexOf(s.rd) then Goto(s, t, Idle) else Goto(s, t, PushCas(v, cur))
    case PushCas(v, cur) =>
      if s.ct == cur && !spurious then
        Goto(s, t, PushWrite(v, cur, 0)).(ct := cur + 1, reserved := s.reserved + [v], phase := s.phase + [Writing(t)])
      else Goto(s, t, PushLoadCt(v))
    case PushWrite(v, cur, k) =>
      if k < s.width && k < |v| then Goto(SetWord(s, cur, k, v[k]), t, PushWrite(v, cur, k + 1))
      else Goto(s, t, PushFlag(v, cur))
    case PushFlag(v, cur) =>
      SetPhase(Goto(SetFlag(s, cur, Not(cur)), t, HelpLoadFlag(cur)), cur, Committed)
    case _ => s
  }

  /** One step of the loop at the end of `push` that moves `wt_` forward. */
  function HelpStep(s: State, t: nat): State
    requires WellShaped(s) && t < |s.pcs|
  {
    match s.pcs[t]
    case HelpLoadFlag(cur) => Goto(s, t, HelpLoadWt(cur, SlotOf(s, cur).flag))
    case HelpLoadWt(cur, cac) =>
      if cur != s.wt || Not(cac) != cur then Goto(s, t, Idle) else Goto(s, t, HelpCas(cur, cac))
    case HelpCas(cur, cac) =>
      if SlotOf(s, cur).flag != cac then Goto(s, t, Idle)
      else SetPhase(Goto(SetFlag(s, cur, 0), t, HelpStoreWt(cur)), cur, Advancing(t))
    case HelpStoreWt(cur) =>
      SetPhase(Goto(s, t, HelpLoadFlag(cur + 1)), cur, Visible).(wt := cur + 1)
    case _ => s
  }

  /** One step of `pop`. */
  function PopStep(s: State, t: nat, spurious: bool): State
    requires WellShaped(s) && t < |s.pcs|
  {
    match s.pcs[t]
    case PopLoadRd => Goto(s, t, PopLoadWt(s.rd))
    case PopLoadWt(crd) =>
      if IndexOf(crd) == IndexOf(s.wt) then Goto(s, t, PopLoadFlag(s.wt)) else Goto(s, t, PopCopy(crd, []))
    case PopLoadFlag(cwt) =>
      var cac := SlotOf(s, cwt).flag;
      if Not(cac) != cwt then Goto(s, t, Idle) else Goto(s, t, PopCasFlag(cwt, cac))
    case PopCasFlag(cwt, cac) =>
      if SlotOf(s, cwt).flag != cac || spurious then Goto(s, t, PopLoadRd)
      else SetPhase(Goto(SetFlag(s, cwt, 0), t, PopStoreWt(cwt)), cwt, Advancing(t))
    case PopStoreWt(cwt) =>
      SetPhase(Goto(s, t, PopLoadRd), cwt, Visible).(wt := cwt + 1)
    case PopCopy(crd, buff) =>
      if |buff| < s.width then Goto(s, t, PopCopy(crd, buff + [SlotOf(s, crd).data[|buff|]]))
      else Goto(s, t, PopCas(crd, buff))
    case PopCas(crd, buff) =>
      if s.rd == crd && !spurious then Goto(s, t, Idle).(rd := crd + 1, delivered := s.delivered + [buff])
      else Goto(s, t, PopLoadRd)
    case _ => s
  }

  function Step(s: State, t: nat, a: Action): State
    requires WellShaped(s) && Enabled(s, t, a)
  {
    match a
    case StartPush(v) => Goto(s, t, PushLoadCt(v))
    case StartPop => Goto(s, t, PopLoadRd)
    case Run(spurious) =>
      if s.pcs[t].PushLoadCt? || s.pcs[t].PushLoadRd? || s.pcs[t].PushCas? || s.pcs[t].PushWrite? || s.pcs[t].PushFlag?
      then PushStep(s, t, spurious)
      else if s.pcs[t].HelpLoadFlag? || s.pcs[t].HelpLoadWt? || s.pcs[t].HelpCas? || s.pcs[t].HelpStoreWt?
      then HelpStep(s, t)
      else PopStep(s, t, spurious)
  }

  // ---------------------------------------------------------------- invariant

  /** The counters, the histories and the contents of the visible items. */
  ghost predicate Counters(s: State) {
    && s.rd <= s.wt <= s.ct <= s.rd + SLOTS - 1
    && WellShaped(s)
    && |s.reserved| == s.ct
    && (forall c :: 0 <= c < s.ct ==> |s.reserved[c]| == s.width)
    && s.delivered == s.reserved[..s.rd]
    && (forall c :: s.rd <= c < s.wt ==> SlotOf(s, c).data == s.reserved[c])
  }

  predicate Writes(pc: Pc, c: nat) {
    (pc.PushWrite? || pc.PushFlag?) && pc.cur == c
  }

  predicate Advances(pc: Pc, c: nat) {
    (pc.HelpStoreWt? && pc.cur == c) || (pc.PopStoreWt? && pc.cwt == c)
  }

  /** What is known of a reserved index from its phase. */
  ghost predicate IndexOk(s: State, c: nat)
    requires WellShaped(s) && c < s.ct && |s.reserved| == s.ct
  {
    if c < s.wt then s.phase[c].Visible?
    else
      match s.phase[c]
      case Visible => false
      case Writing(t) => t < |s.pcs| && Writes(s.pcs[t], c) && SlotOf(s, c).flag == 0
      case Committed => SlotOf(s, c).flag == Not(c) && SlotOf(s, c).data == s.reserved[c]
      case Advancing(t) =>
        && c == s.wt && t < |s.pcs| && Advances(s.pcs[t], c)
        && SlotOf(s, c).flag == 0 && SlotOf(s, c).data == s.reserved[c]
  }

  /** A raised flag names a committed index of its own slot. */
  ghost predicate FlagOk(s: State, i: nat)
    requires WellShaped(s) && i < SLOTS
  {
    s.slots[i].flag != 0 ==>
      var c := Not(s.slots[i].flag);
      s.wt <= c < s.ct && IndexOf(c) == i && s.phase[c].Committed?
  }

  /** What a thread's locals say about the shared words. */
  ghost predicate ThreadOk(s: State, t: nat)
    requires WellShaped(s) && t < |s.pcs| && |s.reserved| == s.ct && s.wt <= s.ct
  {
    match s.pcs[t]
    case Idle => true
    case PushLoadCt(v) => |v| == s.width
    case PushLoadRd(v, cur) => |v| == s.width && cur <= s.ct
    case PushCas(v, cur) => |v| == s.width && cur <= s.ct && (s.ct == cur ==> cur + 1 <= s.rd + SLOTS - 1)
    case PushWrite(v, cur, k) =>
      && s.wt <= cur < s.ct && s.phase[cur] == Writing(t) && v == s.reserved[cur]
      && k <= s.width == |v| && SlotOf(s, cur).data[..k] == v[..k]
    case PushFlag(v, cur) =>
      s.wt <= cur < s.ct && s.phase[cur] == Writing(t) && v == s.reserved[cur] && SlotOf(s, cur).data == v
    case HelpLoadFlag(cur) => cur <= s.ct
    case HelpLoadWt(cur, cac) => cur <= s.ct
    case HelpCas(cur, cac) => cur <= s.wt && Not(cac) == cur
    case HelpStoreWt(cur) => cur < s.ct && s.phase[cur] == Advancing(t)
    case PopLoadRd => true
    case PopLoadWt(crd) => crd <= s.rd
    case PopLoadFlag(cwt) => cwt <= s.wt
    case PopCasFlag(cwt, cac) => cwt <= s.wt && Not(cac) == cwt
    case PopStoreWt(cwt) => cwt < s.ct && s.phase[cwt] == Advancing(t)
    case PopCopy(crd, buff) =>
      && crd <= s.rd && |buff| <= s.width
      && (s.rd == crd ==> s.rd < s.wt && buff <= s.reserved[crd])
    case PopCas(crd, buff) =>
      && crd <= s.rd && |buff| == s.width
      && (s.rd == crd ==> s.rd < s.wt && buff == s.reserved[crd])
  }

  ghost predicate Inv(s: State) {
    && Counters(s)
    && (forall c :: 0 <= c < s.ct ==> IndexOk(s, c))
    && (forall i :: 0 <= i < SLOTS ==> FlagOk(s, i))
    && (forall t :: 0 <= t < |s.pcs| ==> ThreadOk(s, t))
  }

  // ------------------------------------------------------------- preservation

  /** Two indices less than a lap apart never share a slot. */
  lemma DistinctSlots(a: nat, b: nat)
    requires a < b < a + SLOTS
    ensures IndexOf(a) != IndexOf(b)
  {
  }

  lemma InitInv(threads: nat, width: nat, blank: Value)
    requires |blank| == width
    ensures Inv(Init(threads, width, blank))
  {
  }

  lemma LocalStep(s: State, t: nat, pc: Pc)
    requires Inv(s) && t < |s.pcs|
    requires forall c :: !Writes(s.pcs[t], c) && !Advances(s.pcs[t], c)
    requires ThreadOk(Goto(s, t, pc), t)
    ensures Inv(Goto(s, t, pc))
  {
    var s' := Goto(s, t, pc);
    forall c | 0 <= c < s'.ct ensures IndexOk(s', c) { assert IndexOk(s, c); }
    forall i | 0 <= i < SLOTS ensures FlagOk(s', i) { assert FlagOk(s, i); }
    forall u | 0 <= u < |s'.pcs| ensures ThreadOk(s', u) { assert ThreadOk(s, u); }
  }

  ghost predicate Reserves(s: State, t: nat) {
    Inv(s) && t < |s.pcs| && s.pcs[t].PushCas? && s.ct == s.pcs[t].cur
  }

  lemma ReserveIndex(s: State, t: nat, c: nat)
    requires Reserves(s, t) && c <= s.ct
    ensures WellShaped(PushStep(s, t, false)) && |PushStep(s, t, false).reserved| == s.ct + 1 && IndexOk(PushStep(s, t, false), c)
  {
    if c < s.ct {
      assert IndexOk(s, c);
    } else {
      assert ThreadOk(s, t) && FlagOk(s, IndexOf(c));
      if SlotOf(s, c).flag != 0 { DistinctSlots(Not(SlotOf(s, c).flag), c); }
    }
  }

  lemma ReserveThread(s: State, t: nat, u: nat)
    requires Reserves(s, t) && u < |s.pcs|
    ensures WellShaped(PushStep(s, t, false)) && |PushStep(s, t, false).reserved| == s.ct + 1 && ThreadOk(PushStep(s, t, false), u)
  {
    assert ThreadOk(s, t) && ThreadOk(s, u);
  }

  lemma ReserveInv(s: State, t: nat)
    requires Reserves(s, t)
    ensures Inv(PushStep(s, t, false))
  {
    var s' := PushStep(s, t, false);
    assert ThreadOk(s, t);
    assert Counters(s') by {
      assert s'.reserved[..s.rd] == s.reserved[..s.rd];
    }
    forall c | 0 <= c < s'.ct ensures IndexOk(s', c) { ReserveIndex(s, t, c); }
    forall i | 0 <= i < SLOTS ensures FlagOk(s', i) { assert FlagOk(s, i); }
    forall u | 0 <= u < |s'.pcs| ensures ThreadOk(s', u) { ReserveThread(s, t, u); }
  }

  /** The slot of a live index is the slot of no other live index. */
  lemma Apart(s: State, cur: nat)
    requires s.rd <= cur < s.ct <= s.rd + SLOTS - 1
    ensures forall c :: s.rd <= c < s.ct && c != cur ==> IndexOf(c) != IndexOf(cur)
  {
    forall c | s.rd <= c < s.ct && c != cur ensures IndexOf(c) != IndexOf(cur) {
      if c < cur { DistinctSlots(c, cur); } else { DistinctSlots(cur, c); }
    }
  }

  lemma WriteThread(s: State, t: nat, u: nat)
    requires Inv(s) && t < |s.pcs| && s.pcs[t].PushWrite? && s.pcs[t].k < s.width && u < |s.pcs|
    ensures ThreadOk(PushStep(s, t, false), u)
  {
    var cur := s.pcs[t].cur;
    assert ThreadOk(s, t) && ThreadOk(s, u);
    if u != t && (s.pcs[u].PushWrite? || s.pcs[u].PushFlag?) {
      Apart(s, cur);
    }
  }

  lemma WriteInv(s: State, t: nat)
    requires Inv(s) && t < |s.pcs| && s.pcs[t].PushWrite? && s.pcs[t].k < s.width
    ensures Inv(PushStep(s, t, false))
  {
    var s' := PushStep(s, t, false);
    var cur := s.pcs[t].cur;
    assert ThreadOk(s, t);
    assert Counters(s') by { Apart(s, cur); }
    forall c | 0 <= c < s'.ct ensures IndexOk(s', c) { Apart(s, cur); assert IndexOk(s, c) && IndexOk(s, cur); }
    forall i | 0 <= i < SLOTS ensures FlagOk(s', i) { assert FlagOk(s, i); }
    forall u | 0 <= u < |s'.pcs| ensures ThreadOk(s', u) { WriteThread(s, t, u); }
  }

  lemma WriteEndInv(s: State, t: nat)
    requires Inv(s) && t < |s.pcs| && s.pcs[t].PushWrite? && s.pcs[t].k >= s.width
    ensures Inv(PushStep(s, t, false))
  {
    var s' := PushStep(s, t, false);
    assert ThreadOk(s, t);
    forall c | 0 <= c < s'.ct ensures IndexOk(s', c) { assert IndexOk(s, c); }
    forall i | 0 <= i < SLOTS ensures FlagOk(s', i) { assert FlagOk(s, i); }
    forall u | 0 <= u < |s'.pcs| ensures ThreadOk(s', u) { assert ThreadOk(s, u); }
  }

  lemma CommitIndex(s: State, t: nat, c: nat)
    requires Inv(s) && t < |s.pcs| && s.pcs[t].PushFlag? && c < s.ct
    ensures IndexOk(PushStep(s, t, false), c)
  {
    assert ThreadOk(s, t) && IndexOk(s, c);
    Apart(s, s.pcs[t].cur);
  }

  lemma CommitThread(s: State, t: nat, u: nat)
    requires Inv(s) && t < |s.pcs| && s.pcs[t].PushFlag? && u < |s.pcs|
    ensures ThreadOk(PushStep(s, t, false), u)
  {
    assert ThreadOk(s, t) && ThreadOk(s, u);
  }

  lemma CommitInv(s: State, t: nat, spurious: bool)
    requires Inv(s) && t < |s.pcs| && s.pcs[t].PushFlag?
    ensures Inv(PushStep(s, t, spurious))
  {
    var s' := PushStep(s, t, spurious);
    assert ThreadOk(s, t);
    forall c | 0 <= c < s'.ct ensures IndexOk(s', c) { CommitIndex(s, t, c); }
    forall i | 0 <= i < SLOTS ensures FlagOk(s', i) { assert FlagOk(s, i); }
    forall u | 0 <= u < |s'.pcs| ensures ThreadOk(s', u) { CommitThread(s, t, u); }
  }

  /** The thread finds the committed flag of the index `wt_` names. */
  ghost predicate Takes(s: State, t: nat, c: nat, pc: Pc) {
    && Inv(s) && t < |s.pcs| && c <= s.wt && SlotOf(s, c).flag == Not(c)
    && (forall b :: !Writes(s.pcs[t], b) && !Advances(s.pcs[t], b))
    && (pc == HelpStoreWt(c) || pc == PopStoreWt(c))
  }

  function Taken(s: State, t: nat, c: nat, pc: Pc): State
    requires WellShaped(s) && t < |s.pcs|
  {
    SetPhase(Goto(SetFlag(s, c, 0), t, pc), c, Advancing(t))
  }

  lemma TakeFlagIndex(s: State, t: nat, c: nat, pc: Pc, b: nat)
    requires Takes(s, t, c, pc) && b < s.ct
    ensures IndexOk(Taken(s, t, c, pc), b)
  {
    assert FlagOk(s, IndexOf(c)) && IndexOk(s, b);
    Apart(s, c);
  }

  lemma TakeFlagThread(s: State, t: nat, c: nat, pc: Pc, u: nat)
    requires Takes(s, t, c, pc) && u < |s.pcs|
    ensures ThreadOk(Taken(s, t, c, pc), u)
  {
    assert FlagOk(s, IndexOf(c)) && ThreadOk(s, u);
  }

  /** A pusher or a popper takes the committed flag of the index `wt_` names. */
  lemma TakeFlagInv(s: State, t: nat, c: nat, pc: Pc)
    requires Takes(s, t, c, pc)
    ensures c == s.wt < s.ct
    ensures Inv(Taken(s, t, c, pc))
  {
    assert FlagOk(s, IndexOf(c));
    var s' := Taken(s, t, c, pc);
    forall b | 0 <= b < s'.ct ensures IndexOk(s', b) { TakeFlagIndex(s, t, c, pc, b); }
    forall i | 0 <= i < SLOTS ensures FlagOk(s', i) { assert FlagOk(s, i); }
    forall u | 0 <= u < |s'.pcs| ensures ThreadOk(s', u) { TakeFlagThread(s, t, c, pc, u); }
  }

  lemma AdvanceWriter(s: State, t: nat, c: nat, pc: Pc, u: nat)
    requires Inv(s) && t < |s.pcs| && Advances(s.pcs[t], c) && u < |s.pcs|
    requires c == s.wt < s.ct && s.phase[c] == Advancing(t) && (s.pcs[u].PushWrite? || s.pcs[u].PushFlag?)
    ensures ThreadOk(SetPhase(Goto(s, t, pc), c, Visible).(wt := c + 1), u)
  {
    assert ThreadOk(s, u);
    assert s.phase[s.pcs[u].cur] == Writing(u);
  }

  lemma AdvanceThread(s: State, t: nat, c: nat, pc: Pc, u: nat)
    requires Inv(s) && t < |s.pcs| && Advances(s.pcs[t], c) && u < |s.pcs|
    requires pc == HelpLoadFlag(c + 1) || pc == PopLoadRd
    requires c == s.wt < s.ct && s.phase[c] == Advancing(t)
    ensures ThreadOk(SetPhase(Goto(s, t, pc), c, Visible).(wt := c + 1), u)
  {
    assert ThreadOk(s, u);
    if s.pcs[u].PushWrite? || s.pcs[u].PushFlag? { AdvanceWriter(s, t, c, pc, u); }
  }

  /** The thread that took the flag publishes the next value of `wt_`. */
  lemma AdvanceInv(s: State, t: nat, c: nat, pc: Pc)
    requires Inv(s) && t < |s.pcs| && Advances(s.pcs[t], c)
    requires pc == HelpLoadFlag(c + 1) || pc == PopLoadRd
    ensures c == s.wt
    ensures Inv(SetPhase(Goto(s, t, pc), c, Visible).(wt := c + 1))
  {
    assert ThreadOk(s, t);
    assert IndexOk(s, c);
    var s' := SetPhase(Goto(s, t, pc), c, Visible).(wt := c + 1);
    assert Counters(s');
    forall b | 0 <= b < s'.ct ensures IndexOk(s', b) { assert IndexOk(s, b); }
    forall i | 0 <= i < SLOTS ensures FlagOk(s', i) { assert FlagOk(s, i); }
    forall u | 0 <= u < |s'.pcs| ensures ThreadOk(s', u) { AdvanceThread(s, t, c, pc, u); }
  }

  lemma TakeInv(s: State, t: nat)
    requires Inv(s) && t < |s.pcs| && s.pcs[t].PopCas? && s.rd == s.pcs[t].crd
    ensures Inv(PopStep(s, t, false))
  {
    assert ThreadOk(s, t);
    var s' := PopStep(s, t, false);
    assert s'.delivered == s'.reserved[..s'.rd];
    forall b | 0 <= b < s'.ct ensures IndexOk(s', b) { assert IndexOk(s, b); }
    forall i | 0 <= i < SLOTS ensures FlagOk(s', i) { assert FlagOk(s, i); }
    forall u | 0 <= u < |s'.pcs| ensures ThreadOk(s', u) { assert ThreadOk(s, u); }
  }

  lemma PushLoadInv(s: State, t: nat, spurious: bool)
    requires Inv(s) && t < |s.pcs| && (s.pcs[t].PushLoadCt? || s.pcs[t].PushLoadRd? || s.pcs[t].PushCas?)
    ensures Inv(PushStep(s, t, spurious))
  {
    assert ThreadOk(s, t);
    match s.pcs[t]
    case PushLoadCt(v) => LocalStep(s, t, PushLoadRd(v, s.ct));
    case PushLoadRd(v, cur) =>
      if IndexOf(cur + 1) == IndexOf(s.rd) { LocalStep(s, t, Idle); } else { LocalStep(s, t, PushCas(v, cur)); }
    case PushCas(v, cur) =>
      if s.ct == cur && !spurious { ReserveInv(s, t); } else { LocalStep(s, t, PushLoadCt(v)); }
  }

  lemma PushStepInv(s: State, t: nat, spurious: bool)
    requires Inv(s) && t < |s.pcs|
    ensures Inv(PushStep(s, t, spurious))
  {
    match s.pcs[t]
    case PushLoadCt(_) => PushLoadInv(s, t, spurious);
    case PushLoadRd(_, _) => PushLoadInv(s, t, spurious);
    case PushCas(_, _) => PushLoadInv(s, t, spurious);
    case PushWrite(_, _, k) => if k < s.width { WriteInv(s, t); } else { WriteEndInv(s, t); }
    case PushFlag(_, _) => CommitInv(s, t, spurious);
    case _ =>
  }

  lemma HelpStepInv(s: State, t: nat)
    requires Inv(s) && t < |s.pcs|
    ensures Inv(HelpStep(s, t))
  {
    assert ThreadOk(s, t);
    match s.pcs[t]
    case HelpLoadFlag(cur) => LocalStep(s, t, HelpLoadWt(cur, SlotOf(s, cur).flag));
    case HelpLoadWt(cur, cac) =>
      if cur != s.wt || Not(cac) != cur { LocalStep(s, t, Idle); } else { LocalStep(s, t, HelpCas(cur, cac)); }
    case HelpCas(cur, cac) =>
      if SlotOf(s, cur).flag != cac { LocalStep(s, t, Idle); } else { TakeFlagInv(s, t, cur, HelpStoreWt(cur)); }
    case HelpStoreWt(cur) => AdvanceInv(s, t, cur, HelpLoadFlag(cur + 1));
    case _ =>
  }

  lemma PopLoadInv(s: State, t: nat, spurious: bool)
    requires Inv(s) && t < |s.pcs| && (s.pcs[t].PopLoadRd? || s.pcs[t].PopLoadWt? || s.pcs[t].PopLoadFlag?)
    ensures Inv(PopStep(s, t, spurious))
  {
    assert ThreadOk(s, t);
    match s.pcs[t]
    case PopLoadRd => LocalStep(s, t, PopLoadWt(s.rd));
    case PopLoadWt(crd) =>
      if IndexOf(crd) == IndexOf(s.wt) { LocalStep(s, t, PopLoadFlag(s.wt)); } else { LocalStep(s, t, PopCopy(crd, [])); }
    case PopLoadFlag(cwt) =>
      var cac := SlotOf(s, cwt).flag;
      if Not(cac) != cwt { LocalStep(s, t, Idle); } else { LocalStep(s, t, PopCasFlag(cwt, cac)); }
  }

  lemma PopCopyInv(s: State, t: nat, spurious: bool)
    requires Inv(s) && t < |s.pcs| && (s.pcs[t].PopCopy? || s.pcs[t].PopCas?)
    ensures Inv(PopStep(s, t, spurious))
  {
    assert ThreadOk(s, t);
    match s.pcs[t]
    case PopCopy(crd, buff) =>
      if |buff| < s.width { LocalStep(s, t, PopCopy(crd, buff + [SlotOf(s, crd).data[|buff|]])); }
      else { LocalStep(s, t, PopCas(crd, buff)); }
    case PopCas(crd, buff) =>
      if s.rd == crd && !spurious { TakeInv(s, t); } else { LocalStep(s, t, PopLoadRd); }
  }

  lemma PopStepInv(s: State, t: nat, spurious: bool)
    requires Inv(s) && t < |s.pcs|
    ensures Inv(PopStep(s, t, spurious))
  {
    assert ThreadOk(s, t);
    match s.pcs[t]
    case PopLoadRd => PopLoadInv(s, t, spurious);
    case PopLoadWt(_) => PopLoadInv(s, t, spurious);
    case PopLoadFlag(_) => PopLoadInv(s, t, spurious);
    case PopCasFlag(cwt, cac) =>
      if SlotOf(s, cwt).flag != cac || spurious { LocalStep(s, t, PopLoadRd); }
      else { TakeFlagInv(s, t, cwt, PopStoreWt(cwt)); }
    case PopStoreWt(cwt) => AdvanceInv(s, t, cwt, PopLoadRd);
    case PopCopy(_, _) => PopCopyInv(s, t, spurious);
    case PopCas(_, _) => PopCopyInv(s, t, spurious);
    case _ =>
  }

  /** Every step of every thread keeps the invariant. */
  lemma StepInv(s: State, t: nat, a: Action)
    requires Inv(s) && Enabled(s, t, a)
    ensures Inv(Step(s, t, a))
  {
    match a
    case StartPush(v) => LocalStep(s, t, PushLoadCt(v));
    case StartPop => LocalStep(s, t, PopLoadRd);
    case Run(spurious) =>
      PushStepInv(s, t, spurious);
      HelpStepInv(s, t);
      PopStepInv(s, t, spurious);
  }

  // ------------------------------------------------------------ whole runs

  /** One scheduling decision: which thread moves, and how. */
  type Schedule = seq<(nat, Action)>

  /** The state after a schedule; a decision that is not possible is skipped. */
  ghost function Exec(s: State, schedule: Schedule): (r: State)
    requires Inv(s)
    ensures Inv(r)
    decreases |schedule|
  {
    if schedule == [] then s
    else
      var (t, a) := schedule[0];
      if Enabled(s, t, a) then
        StepInv(s, t, a);
        Exec(Step(s, t, a), schedule[1..])
      else Exec(s, schedule[1..])
  }

  lemma PushHistory(s: State, t: nat, spurious: bool)
    requires WellShaped(s) && t < |s.pcs|
    ensures var s' := PushStep(s, t, spurious);
            && s'.delivered == s.delivered
            && (s'.reserved == s.reserved || (s.pcs[t].PushCas? && s'.reserved == s.reserved + [s.pcs[t].v]))
  {
  }

  lemma HelpHistory(s: State, t: nat)
    requires WellShaped(s) && t < |s.pcs|
    ensures HelpStep(s, t).delivered == s.delivered && HelpStep(s, t).reserved == s.reserved
  {
  }

  lemma PopHistory(s: State, t: nat, spurious: bool)
    requires WellShaped(s) && t < |s.pcs|
    ensures var s' := PopStep(s, t, spurious);
            && s'.reserved == s.reserved
            && (s'.delivered == s.delivered || (s.pcs[t].PopCas? && s'.delivered == s.delivered + [s.pcs[t].buff]))
  {
  }

  /** A step appends the reserved or the delivered value, or changes neither history. */
  lemma StepHistory(s: State, t: nat, a: Action)
    requires Inv(s) && Enabled(s, t, a)
    ensures var s' := Step(s, t, a);
            && (s'.reserved == s.reserved || (s.pcs[t].PushCas? && s'.reserved == s.reserved + [s.pcs[t].v]))
            && (s'.delivered == s.delivered || (s.pcs[t].PopCas? && s'.delivered == s.delivered + [s.pcs[t].buff]))
  {
    if a.Run? {
      PushHistory(s, t, a.spurious);
      HelpHistory(s, t);
      PopHistory(s, t, a.spurious);
    }
  }

  lemma CountersGrow(s: State, t: nat, a: Action)
    requires Inv(s) && Enabled(s, t, a)
    ensures var s' := Step(s, t, a); s.rd <= s'.rd <= s.rd + 1 && s.wt <= s'.wt <= s.wt + 1 && s.ct <= s'.ct <= s.ct + 1
  {
    assert ThreadOk(s, t);
    OnlyWtAdvances(s, t);
  }

  /** The index a thread is about to publish is `wt_` itself. */
  lemma OnlyWtAdvances(s: State, t: nat)
    requires Inv(s) && t < |s.pcs|
    ensures s.pcs[t].HelpStoreWt? ==> s.pcs[t].cur == s.wt
    ensures s.pcs[t].PopStoreWt? ==> s.pcs[t].cwt == s.wt
  {
    assert ThreadOk(s, t);
    if s.pcs[t].HelpStoreWt? { assert IndexOk(s, s.pcs[t].cur); }
    if s.pcs[t].PopStoreWt? { assert IndexOk(s, s.pcs[t].cwt); }
  }

  /** The histories of a run only grow: nothing pushed is reordered, nothing popped is taken back. */
  lemma {:induction false} HistoriesGrow(s: State, schedule: Schedule)
    requires Inv(s)
    ensures s.reserved <= Exec(s, schedule).reserved
    ensures s.delivered <= Exec(s, schedule).delivered
    decreases |schedule|
  {
    if schedule != [] {
      var (t, a) := schedule[0];
      if Enabled(s, t, a) {
        StepInv(s, t, a);
        StepHistory(s, t, a);
        HistoriesGrow(Step(s, t, a), schedule[1..]);
      } else {
        HistoriesGrow(s, schedule[1..]);
      }
    }
  }

  /**
   Safety of every interleaving: the counters stay within a lap, the values
   popped are exactly the first `rd_` values in reservation order, no two
   writers share a slot, and no writer touches an item that can still be read.
   */
  lemma Safety(threads: nat, width: nat, blank: Value, schedule: Schedule)
    requires |blank| == width
    ensures Inv(Init(threads, width, blank))
    ensures var s := Exec(Init(threads, width, blank), schedule);
            && s.rd <= s.wt <= s.ct <= s.rd + SLOTS - 1
            && |s.reserved| == s.ct
            && s.delivered == s.reserved[..s.rd]
            && (forall t, c, u, d | 0 <= t < u < |s.pcs| && Writes(s.pcs[t], c) && Writes(s.pcs[u], d) ::
                  IndexOf(c) != IndexOf(d))
            && (forall t, c, d | 0 <= t < |s.pcs| && Writes(s.pcs[t], c) && s.rd <= d < s.wt ::
                  IndexOf(c) != IndexOf(d))
  {
    InitInv(threads, width, blank);
    var s := Exec(Init(threads, width, blank), schedule);
    forall t, c: nat | 0 <= t < |s.pcs| && Writes(s.pcs[t], c)
      ensures s.wt <= c < s.ct && s.phase[c] == Writing(t)
      ensures forall d :: s.rd <= d < s.ct && d != c ==> IndexOf(d) != IndexOf(c)
    {
      assert ThreadOk(s, t);
      Apart(s, c);
    }
  }

  /**
   Helping, in every interleaving: a reserved index that is not yet visible is
   still being written, or carries its commit flag, or is `wt_` itself with
   exactly one thread between its flag exchange and its store to `wt_`.
   */
  lemma Helping(threads: nat, width: nat, blank: Value, schedule: Schedule, c: nat)
    requires |blank| == width
    ensures Inv(Init(threads, width, blank))
    ensures var s := Exec(Init(threads, width, blank), schedule);
            s.wt <= c < s.ct ==>
              || (exists t :: 0 <= t < |s.pcs| && Writes(s.pcs[t], c))
              || (SlotOf(s, c).flag == Not(c) && SlotOf(s, c).data == s.reserved[c])
              || (c == s.wt && exists t :: 0 <= t < |s.pcs| && Advances(s.pcs[t], c)
                                && forall u :: 0 <= u < |s.pcs| && Advances(s.pcs[u], c) ==> u == t)
  {
    InitInv(threads, width, blank);
    var s := Exec(Init(threads, width, blank), schedule);
    if s.wt <= c < s.ct {
      assert IndexOk(s, c);
      match s.phase[c]
      case Committed =>
      case Writing(t) => assert Writes(s.pcs[t], c);
      case Advancing(t) =>
        assert Advances(s.pcs[t], c);
        forall u | 0 <= u < |s.pcs| && Advances(s.pcs[u], c) ensures u == t { assert ThreadOk(s, u); }
    }
  }

  // ------------------------------------------------------- when a call gives up

  /** Inside `push(v)`, before it has won its reservation. */
  predicate Pushing(pc: Pc, v: Value) {
    (pc.PushLoadCt? || pc.PushLoadRd? || pc.PushCas?) && pc.v == v
  }

  /** Inside `pop`. */
  predicate Popping(pc: Pc) {
    pc.PopLoadRd? || pc.PopLoadWt? || pc.PopLoadFlag? || pc.PopCasFlag? || pc.PopStoreWt? || pc.PopCopy? || pc.PopCas?
  }

  /** 255 items are unread, or the index the push loaded has been read since. */
  ghost predicate Refuses(s: State, t: nat)
    requires t < |s.pcs|
  {
    s.pcs[t].PushLoadRd? && (s.ct - s.rd == SLOTS - 1 || s.pcs[t].cur < s.rd)
  }

  /** What the step of a push that has not reserved yet leads to. */
  ghost predicate PushDecision(s: State, s': State, t: nat, v: Value)
    requires t < |s.pcs|
  {
    || (s'.reserved == s.reserved + [v] && |s'.pcs| == |s.pcs| && s'.pcs[t] == PushWrite(v, s.ct, 0))
    || (Refuses(s, t) && s'.reserved == s.reserved && |s'.pcs| == |s.pcs| && s'.pcs[t].Idle?)
  }

  /** A push goes on until it reserves its value or finds the ring full; a lost reservation makes it try again. */
  lemma PushGivesUp(s: State, t: nat, a: Action, v: Value)
    requires Inv(s) && Enabled(s, t, a) && Pushing(s.pcs[t], v)
    ensures var s' := Step(s, t, a);
            |s'.pcs| == |s.pcs| && ((Pushing(s'.pcs[t], v) && s'.reserved == s.reserved) || PushDecision(s, s', t, v))
  {
    assert ThreadOk(s, t);
    if s.pcs[t].PushLoadRd? {
      var cur := s.pcs[t].cur;
      if s.rd <= cur && cur + 1 < s.rd + SLOTS { DistinctSlots(s.rd, cur + 1); }
    }
  }

  /** Nothing is there to take: the loaded `wt_` is old, or the item it names is not reserved, not committed, or taken charge of. */
  ghost predicate NothingToTake(s: State, t: nat)
    requires t < |s.pcs|
  {
    && s.pcs[t].PopLoadFlag?
    && (s.pcs[t].cwt < s.wt || s.wt == s.ct || (s.wt < |s.phase| && !s.phase[s.wt].Committed?))
  }

  ghost predicate PopDecision(s: State, s': State, t: nat)
    requires t < |s.pcs|
  {
    || (s.rd < |s.reserved| && s'.delivered == s.delivered + [s.reserved[s.rd]] && |s'.pcs| == |s.pcs| && s'.pcs[t].Idle?)
    || (NothingToTake(s, t) && s'.delivered == s.delivered && |s'.pcs| == |s.pcs| && s'.pcs[t].Idle?)
  }

  /** A pop goes on until it takes the oldest item or finds nothing at its flag test; no failed exchange ends it. */
  lemma PopGivesUp(s: State, t: nat, a: Action)
    requires Inv(s) && Enabled(s, t, a) && Popping(s.pcs[t])
    ensures var s' := Step(s, t, a);
            |s'.pcs| == |s.pcs| && ((Popping(s'.pcs[t]) && s'.delivered == s.delivered) || PopDecision(s, s', t))
  {
    assert ThreadOk(s, t);
    if s.pcs[t].PopLoadFlag? && s.wt < s.ct { assert IndexOk(s, s.wt); }
  }

  /** A pop looks at a flag only if it saw the ring without visible items, or its `rd_` is old. */
  lemma PopSeesNothing(s: State, t: nat, a: Action)
    requires Inv(s) && Enabled(s, t, a) && s.pcs[t].PopLoadWt? && Step(s, t, a).pcs[t].PopLoadFlag?
    ensures s.rd == s.wt || s.pcs[t].crd < s.rd
  {
    assert ThreadOk(s, t);
    if s.rd < s.wt { DistinctSlots(s.rd, s.wt); }
  }

  lemma OtherPcs(s: State, t: nat, a: Action, u: nat)
    requires WellShaped(s) && Enabled(s, t, a) && u < |s.pcs| && u != t
    ensures |Step(s, t, a).pcs| == |s.pcs| && Step(s, t, a).pcs[u] == s.pcs[u]
  {
    if a.Run? {
      PushMovesOnly(s, t, a.spurious);
      HelpMovesOnly(s, t);
      PopMovesOnly(s, t, a.spurious);
    }
  }

  /** Only the thread that moves changes its position. */
  ghost predicate MovesOnly(s: State, s': State, t: nat) {
    |s'.pcs| == |s.pcs| && forall u :: 0 <= u < |s.pcs| && u != t ==> s'.pcs[u] == s.pcs[u]
  }

  lemma PushMovesOnly(s: State, t: nat, spurious: bool)
    requires WellShaped(s) && t < |s.pcs|
    ensures MovesOnly(s, PushStep(s, t, spurious), t)
  {
  }

  lemma HelpMovesOnly(s: State, t: nat)
    requires WellShaped(s) && t < |s.pcs|
    ensures MovesOnly(s, HelpStep(s, t), t)
  {
  }

  lemma PopMovesOnly(s: State, t: nat, spurious: bool)
    requires WellShaped(s) && t < |s.pcs|
    ensures MovesOnly(s, PopStep(s, t, spurious), t)
  {
  }

  /** The step at `n` of the schedule is the thread's, and decides its push. */
  ghost predicate PushDecidedAt(s: State, t: nat, v: Value, schedule: Schedule, n: nat)
    requires Inv(s) && n < |schedule|
  {
    var m, e := Exec(s, schedule[..n]), schedule[n];
    e.0 == t && Enabled(m, t, e.1) && Pushing(m.pcs[t], v) && PushDecision(m, Step(m, t, e.1), t, v)
  }

  ghost predicate PopDecidedAt(s: State, t: nat, schedule: Schedule, n: nat)
    requires Inv(s) && n < |schedule|
  {
    var m, e := Exec(s, schedule[..n]), schedule[n];
    e.0 == t && Enabled(m, t, e.1) && Popping(m.pcs[t]) && PopDecision(m, Step(m, t, e.1), t)
  }

  lemma ExecTail(s: State, schedule: Schedule, n: nat)
    requires Inv(s) && n < |schedule|
    ensures var (t, a) := schedule[0];
            var s1 := if Enabled(s, t, a) then Step(s, t, a) else s;
            Inv(s1) && Exec(s, schedule[..n + 1]) == Exec(s1, schedule[1..][..n])
  {
    var (t, a) := schedule[0];
    if Enabled(s, t, a) { StepInv(s, t, a); }
    assert schedule[..n + 1][1..] == schedule[1..][..n];
  }

  lemma ExecNone(s: State, schedule: Schedule)
    requires Inv(s)
    ensures Exec(s, schedule[..0]) == s
  {
  }

  /** In every interleaving: a push is still trying, or was decided in one of the two ways. */
  lemma {:induction false} PushInAnyRun(s: State, t: nat, v: Value, schedule: Schedule)
    requires Inv(s) && t < |s.pcs| && Pushing(s.pcs[t], v)
    ensures (t < |Exec(s, schedule).pcs| && Pushing(Exec(s, schedule).pcs[t], v))
            || exists n :: 0 <= n < |schedule| && PushDecidedAt(s, t, v, schedule, n)
    decreases |schedule|
  {
    if schedule != [] {
      var (u, a) := schedule[0];
      var s1 := if Enabled(s, u, a) then Step(s, u, a) else s;
      ExecTail(s, schedule, 0);
      ExecNone(s, schedule);
      if Enabled(s, u, a) {
        if u == t { PushGivesUp(s, t, a, v); } else { OtherPcs(s, u, a, t); }
      }
      if Enabled(s, u, a) && u == t && !Pushing(s1.pcs[t], v) {
        assert PushDecidedAt(s, t, v, schedule, 0);
      } else {
        PushInAnyRun(s1, t, v, schedule[1..]);
        if n :| 0 <= n < |schedule[1..]| && PushDecidedAt(s1, t, v, schedule[1..], n) {
          ExecTail(s, schedule, n);
          assert PushDecidedAt(s, t, v, schedule, n + 1);
        }
      }
    }
  }

  /** In every interleaving: a pop is still trying, or was decided in one of the two ways. */
  lemma {:induction false} PopInAnyRun(s: State, t: nat, schedule: Schedule)
    requires Inv(s) && t < |s.pcs| && Popping(s.pcs[t])
    ensures (t < |Exec(s, schedule).pcs| && Popping(Exec(s, schedule).pcs[t]))
            || exists n :: 0 <= n < |schedule| && PopDecidedAt(s, t, schedule, n)
    decreases |schedule|
  {
    if schedule != [] {
      var (u, a) := schedule[0];
      var s1 := if Enabled(s, u, a) then Step(s, u, a) else s;
      ExecTail(s, schedule, 0);
      ExecNone(s, schedule);
      if Enabled(s, u, a) {
        if u == t { PopGivesUp(s, t, a); } else { OtherPcs(s, u, a, t); }
      }
      if Enabled(s, u, a) && u == t && !Popping(s1.pcs[t]) {
        assert PopDecidedAt(s, t, schedule, 0);
      } else {
        PopInAnyRun(s1, t, schedule[1..]);
        if n :| 0 <= n < |schedule[1..]| && PopDecidedAt(s1, t, schedule[1..], n) {
          ExecTail(s, schedule, n);
          assert PopDecidedAt(s, t, schedule, n + 1);
        }
      }
    }
  }

  // ------------------------------------------- operations run to completion

  ghost predicate OthersIdle(s: State, t: nat) {
    t < |s.pcs| && forall u :: 0 <= u < |s.pcs| && u != t ==> s.pcs[u].Idle?
  }

  /** With nothing in flight every reserved index that is not visible is committed. */
  lemma QuietIndices(s: State, t: nat, c: nat)
    requires Inv(s) && OthersIdle(s, t) && s.wt <= c < s.ct
    requires !Writes(s.pcs[t], c) && !Advances(s.pcs[t], c)
    ensures SlotOf(s, c).flag == Not(c)
  {
    assert IndexOk(s, c);
  }

  /** The distance of a lone pop from its return. */
  ghost function PopRank(pc: Pc): nat {
    match pc
    case PopLoadRd => 5
    case PopLoadWt(_) => 4
    case PopLoadFlag(_) => 3
    case PopCasFlag(_, _) => 2
    case PopStoreWt(_) => 1
    case PopCopy(_, _) => 2
    case PopCas(_, _) => 1
    case _ => 0
  }

  /** The locals of a pop that runs while nothing else does. */
  ghost predicate LonePop(s: State, t: nat) {
    && Inv(s) && OthersIdle(s, t)
    && match s.pcs[t]
       case PopLoadRd => true
       case PopLoadWt(crd) => crd == s.rd
       case PopLoadFlag(cwt) => cwt == s.wt == s.rd
       case PopCasFlag(cwt, cac) => cwt == s.wt == s.rd < s.ct && SlotOf(s, cwt).flag == cac
       case PopStoreWt(cwt) => cwt == s.wt == s.rd < s.ct
       case PopCopy(crd, _) => crd == s.rd < s.wt
       case PopCas(crd, _) => crd == s.rd < s.wt
       case _ => false
  }

  /** One step of a lone pop: it comes closer, or returns the oldest item, or finds the ring empty. */
  lemma LonePopStep(s: State, t: nat)
    requires LonePop(s, t)
    ensures var s' := PopStep(s, t, false);
            && Inv(s') && s'.reserved == s.reserved && s'.ct == s.ct && s'.width == s.width
            && s.wt <= s'.wt && OthersIdle(s', t)
            && if s'.pcs[t].Idle? then
                 if s.rd < s.ct then s'.rd == s.rd + 1 && s'.delivered == s.delivered + [s.reserved[s.rd]]
                 else s'.rd == s.rd && s'.delivered == s.delivered
               else
                 && LonePop(s', t) && s'.rd == s.rd && s'.delivered == s.delivered
                 && (s.wt < s'.wt || PopRank(s'.pcs[t]) < PopRank(s.pcs[t])
                     || (s.pcs[t].PopCopy? && s'.pcs[t].PopCopy? && |s.pcs[t].buff| < |s'.pcs[t].buff| <= s.width))
  {
    PopStepInv(s, t, false);
    assert ThreadOk(s, t);
    match s.pcs[t]
    case PopLoadWt(crd) => if s.rd < s.wt { DistinctSlots(s.rd, s.wt); }
    case PopLoadFlag(cwt) =>
      if s.wt < s.ct { QuietIndices(s, t, s.wt); }
      else {
        assert FlagOk(s, IndexOf(cwt));
        if SlotOf(s, cwt).flag != 0 { assert false; }
      }
    case _ =>
  }

  /** A weak exchange that fails for no reason sends a lone pop back to its beginning and changes nothing else. */
  lemma LonePopRetries(s: State, t: nat)
    requires LonePop(s, t) && (s.pcs[t].PopCasFlag? || s.pcs[t].PopCas?)
    ensures var s' := PopStep(s, t, true);
            LonePop(s', t) && s' == Goto(s, t, PopLoadRd)
  {
    PopStepInv(s, t, true);
  }

  /**
   A `pop` run alone is exact: it returns the item `rd_` names whenever one is
   reserved, even when no pusher got round to advancing `wt_`.  `weak` says which of
   its weak exchanges fail for no reason; however many do, the outcome is the same.
   */
  method PopAlone(s: State, t: nat, weak: seq<bool>) returns (ok: bool, v: Value, r: State)
    requires Inv(s) && OthersIdle(s, t) && s.pcs[t].Idle?
    ensures Inv(r) && OthersIdle(r, t) && r.pcs[t].Idle? && r.reserved == s.reserved
    ensures ok <==> s.rd < s.ct
    ensures ok ==> v == s.reserved[s.rd] && r.rd == s.rd + 1 && r.delivered == s.delivered + [v]
    ensures !ok ==> r.rd == s.rd && r.delivered == s.delivered
  {
    r := Step(s, t, StartPop);
    StepInv(s, t, StartPop);
    v := [];
    var rest := weak;
    while !r.pcs[t].Idle?
      invariant r.ct == s.ct && r.width == s.width && r.reserved == s.reserved && s.wt <= r.wt
      invariant Inv(r) && OthersIdle(r, t)
      invariant if r.pcs[t].Idle? then
                  if s.rd < s.ct then r.rd == s.rd + 1 && r.delivered == s.delivered + [s.reserved[s.rd]]
                  else r.rd == s.rd && r.delivered == s.delivered
                else LonePop(r, t) && r.rd == s.rd && r.delivered == s.delivered
      decreases |rest|, s.ct - r.wt, PopRank(r.pcs[t]), if r.pcs[t].PopCopy? then s.width - |r.pcs[t].buff| else 0
    {
      assert ThreadOk(r, t);
      var fails := false;
      if (r.pcs[t].PopCasFlag? || r.pcs[t].PopCas?) && rest != [] { fails, rest := rest[0], rest[1..]; }
      if fails { LonePopRetries(r, t); } else { LonePopStep(r, t); }
      r := PopStep(r, t, fails);
    }
    ok := |r.delivered| > |s.delivered|;
    if ok { v := r.delivered[|s.delivered|]; }
  }

  /** The distance of a lone push from its return, before it starts helping. */
  ghost function PushRank(pc: Pc): nat {
    match pc
    case PushLoadCt(_) => 9
    case PushLoadRd(_, _) => 8
    case PushCas(_, _) => 7
    case PushWrite(_, _, _) => 6
    case PushFlag(_, _) => 5
    case HelpLoadFlag(_) => 4
    case HelpLoadWt(_, _) => 3
    case HelpCas(_, _) => 2
    case HelpStoreWt(_) => 1
    case _ => 0
  }

  /** The locals of a push that runs while nothing else does; `n` is `ct_` at its start. */
  ghost predicate LonePush(s: State, t: nat, v: Value, n: nat) {
    && Inv(s) && OthersIdle(s, t)
    && match s.pcs[t]
       case PushLoadCt(w) => w == v && s.ct == n
       case PushLoadRd(w, cur) => w == v && s.ct == n == cur
       case PushCas(w, cur) => w == v && s.ct == n == cur && n + 1 <= s.rd + SLOTS - 1
       case PushWrite(w, cur, k) => w == v && s.ct == n + 1
       case PushFlag(w, cur) => w == v && s.ct == n + 1
       case HelpLoadFlag(_) => s.ct == n + 1
       case HelpLoadWt(_, _) => s.ct == n + 1
       case HelpCas(_, _) => s.ct == n + 1
       case HelpStoreWt(_) => s.ct == n + 1
       case _ => false
  }

  /** The successor of one step of `push`, whichever part of it the thread is in. */
  function PushNext(s: State, t: nat, fails: bool): State
    requires WellShaped(s) && t < |s.pcs|
  {
    if s.pcs[t].HelpLoadFlag? || s.pcs[t].HelpLoadWt? || s.pcs[t].HelpCas? || s.pcs[t].HelpStoreWt?
    then HelpStep(s, t) else PushStep(s, t, fails)
  }

  ghost predicate PushOutcome(s: State, s': State, v: Value, n: nat)
    requires n <= |s.reserved|
  {
    if n + 1 <= s.rd + SLOTS - 1 then s'.ct == n + 1 && s'.reserved == s.reserved[..n] + [v]
    else s'.ct == n && s'.reserved == s.reserved
  }

  /** A step of a lone push returns the outcome, or comes closer to it. */
  ghost predicate PushProgress(s: State, s': State, t: nat, v: Value, n: nat)
    requires n <= |s.reserved| && t < |s.pcs|
  {
    && Inv(s') && OthersIdle(s', t) && s'.rd == s.rd && s'.width == s.width && s'.delivered == s.delivered
    && s.wt <= s'.wt
    && if s'.pcs[t].Idle? then PushOutcome(s, s', v, n)
       else
         && LonePush(s', t, v, n)
         && s'.reserved == (if s'.ct > n then s.reserved[..n] + [v] else s.reserved)
         && (s'.ct > n ==> n + 1 <= s.rd + SLOTS - 1)
         && (s.wt < s'.wt || PushRank(s'.pcs[t]) < PushRank(s.pcs[t])
             || (s.pcs[t].PushWrite? && s'.pcs[t].PushWrite? && s.pcs[t].k < s'.pcs[t].k <= s.width))
  }

  lemma LonePushReserve(s: State, t: nat, v: Value, n: nat)
    requires LonePush(s, t, v, n) && n == s.ct
    ensures PushProgress(s, PushNext(s, t, false), t, v, n)
  {
    PushStepInv(s, t, false);
    assert ThreadOk(s, t);
    assert s.reserved[..n] == s.reserved;
    if s.pcs[t].PushLoadRd? && n + 1 < s.rd + SLOTS { DistinctSlots(s.rd, n + 1); }
  }

  lemma LonePushWrite(s: State, t: nat, v: Value, n: nat)
    requires LonePush(s, t, v, n) && n < s.ct && (s.pcs[t].PushWrite? || s.pcs[t].PushFlag?)
    requires s.reserved == s.reserved[..n] + [v] && n + 1 <= s.rd + SLOTS - 1
    ensures PushProgress(s, PushNext(s, t, false), t, v, n)
  {
    PushStepInv(s, t, false);
    assert ThreadOk(s, t);
  }

  lemma LonePushHelp(s: State, t: nat, v: Value, n: nat)
    requires LonePush(s, t, v, n) && n < s.ct && !s.pcs[t].PushWrite? && !s.pcs[t].PushFlag?
    requires s.reserved == s.reserved[..n] + [v] && n + 1 <= s.rd + SLOTS - 1
    ensures PushProgress(s, PushNext(s, t, false), t, v, n)
  {
    HelpStepInv(s, t);
    assert ThreadOk(s, t);
    if s.pcs[t].HelpStoreWt? { assert IndexOk(s, s.pcs[t].cur); }
  }

  /** A reservation that fails for no reason sends a lone push back to its beginning and changes nothing else. */
  lemma LonePushRetries(s: State, t: nat, v: Value, n: nat)
    requires LonePush(s, t, v, n) && s.pcs[t].PushCas?
    ensures var s' := PushNext(s, t, true);
            LonePush(s', t, v, n) && s' == Goto(s, t, PushLoadCt(v))
  {
    PushStepInv(s, t, true);
  }

  /** The locals of a lone push that started when all items were visible: it will make its own visible. */
  ghost predicate CatchesUp(s: State, t: nat)
    requires WellShaped(s) && t < |s.pcs|
  {
    match s.pcs[t]
    case PushLoadCt(_) => s.wt == s.ct
    case PushLoadRd(_, _) => s.wt == s.ct
    case PushCas(_, _) => s.wt == s.ct
    case PushWrite(_, cur, _) => s.wt == cur && s.ct == cur + 1
    case PushFlag(_, cur) => s.wt == cur && s.ct == cur + 1
    case HelpLoadFlag(cur) => s.wt == cur
    case HelpLoadWt(cur, cac) => s.wt == cur && SlotOf(s, cur).flag == cac && (cur == s.ct ==> cac == 0)
    case HelpCas(cur, cac) => s.wt == cur < s.ct && SlotOf(s, cur).flag == cac
    case HelpStoreWt(cur) => s.wt == cur < s.ct
    case Idle => s.wt == s.ct
    case _ => false
  }

  lemma PushCatchesUp(s: State, t: nat, fails: bool)
    requires Inv(s) && OthersIdle(s, t) && CatchesUp(s, t) && !s.pcs[t].Idle?
    ensures var s' := PushNext(s, t, fails); WellShaped(s') && t < |s'.pcs| && CatchesUp(s', t)
  {
    assert ThreadOk(s, t);
    if s.pcs[t].HelpLoadFlag? { assert FlagOk(s, IndexOf(s.wt)); }
    if s.pcs[t].HelpLoadWt? && s.wt < s.ct { QuietIndices(s, t, s.wt); }
  }

  /**
   A `push` run alone is exact: it refuses only when all but one of the slots hold
   unread items, however many of its weak exchanges fail for no reason; and if all
   items were visible before, its own is when it returns.
   */
  method PushAlone(s: State, t: nat, v: Value, weak: seq<bool>) returns (ok: bool, r: State)
    requires Inv(s) && OthersIdle(s, t) && s.pcs[t].Idle? && |v| == s.width
    ensures Inv(r) && OthersIdle(r, t) && r.pcs[t].Idle?
    ensures r.rd == s.rd && r.delivered == s.delivered
    ensures ok <==> s.ct - s.rd < SLOTS - 1
    ensures r.reserved == if ok then s.reserved + [v] else s.reserved
    ensures s.wt == s.ct ==> r.wt == r.ct
  {
    r := Step(s, t, StartPush(v));
    StepInv(s, t, StartPush(v));
    assert s.reserved[..s.ct] == s.reserved;
    var rest := weak;
    while !r.pcs[t].Idle?
      invariant r.rd == s.rd && r.width == s.width && r.delivered == s.delivered
      invariant Inv(r) && OthersIdle(r, t)
      invariant if r.pcs[t].Idle? then PushOutcome(s, r, v, s.ct)
                else
                  && LonePush(r, t, v, s.ct)
                  && r.reserved == (if r.ct > s.ct then s.reserved + [v] else s.reserved)
                  && (r.ct > s.ct ==> s.ct + 1 <= s.rd + SLOTS - 1)
      invariant s.wt == s.ct ==> CatchesUp(r, t)
      decreases |rest|, s.ct + 1 - r.wt, PushRank(r.pcs[t]), if r.pcs[t].PushWrite? then s.width - r.pcs[t].k else 0
    {
      assert ThreadOk(r, t);
      assert r.reserved[..s.ct] == s.reserved;
      var fails := false;
      if r.pcs[t].PushCas? && rest != [] { fails, rest := rest[0], rest[1..]; }
      if s.wt == s.ct { PushCatchesUp(r, t, fails); }
      if fails { LonePushRetries(r, t, v, s.ct); }
      else if r.ct == s.ct { LonePushReserve(r, t, v, s.ct); }
      else if r.pcs[t].PushWrite? || r.pcs[t].PushFlag? { LonePushWrite(r, t, v, s.ct); }
      else { LonePushHelp(r, t, v, s.ct); }
      r := PushNext(r, t, fails);
    }
    ok := r.ct > s.ct;
  }
}
