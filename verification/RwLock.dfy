/**
 The reader-writer spin lock (`rw_lock.h`): one 32-bit word whose top bit is the
 writers' flag and whose other bits count the readers.
 */
module RwLock {

  const W_FLAG: nat := 0x8000_0000
  const WORD: nat := 0x1_0000_0000
  const NOBODY: int := -1

  datatype Pc = Idle | LockOr | LockDrain | SharedLoad | SharedCas(seen: nat)

  /** A thread, how often it holds the lock shared, and whether it holds it exclusively. */
  datatype Thread = Thread(pc: Pc, holds: nat, writes: bool)

  /** The lock word; `writer` is proof-only: the thread that set the flag last. */
  datatype State = State(word: nat, threads: seq<Thread>, writer: int)

  datatype Action = Lock | Unlock | LockShared | UnlockShared | Run(spurious: bool)

  function Init(threads: nat): State {
    State(0, seq(threads, _ => Thread(Idle, 0, false)), NOBODY)
  }

  predicate Enabled(s: State, t: nat, a: Action) {
    t < |s.threads| &&
    match a
    case Lock => s.threads[t].pc.Idle? && !s.threads[t].writes
    case Unlock => s.threads[t].pc.Idle? && s.threads[t].writes
    case LockShared => s.threads[t].pc.Idle?
    case UnlockShared => s.threads[t].pc.Idle? && s.threads[t].holds > 0
    case Run(_) => !s.threads[t].pc.Idle?
  }

  function Put(s: State, t: nat, me: Thread): State
    requires t < |s.threads|
  {
    s.(threads := s.threads[t := me])
  }

  /** One atomic access; the word wraps at 32 bits. */
  function Step(s: State, t: nat, a: Action): State
    requires Enabled(s, t, a)
  {
    var me := s.threads[t];
    match a
    case Lock => Put(s, t, me.(pc := LockOr))
    case Unlock => Put(s, t, me.(writes := false)).(word := 0, writer := NOBODY)
    case LockShared => Put(s, t, me.(pc := SharedLoad))
    case UnlockShared => Put(s, t, me.(holds := me.holds - 1)).(word := (s.word + WORD - 1) % WORD)
    case Run(spurious) =>
      match me.pc
      case Idle => s
      case LockOr =>
        if s.word == 0 then Put(s, t, me.(pc := Idle, writes := true)).(word := W_FLAG, writer := t)
        else if s.word < W_FLAG then Put(s, t, me.(pc := LockDrain)).(word := s.word + W_FLAG, writer := t)
        else s
      case LockDrain => if s.word % W_FLAG != 0 then s else Put(s, t, me.(pc := Idle, writes := true))
      case SharedLoad => Put(s, t, me.(pc := SharedCas(s.word)))
      case SharedCas(seen) =>
        if seen >= W_FLAG then Put(s, t, me.(pc := SharedLoad))
        else if s.word == seen && !spurious then
          Put(s, t, me.(pc := Idle, holds := me.holds + 1)).(word := (seen + 1) % WORD)
        else Put(s, t, me.(pc := SharedCas(s.word)))
  }

  /** The number of shared holds. */
  function Readers(threads: seq<Thread>): nat {
    if threads == [] then 0 else threads[0].holds + Readers(threads[1..])
  }

  lemma {:induction false} ReadersUpdate(threads: seq<Thread>, t: nat, me: Thread)
    requires t < |threads|
    ensures Readers(threads[t := me]) == Readers(threads) - threads[t].holds + me.holds
    ensures threads[t].holds <= Readers(threads)
  {
    if t > 0 {
      ReadersUpdate(threads[1..], t - 1, me);
      assert threads[t := me][1..] == threads[1..][t - 1 := me];
    } else {
      assert threads[t := me][1..] == threads[1..];
    }
  }

  predicate Flagged(me: Thread) {
    me.writes || me.pc.LockDrain?
  }

  ghost predicate ThreadOk(s: State, t: nat)
    requires t < |s.threads|
  {
    && (Flagged(s.threads[t]) <==> s.writer == t)
    && (s.threads[t].writes ==> Readers(s.threads) == 0 && !s.threads[t].pc.LockDrain? && !s.threads[t].pc.LockOr?)
  }

  /** The word is the number of readers, plus the flag exactly while some writer holds the lock or drains it. */
  ghost predicate Inv(s: State) {
    && -1 <= s.writer < |s.threads|
    && s.word == Readers(s.threads) + (if s.writer == NOBODY then 0 else W_FLAG)
    && Readers(s.threads) < W_FLAG
    && forall t :: 0 <= t < |s.threads| ==> ThreadOk(s, t)
  }

  lemma {:induction false} NoReadersInitially(threads: nat)
    ensures Readers(seq(threads, _ => Thread(Idle, 0, false))) == 0
  {
    if threads > 0 {
      NoReadersInitially(threads - 1);
      assert seq(threads, _ => Thread(Idle, 0, false))[1..] == seq(threads - 1, _ => Thread(Idle, 0, false));
    }
  }

  /** The part of the invariant that thread `t` needs, with the number of readers as a plain number. */
  ghost predicate SelfOk(s: State, t: nat, readers: nat) {
    && t < |s.threads| && readers < W_FLAG && s.threads[t].holds <= readers && -1 <= s.writer
    && s.word == readers + (if s.writer == NOBODY then 0 else W_FLAG)
    && (Flagged(s.threads[t]) <==> s.writer == t)
    && (s.threads[t].writes ==> readers == 0 && !s.threads[t].pc.LockDrain? && !s.threads[t].pc.LockOr?)
  }

  function Delta(s: State, t: nat, a: Action): int
    requires Enabled(s, t, a)
  {
    Step(s, t, a).threads[t].holds - s.threads[t].holds
  }

  lemma CallSelf(s: State, t: nat, a: Action, readers: nat)
    requires SelfOk(s, t, readers) && Enabled(s, t, a) && !a.Run?
    ensures 0 <= readers + Delta(s, t, a) && SelfOk(Step(s, t, a), t, readers + Delta(s, t, a))
    ensures Step(s, t, a).writer == s.writer || s.writer == t
    ensures s.writer != NOBODY && s.writer != t && readers == 0 ==> Delta(s, t, a) == 0
  {
  }

  lemma RunSelf(s: State, t: nat, a: Action, readers: nat)
    requires SelfOk(s, t, readers) && Enabled(s, t, a) && a.Run? && readers + Delta(s, t, a) < W_FLAG
    ensures 0 <= readers + Delta(s, t, a) && SelfOk(Step(s, t, a), t, readers + Delta(s, t, a))
    ensures Step(s, t, a).writer == s.writer || (s.writer == NOBODY && Step(s, t, a).writer == t)
    ensures s.writer != NOBODY ==> Delta(s, t, a) == 0
  {
  }

  lemma StepReaders(s: State, t: nat, a: Action)
    requires Enabled(s, t, a)
    ensures Step(s, t, a).threads == s.threads[t := Step(s, t, a).threads[t]]
    ensures Readers(Step(s, t, a).threads) == Readers(s.threads) + Delta(s, t, a)
    ensures s.threads[t].holds <= Readers(s.threads)
  {
    assert Step(s, t, a).threads == s.threads[t := Step(s, t, a).threads[t]];
    ReadersUpdate(s.threads, t, Step(s, t, a).threads[t]);
  }

  /** Every step of every thread keeps the invariant. */
  lemma StepInv(s: State, t: nat, a: Action)
    requires Inv(s) && Enabled(s, t, a)
    requires Readers(Step(s, t, a).threads) < W_FLAG
    ensures Inv(Step(s, t, a))
  {
    var s' := Step(s, t, a);
    StepReaders(s, t, a);
    assert ThreadOk(s, t);
    if a.Run? { RunSelf(s, t, a, Readers(s.threads)); } else { CallSelf(s, t, a, Readers(s.threads)); }
    forall u | 0 <= u < |s'.threads| ensures ThreadOk(s', u) { assert ThreadOk(s, u); }
  }

  // ------------------------------------------------------------ whole runs

  type Schedule = seq<(nat, Action)>

  /** The state after a schedule; a decision that is not possible is skipped. */
  function Exec(s: State, schedule: Schedule): State
    decreases |schedule|
  {
    if schedule == [] then s
    else
      var (t, a) := schedule[0];
      if Enabled(s, t, a) then Exec(Step(s, t, a), schedule[1..]) else Exec(s, schedule[1..])
  }

  lemma {:induction false} RunInv(s: State, schedule: Schedule)
    requires Inv(s)
    requires forall n :: 0 <= n <= |schedule| ==> Readers(Exec(s, schedule[..n]).threads) < W_FLAG
    ensures Inv(Exec(s, schedule))
    decreases |schedule|
  {
    if schedule != [] {
      var (t, a) := schedule[0];
      var s' := if Enabled(s, t, a) then Step(s, t, a) else s;
      forall n | 0 <= n <= |schedule[1..]| ensures Readers(Exec(s', schedule[1..][..n]).threads) < W_FLAG {
        assert schedule[..n + 1][1..] == schedule[1..][..n];
        assert Exec(s, schedule[..n + 1]) == Exec(s', schedule[1..][..n]);
      }
      assert Exec(s', schedule[1..][..0]) == s';
      if Enabled(s, t, a) { StepInv(s, t, a); }
      RunInv(s', schedule[1..]);
    }
  }

  /**
   Exclusion in every run that never has 2^31 shared holds at once: the word
   always spells out the holders, there are never two writers, and never a writer
   together with a reader.
   */
  lemma Exclusion(threads: nat, schedule: Schedule, t: nat, u: nat)
    requires forall n :: 0 <= n <= |schedule| ==> Readers(Exec(Init(threads), schedule[..n]).threads) < W_FLAG
    ensures var s := Exec(Init(threads), schedule);
            && s.word == Readers(s.threads)
                 + (if exists w :: 0 <= w < |s.threads| && Flagged(s.threads[w]) then W_FLAG else 0)
            && (t < |s.threads| && u < |s.threads| && s.threads[t].writes ==>
                  s.threads[u].holds == 0 && (u != t ==> !s.threads[u].writes))
  {
    NoReadersInitially(threads);
    RunInv(Init(threads), schedule);
    var s := Exec(Init(threads), schedule);
    if s.writer != NOBODY { assert ThreadOk(s, s.writer); }
    forall w | 0 <= w < |s.threads| ensures Flagged(s.threads[w]) ==> s.writer == w { assert ThreadOk(s, w); }
    if t < |s.threads| && u < |s.threads| {
      assert ThreadOk(s, t) && ThreadOk(s, u);
      ReadersUpdate(s.threads, u, s.threads[u]);
    }
  }

  /** Once a writer has set the flag, no step of any thread adds a reader. */
  lemma NoReaderOvertakes(s: State, t: nat, a: Action)
    requires Inv(s) && Enabled(s, t, a) && s.writer != NOBODY
    ensures Readers(Step(s, t, a).threads) <= Readers(s.threads)
  {
    StepReaders(s, t, a);
    assert ThreadOk(s, t);
  }

  /** The bound is exact: the reader that makes it 2^31 raises the writers' flag with no writer about. */
  lemma TooManyReaders(s: State, t: nat)
    requires Inv(s) && s.writer == NOBODY && t < |s.threads|
    requires Readers(s.threads) == W_FLAG - 1 && s.threads[t].pc == SharedCas(s.word)
    ensures var s' := Step(s, t, Run(false));
            s'.word == W_FLAG && s'.writer == NOBODY && Readers(s'.threads) == W_FLAG && !Inv(s')
  {
    ReadersUpdate(s.threads, t, s.threads[t].(pc := Idle, holds := s.threads[t].holds + 1));
  }

  // ------------------------------------------------------- taking and releasing

  /** `unlock` leaves the word zero: no writer, no reader, and nobody else is touched. */
  lemma UnlockReleases(s: State, t: nat)
    requires Inv(s) && Enabled(s, t, Unlock)
    ensures var s' := Step(s, t, Unlock);
            && s'.word == 0 && s'.writer == NOBODY && Readers(s'.threads) == 0
            && s'.threads == s.threads[t := s.threads[t].(writes := false)]
            && forall u :: 0 <= u < |s'.threads| ==> !Flagged(s'.threads[u])
  {
    assert ThreadOk(s, t);
    StepReaders(s, t, Unlock);
    forall u | 0 <= u < |s.threads| && u != t ensures !Flagged(s.threads[u]) { assert ThreadOk(s, u); }
  }

  /** `unlock_shared` lowers the word and the number of readers by one. */
  lemma UnlockSharedLowers(s: State, t: nat)
    requires Inv(s) && Enabled(s, t, UnlockShared)
    ensures var s' := Step(s, t, UnlockShared);
            && s'.word == s.word - 1 && s'.writer == s.writer && Readers(s'.threads) == Readers(s.threads) - 1
            && s'.threads == s.threads[t := s.threads[t].(holds := s.threads[t].holds - 1)]
  {
    ReadersUpdate(s.threads, t, s.threads[t].(holds := s.threads[t].holds - 1));
    ReadersUpdate(s.threads, t, s.threads[t]);
  }

  /** A call ends only with the lock: exclusively for `lock`, once more shared for `lock_shared`. */
  lemma CallEndsHolding(s: State, t: nat, a: Action)
    requires Enabled(s, t, a) && !s.threads[t].pc.Idle?
    ensures var me, me' := s.threads[t], Step(s, t, a).threads[t];
            && (me.pc.LockOr? || me.pc.LockDrain? ==>
                  ((me'.pc.LockOr? || me'.pc.LockDrain?) && me'.writes == me.writes && me'.holds == me.holds)
                  || me' == me.(pc := Idle, writes := true))
            && (me.pc.SharedLoad? || me.pc.SharedCas? ==>
                  ((me'.pc.SharedLoad? || me'.pc.SharedCas?) && me'.writes == me.writes && me'.holds == me.holds)
                  || me' == me.(pc := Idle, holds := me.holds + 1))
  {
  }

  /** On a free lock, `lock` takes it in its first step; a writer that drained the readers takes it in its next. */
  lemma LockTakes(s: State, t: nat)
    requires Inv(s) && t < |s.threads| && !s.threads[t].writes
    ensures s.threads[t].pc.LockOr? && s.writer == NOBODY && Readers(s.threads) == 0 ==>
              Step(s, t, Run(false)).threads[t] == s.threads[t].(pc := Idle, writes := true)
    ensures s.threads[t].pc.LockDrain? && Readers(s.threads) == 0 ==>
              Step(s, t, Run(false)).threads[t] == s.threads[t].(pc := Idle, writes := true)
  {
    assert ThreadOk(s, t);
  }

  /** Without a writer, `lock_shared` run alone gets in, whatever it saw before. */
  lemma LockSharedTakes(s: State, t: nat)
    requires Inv(s) && Enabled(s, t, LockShared) && s.writer == NOBODY
    ensures var s1 := Step(s, t, LockShared);
            var s2 := Step(s1, t, Run(false));
            var s3 := Step(s2, t, Run(false));
            s3 == Put(s, t, s.threads[t].(holds := s.threads[t].holds + 1)).(word := s.word + 1)
  {
  }
}
