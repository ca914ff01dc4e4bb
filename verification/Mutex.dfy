/**
 The blocking mutex (kernel/core/locking/mutex.c, with the decrement-based fast paths of
 kernel/include/asm-generic/mutex-dec.h) as a step machine over any number of tasks.
 Every operation on `count`, the spinlock, the wait list or a task's state is one step.
 */
module Mutex {
  import opened Wrappers
  import opened Lists

  type Task = int

  /**
   Where a task is.  `intr` says that it sleeps interruptibly.  The states between
   taking and dropping `wait_lock` are those of `InWaitLock`.
   */
  datatype PC =
    | Idle
    | Held
    | LockSlow(intr: bool)
    | Enqueue(intr: bool)
    | FirstXchg(intr: bool)
    | LoopXchg(intr: bool)
    | CheckSignal(intr: bool)
    | DropToSleep(intr: bool)
    | Asleep(intr: bool)
    | Relock(intr: bool)
    | DropInterrupted
    | RemoveSelf
    | ClearCount
    | DropAcquired
    | UnlockSlow
    | UnlockSet
    | UnlockWake
    | UnlockDrop
    | TrySlow
    | TryXchg
    | TryClear(won: bool)
    | TryDrop(won: bool)

  /** `owner` only records who has the mutex; `runnable` is the task state, `signal` its pending signals. */
  datatype State = State(
    count: int,
    waitLock: Option<Task>,
    waitList: seq<Task>,
    pc: Task -> PC,
    runnable: Task -> bool,
    signal: Task -> bool,
    owner: Option<Task>)

  /** Calls a task can make, its next step, and signals or other wakeups from outside. */
  datatype Action = Lock(intr: bool) | Trylock(viaSpinlock: bool) | Unlock | Run | Signal(pending: bool) | SpuriousWake

  function At(s: State, t: Task, p: PC): State {
    s.(pc := Set(s.pc, t, p))
  }

  ghost predicate Enabled(s: State, t: Task, a: Action) {
    match a
    case Lock(_) => s.pc(t) == Idle
    case Trylock(_) => s.pc(t) == Idle
    case Unlock => s.pc(t) == Held
    case _ => true
  }

  /** The fast paths: decrement to lock, increment to unlock, cmpxchg 1 -> 0 or the slow path to try. */
  function Call(s: State, t: Task, a: Action): State {
    match a
    case Lock(intr) =>
      if s.count - 1 < 0 then At(s.(count := s.count - 1), t, LockSlow(intr))
      else At(s.(count := s.count - 1, owner := Some(t)), t, Held)
    case Trylock(viaSpinlock) =>
      if viaSpinlock then At(s, t, TrySlow)
      else if s.count == 1 then At(s.(count := 0, owner := Some(t)), t, Held)
      else s
    case Unlock =>
      if s.count + 1 <= 0 then At(s.(count := s.count + 1), t, UnlockSlow)
      else At(s.(count := s.count + 1, owner := None), t, Idle)
    case Signal(pending) => s.(signal := Set(s.signal, t, pending))
    case SpuriousWake => s.(runnable := Set(s.runnable, t, true))
    case Run => s
  }

  function TakeSpin(s: State, t: Task, p: PC): State {
    if s.waitLock.None? then At(s.(waitLock := Some(t)), t, p) else s
  }

  function DropSpin(s: State, t: Task, p: PC): State {
    At(s.(waitLock := None), t, p)
  }

  /** xchg of the count with -1: the old value 1 means the mutex is now ours. */
  function XchgMinusOne(s: State, t: Task, won: PC, lost: PC): State {
    if s.count == 1 then At(s.(count := -1, owner := Some(t)), t, won)
    else At(s.(count := -1), t, lost)
  }

  /** __mutex_lock_common (mutex.c:120-179). */
  function LockStep(s: State, t: Task): State {
    var p := s.pc(t);
    match p
    case LockSlow(intr) => TakeSpin(s, t, Enqueue(intr))
    case Enqueue(intr) => At(s.(waitList := s.waitList + [t]), t, FirstXchg(intr))
    case FirstXchg(intr) => XchgMinusOne(s, t, RemoveSelf, LoopXchg(intr))
    case LoopXchg(intr) => XchgMinusOne(s, t, RemoveSelf, CheckSignal(intr))
    case CheckSignal(intr) =>
      if intr && s.signal(t) then At(s.(waitList := Without(s.waitList, t)), t, DropInterrupted)
      else At(s.(runnable := Set(s.runnable, t, false)), t, DropToSleep(intr))
    case DropToSleep(intr) => DropSpin(s, t, Asleep(intr))
    case Asleep(intr) =>
      if s.runnable(t) || (intr && s.signal(t))
      then At(s.(runnable := Set(s.runnable, t, true)), t, Relock(intr)) else s
    case Relock(intr) => TakeSpin(s, t, LoopXchg(intr))
    case DropInterrupted => DropSpin(s, t, Idle)
    case RemoveSelf => At(s.(waitList := Without(s.waitList, t)), t, ClearCount)
    case ClearCount => At(if s.waitList == [] then s.(count := 0) else s, t, DropAcquired)
    case DropAcquired => DropSpin(s, t, Held)
    case _ => s
  }

  /** __mutex_unlock_common_slowpath and __mutex_trylock_slowpath (mutex.c:191-211, 273-285). */
  function ReleaseStep(s: State, t: Task): State {
    var p := s.pc(t);
    match p
    case UnlockSlow => TakeSpin(s, t, UnlockSet)
    case UnlockSet => At(s.(count := 1, owner := None), t, UnlockWake)
    case UnlockWake =>
      At(if s.waitList == [] then s else s.(runnable := Set(s.runnable, s.waitList[0], true)), t, UnlockDrop)
    case UnlockDrop => DropSpin(s, t, Idle)
    case TrySlow => TakeSpin(s, t, TryXchg)
    case TryXchg => XchgMinusOne(s, t, TryClear(true), TryClear(false))
    case TryClear(won) => At(if s.waitList == [] then s.(count := 0) else s, t, TryDrop(won))
    case TryDrop(won) => DropSpin(s, t, if won then Held else Idle)
    case _ => s
  }

  predicate InRelease(p: PC) {
    || p.UnlockSlow? || p.UnlockSet? || p.UnlockWake? || p.UnlockDrop?
    || p.TrySlow? || p.TryXchg? || p.TryClear? || p.TryDrop?
  }

  function Step(s: State, t: Task, a: Action): State {
    if !a.Run? then Call(s, t, a)
    else if InRelease(s.pc(t)) then ReleaseStep(s, t)
    else LockStep(s, t)
  }

  // ---------------------------------------------------------------- invariant

  /** The task has the mutex, or is in an unlock that has not yet stored 1. */
  predicate Owns(p: PC) {
    || p.Held? || p.RemoveSelf? || p.ClearCount? || p.DropAcquired?
    || p == TryClear(true) || p == TryDrop(true)
    || p.UnlockSlow? || p.UnlockSet?
  }

  predicate InWaitLock(p: PC) {
    || p.Enqueue? || p.FirstXchg? || p.LoopXchg? || p.CheckSignal? || p.DropToSleep? || p.DropInterrupted?
    || p.RemoveSelf? || p.ClearCount? || p.DropAcquired?
    || p.UnlockSet? || p.UnlockWake? || p.UnlockDrop?
    || p.TryXchg? || p.TryClear? || p.TryDrop?
  }

  predicate Queued(p: PC) {
    || p.FirstXchg? || p.LoopXchg? || p.CheckSignal? || p.DropToSleep? || p.Asleep? || p.Relock? || p.RemoveSelf?
  }

  /** A queued waiter that will run its exchange again without anybody's help. */
  predicate WillRetry(s: State, w: Task) {
    var p := s.pc(w);
    p.FirstXchg? || p.LoopXchg? || p.Relock? || (p.Asleep? && s.runnable(w))
  }

  /** A slow-path unlock has started and has not yet woken the first waiter. */
  predicate UnlockInProgress(s: State) {
    || (s.owner.Some? && (s.pc(s.owner.value).UnlockSlow? || s.pc(s.owner.value).UnlockSet?))
    || (s.waitLock.Some? && s.pc(s.waitLock.value).UnlockWake?)
  }

  ghost predicate OwnerInv(s: State) {
    && (forall t: Task :: Owns(s.pc(t)) <==> s.owner == Some(t))
    && s.count <= 1
    && (s.count == 1 <==> s.owner.None?)
  }

  ghost predicate SpinInv(s: State) {
    forall t: Task :: InWaitLock(s.pc(t)) <==> s.waitLock == Some(t)
  }

  ghost predicate ListInv(s: State) {
    && NoDup(s.waitList)
    && (forall t: Task :: t in s.waitList <==> Queued(s.pc(t)))
  }

  /** After a lost exchange, or a won one, the count stays negative until the owner starts to unlock. */
  ghost predicate CountInv(s: State) {
    forall t: Task ::
      && (s.pc(t).RemoveSelf? || s.pc(t).ClearCount? || s.pc(t) == TryClear(true) ==> s.count < 0)
      && (s.pc(t).CheckSignal? || s.pc(t) == TryClear(false) ==> s.count < 0 || UnlockInProgress(s))
  }

  /** No lost wakeup. */
  ghost predicate WakeInv(s: State) {
    s.waitList != [] ==>
      || s.count < 0
      || UnlockInProgress(s)
      || exists w: Task :: w in s.waitList && WillRetry(s, w)
  }

  ghost predicate Inv(s: State) {
    OwnerInv(s) && SpinInv(s) && ListInv(s) && CountInv(s) && WakeInv(s)
  }

  ghost predicate Init(s: State) {
    && s.count == 1 && s.waitLock == None && s.waitList == [] && s.owner == None
    && forall t: Task :: s.pc(t) == Idle && s.runnable(t)
  }

  // ------------------------------------------------------------------- proofs

  lemma InitInv(s: State)
    requires Init(s)
    ensures Inv(s)
  {
  }

  /** A waiter that will retry still will after the step of another task. */
  lemma KeepWake(s: State, s': State)
    requires WakeInv(s) && s'.waitList == s.waitList
    requires s.count < 0 && s.waitList != [] ==> s'.count < 0 || UnlockInProgress(s')
    requires UnlockInProgress(s) ==> UnlockInProgress(s')
    requires forall w: Task :: w in s.waitList && WillRetry(s, w) ==> WillRetry(s', w)
    ensures WakeInv(s')
  {
    if exists w: Task :: w in s.waitList && WillRetry(s, w) {
      var w: Task :| w in s.waitList && WillRetry(s, w);
      assert w in s'.waitList && WillRetry(s', w);
    }
  }

  // ---- calls and signals

  lemma CallKeepsOwner(s: State, t: Task, a: Action)
    requires OwnerInv(s) && Enabled(s, t, a) && !a.Run?
    ensures OwnerInv(Call(s, t, a))
  {
  }

  lemma CallKeepsLists(s: State, t: Task, a: Action)
    requires SpinInv(s) && ListInv(s) && Enabled(s, t, a) && !a.Run?
    ensures SpinInv(Call(s, t, a)) && ListInv(Call(s, t, a))
  {
    SpinStep(s, Call(s, t, a), t);
    ListStep(s, Call(s, t, a), t);
  }

  lemma CallKeepsUnlock(s: State, t: Task, a: Action)
    requires OwnerInv(s) && SpinInv(s) && Enabled(s, t, a) && !a.Run?
    ensures UnlockInProgress(s) ==> UnlockInProgress(Call(s, t, a))
    ensures s.count < 0 ==> Call(s, t, a).count < 0 || UnlockInProgress(Call(s, t, a))
  {
  }

  lemma CallKeepsCount(s: State, t: Task, a: Action)
    requires OwnerInv(s) && SpinInv(s) && CountInv(s) && Enabled(s, t, a) && !a.Run?
    ensures CountInv(Call(s, t, a))
  {
    CallKeepsUnlock(s, t, a);
    var s' := Call(s, t, a);
    forall u: Task
      ensures s'.pc(u).RemoveSelf? || s'.pc(u).ClearCount? || s'.pc(u) == TryClear(true) ==> s'.count < 0
    {
      assert u != t ==> s'.pc(u) == s.pc(u);
    }
  }

  lemma CallKeepsWake(s: State, t: Task, a: Action)
    requires OwnerInv(s) && SpinInv(s) && ListInv(s) && WakeInv(s) && Enabled(s, t, a) && !a.Run?
    ensures WakeInv(Call(s, t, a))
  {
    CallKeepsUnlock(s, t, a);
    KeepWake(s, Call(s, t, a));
  }

  // ---- the lock slow path

  lemma LockKeepsOwner(s: State, t: Task)
    requires OwnerInv(s) && CountInv(s)
    ensures OwnerInv(LockStep(s, t))
  {
  }

  lemma LockKeepsSpin(s: State, t: Task)
    requires SpinInv(s)
    ensures SpinInv(LockStep(s, t))
  {
    SpinStep(s, LockStep(s, t), t);
  }

  /** A step that takes the spinlock when it is free, gives it back, or keeps what it has. */
  lemma SpinStep(s: State, s': State, t: Task)
    requires SpinInv(s) && (forall u: Task :: u != t ==> s'.pc(u) == s.pc(u))
    requires
      || (s'.waitLock == s.waitLock && InWaitLock(s'.pc(t)) == InWaitLock(s.pc(t)))
      || (s.waitLock == None && s'.waitLock == Some(t) && InWaitLock(s'.pc(t)))
      || (s.waitLock == Some(t) && s'.waitLock == None && !InWaitLock(s'.pc(t)))
    ensures SpinInv(s')
  {
  }

  lemma ListStep(s: State, s': State, t: Task)
    requires ListInv(s) && (forall u: Task :: u != t ==> s'.pc(u) == s.pc(u))
    requires
      || (s'.waitList == s.waitList && Queued(s'.pc(t)) == Queued(s.pc(t)))
      || (s'.waitList == s.waitList + [t] && !Queued(s.pc(t)) && Queued(s'.pc(t)))
      || (s'.waitList == Without(s.waitList, t) && !Queued(s'.pc(t)))
    ensures ListInv(s')
  {
    WithoutProps(s.waitList, t);
    assert forall u: Task :: u in s.waitList + [t] <==> u in s.waitList || u == t;
  }

  lemma LockKeepsList(s: State, t: Task)
    requires ListInv(s)
    ensures ListInv(LockStep(s, t))
  {
    ListStep(s, LockStep(s, t), t);
  }

  lemma LockKeepsUnlock(s: State, t: Task)
    requires OwnerInv(s) && SpinInv(s)
    ensures UnlockInProgress(s) ==> UnlockInProgress(LockStep(s, t))
  {
  }

  lemma LockKeepsCount(s: State, t: Task)
    requires OwnerInv(s) && SpinInv(s) && CountInv(s)
    ensures CountInv(LockStep(s, t))
  {
    LockKeepsUnlock(s, t);
    var s' := LockStep(s, t);
    forall u: Task | u != t
      ensures s'.pc(u) == s.pc(u)
      ensures s.pc(t).ClearCount? ==> !InWaitLock(s.pc(u))
    {
    }
  }

  lemma LockKeepsWake(s: State, t: Task)
    requires Inv(s)
    ensures WakeInv(LockStep(s, t))
  {
    var p, s' := s.pc(t), LockStep(s, t);
    LockKeepsUnlock(s, t);
    if p.Enqueue? {
      assert t in s'.waitList && WillRetry(s', t);
    } else if p.RemoveSelf? || p.CheckSignal? || p.FirstXchg? || p.LoopXchg? {
      assert s'.count < 0 || UnlockInProgress(s');
    } else {
      KeepWake(s, s');
    }
  }

  // ---- the unlock and trylock slow paths

  lemma ReleaseKeepsOwner(s: State, t: Task)
    requires OwnerInv(s) && SpinInv(s) && CountInv(s) && InRelease(s.pc(t))
    ensures OwnerInv(ReleaseStep(s, t))
  {
    if s.pc(t).TryClear? {
      assert s.waitLock == Some(t);
    }
  }

  lemma ReleaseKeepsLists(s: State, t: Task)
    requires SpinInv(s) && ListInv(s) && InRelease(s.pc(t))
    ensures SpinInv(ReleaseStep(s, t)) && ListInv(ReleaseStep(s, t))
  {
    ReleaseKeepsSpin(s, t);
    ListStep(s, ReleaseStep(s, t), t);
  }

  lemma ReleaseKeepsSpin(s: State, t: Task)
    requires SpinInv(s) && InRelease(s.pc(t))
    ensures SpinInv(ReleaseStep(s, t))
  {
    SpinStep(s, ReleaseStep(s, t), t);
  }

  lemma ReleaseKeepsUnlock(s: State, t: Task)
    requires OwnerInv(s) && SpinInv(s) && InRelease(s.pc(t)) && !s.pc(t).UnlockWake?
    ensures UnlockInProgress(s) ==> UnlockInProgress(ReleaseStep(s, t))
  {
  }

  lemma ReleaseKeepsCount(s: State, t: Task)
    requires OwnerInv(s) && SpinInv(s) && CountInv(s) && InRelease(s.pc(t))
    ensures CountInv(ReleaseStep(s, t))
  {
    if !s.pc(t).UnlockWake? {
      ReleaseKeepsUnlock(s, t);
    }
    var s' := ReleaseStep(s, t);
    forall u: Task | u != t
      ensures s'.pc(u) == s.pc(u)
      ensures InWaitLock(s.pc(t)) ==> !InWaitLock(s.pc(u))
    {
    }
  }

  /** The first waiter sleeps, or is on its way back to the spinlock; waking it makes it retry. */
  lemma WakeFirst(s: State, t: Task)
    requires SpinInv(s) && ListInv(s) && s.pc(t).UnlockWake? && s.waitList != []
    ensures WillRetry(ReleaseStep(s, t), s.waitList[0])
  {
    var w := s.waitList[0];
    assert w in s.waitList && !InWaitLock(s.pc(w));
  }

  lemma ReleaseKeepsWake(s: State, t: Task)
    requires Inv(s) && InRelease(s.pc(t))
    ensures WakeInv(ReleaseStep(s, t))
  {
    var p, s' := s.pc(t), ReleaseStep(s, t);
    if p.UnlockWake? {
      if s.waitList != [] {
        WakeFirst(s, t);
        assert s.waitList[0] in s'.waitList;
      }
    } else {
      ReleaseKeepsUnlock(s, t);
      KeepWake(s, s');
    }
  }

  // ------------------------------------------------------------ the main results

  lemma StepKeepsInv(s: State, t: Task, a: Action)
    requires Inv(s) && Enabled(s, t, a)
    ensures Inv(Step(s, t, a))
  {
    if !a.Run? {
      CallKeepsOwner(s, t, a);
      CallKeepsLists(s, t, a);
      CallKeepsCount(s, t, a);
      CallKeepsWake(s, t, a);
    } else if InRelease(s.pc(t)) {
      ReleaseKeepsOwner(s, t);
      ReleaseKeepsLists(s, t);
      ReleaseKeepsCount(s, t);
      ReleaseKeepsWake(s, t);
    } else {
      LockKeepsOwner(s, t);
      LockKeepsSpin(s, t);
      LockKeepsList(s, t);
      LockKeepsCount(s, t);
      LockKeepsWake(s, t);
    }
  }

  datatype Event = Event(t: Task, a: Action)

  ghost predicate IsRun(s: State, es: seq<Event>)
    decreases |es|
  {
    es == [] || (Enabled(s, es[0].t, es[0].a) && IsRun(Step(s, es[0].t, es[0].a), es[1..]))
  }

  function After(s: State, es: seq<Event>): State
    decreases |es|
  {
    if es == [] then s else After(Step(s, es[0].t, es[0].a), es[1..])
  }

  lemma {:induction false} RunKeepsInv(s: State, es: seq<Event>)
    requires Inv(s) && IsRun(s, es)
    ensures Inv(After(s, es))
    decreases |es|
  {
    if es != [] {
      StepKeepsInv(s, es[0].t, es[0].a);
      RunKeepsInv(Step(s, es[0].t, es[0].a), es[1..]);
    }
  }

  /** At most one task holds the mutex, and the count is 1 exactly when it is free. */
  lemma InvExcludes(r: State)
    requires Inv(r)
    ensures forall t: Task, u: Task :: r.pc(t).Held? && r.pc(u).Held? ==> t == u
    ensures forall t: Task :: r.pc(t).Held? ==> r.count <= 0
    ensures r.count == 1 <==> forall v: Task :: !Owns(r.pc(v))
  {
    forall t: Task | r.pc(t).Held? ensures r.owner == Some(t) {
      assert Owns(r.pc(t));
    }
    if r.owner.Some? {
      var o: Task := r.owner.value;
      assert r.owner == Some(o);
      assert Owns(r.pc(o));
    }
  }

  lemma MutualExclusion(s: State, es: seq<Event>, t: Task, u: Task)
    requires Init(s) && IsRun(s, es)
    ensures After(s, es).pc(t).Held? && After(s, es).pc(u).Held? ==> t == u
    ensures After(s, es).pc(t).Held? ==> After(s, es).count <= 0
    ensures After(s, es).count == 1 <==> forall v: Task :: !Owns(After(s, es).pc(v))
  {
    InitInv(s);
    RunKeepsInv(s, es);
    InvExcludes(After(s, es));
  }

  /**
   In every run, whenever tasks wait, the mutex is owned with a negative count (so its
   unlock takes the slow path and wakes the first of them), or such an unlock is under
   way, or some waiter will run its exchange again by itself.
   */
  lemma NoLostWakeup(s: State, es: seq<Event>)
    requires Init(s) && IsRun(s, es) && After(s, es).waitList != []
    ensures var r := After(s, es);
      || (r.count < 0 && r.owner.Some? && Owns(r.pc(r.owner.value)))
      || UnlockInProgress(r)
      || exists w: Task :: w in r.waitList && WillRetry(r, w)
  {
    InitInv(s);
    RunKeepsInv(s, es);
    InvWakes(After(s, es));
  }

  lemma InvWakes(r: State)
    requires Inv(r) && r.waitList != []
    ensures
      || (r.count < 0 && r.owner.Some? && Owns(r.pc(r.owner.value)))
      || UnlockInProgress(r)
      || exists w: Task :: w in r.waitList && WillRetry(r, w)
  {
    if r.owner.Some? {
      var o: Task := r.owner.value;
      assert r.owner == Some(o);
      assert Owns(r.pc(o));
    }
  }

  /**
   A free mutex is never left with only sleepers: a waiter will retry by itself or an unlock
   is about to wake the first one, and whoever reaches its exchange while it is free gets it.
   */
  lemma FreeMutexIsTaken(s: State, es: seq<Event>, w: Task)
    requires Init(s) && IsRun(s, es) && After(s, es).count == 1
    ensures var r := After(s, es);
      && (r.waitList != [] ==> UnlockInProgress(r) || exists v: Task :: v in r.waitList && WillRetry(r, v))
      && (r.pc(w).LoopXchg? || r.pc(w).FirstXchg? ==> Step(r, w, Run).owner == Some(w))
  {
    InitInv(s);
    RunKeepsInv(s, es);
  }

  /** An unlock with waiters enters the slow path, or leaves a free mutex that some waiter is about to try again. */
  lemma UnlockWakesSomebody(s: State, es: seq<Event>, t: Task)
    requires Init(s) && IsRun(s, es) && After(s, es).pc(t).Held? && After(s, es).waitList != []
    ensures var r' := Step(After(s, es), t, Unlock);
      UnlockInProgress(r') || (r'.count == 1 && exists w: Task :: w in r'.waitList && WillRetry(r', w))
  {
    InitInv(s);
    RunKeepsInv(s, es);
    StepKeepsInv(After(s, es), t, Unlock);
  }

  // ------------------------------------------------------------------- how calls return

  predicate IsCall(a: Action) { a.Lock? || a.Trylock? || a.Unlock? }

  /**
   What can be told of a task's last call from the steps of the run: which one it was, whether it
   found the count 1 with a decrement, exchange or cmpxchg of its own, and whether its test for a
   signal found one pending.
   */
  datatype Past = Past(call: Option<Action>, took: bool, interrupted: bool)

  /** A step at which a task that has not got the mutex looks whether the count is 1. */
  predicate Tries(p: PC, a: Action) {
    a.Lock? || a == Trylock(false) || (a.Run? && (p.FirstXchg? || p.LoopXchg? || p.TryXchg?))
  }

  function PastStep(s: State, t: Task, a: Action, past: Past): Past {
    var call := IsCall(a);
    Past(if call then Some(a) else past.call,
         (!call && past.took) || (Tries(s.pc(t), a) && s.count == 1),
         !call && (past.interrupted || (a.Run? && s.pc(t).CheckSignal? && s.signal(t))))
  }

  function PastOf(s: State, es: seq<Event>, t: Task, before: Past): Past
    decreases |es|
  {
    if es == [] then before
    else PastOf(Step(s, es[0].t, es[0].a), es[1..], t,
                if es[0].t == t then PastStep(s, t, es[0].a, before) else before)
  }

  predicate LockPc(p: PC, intr: bool) {
    || p == LockSlow(intr) || p == Enqueue(intr) || p == FirstXchg(intr) || p == LoopXchg(intr)
    || p == CheckSignal(intr) || p == DropToSleep(intr) || p == Asleep(intr) || p == Relock(intr)
  }

  predicate WonPc(p: PC) { p.Held? || p.RemoveSelf? || p.ClearCount? || p.DropAcquired? }

  /** Where a task is, given its last call and what that has found. */
  predicate CallOk(p: PC, past: Past) {
    match past.call
    case None => p == Idle
    case Some(Lock(intr)) =>
      if past.took then WonPc(p)
      else if intr && past.interrupted then p == DropInterrupted || p == Idle
      else LockPc(p, intr)
    case Some(Trylock(_)) =>
      if past.took then p == Held || p == TryClear(true) || p == TryDrop(true)
      else p == Idle || p == TrySlow || p == TryXchg || p == TryClear(false) || p == TryDrop(false)
    case Some(Unlock) => p == Idle || p == UnlockSlow || p == UnlockSet || p == UnlockWake || p == UnlockDrop
    case Some(_) => false
  }

  lemma OwnStep(s: State, t: Task, a: Action, past: Past)
    requires Enabled(s, t, a) && CallOk(s.pc(t), past) && s.count <= 1
    ensures CallOk(Step(s, t, a).pc(t), PastStep(s, t, a, past))
  {
  }

  lemma OthersLeave(s: State, u: Task, a: Action, t: Task)
    requires t != u
    ensures Step(s, u, a).pc(t) == s.pc(t)
  {
  }

  lemma {:induction false} RunKeepsCall(s: State, es: seq<Event>, t: Task, past: Past)
    requires Inv(s) && IsRun(s, es) && CallOk(s.pc(t), past)
    ensures CallOk(After(s, es).pc(t), PastOf(s, es, t, past))
    decreases |es|
  {
    if es != [] {
      var u, a := es[0].t, es[0].a;
      StepKeepsInv(s, u, a);
      if u == t { OwnStep(s, t, a, past); } else { OthersLeave(s, u, a, t); }
      RunKeepsCall(Step(s, u, a), es[1..], t, if u == t then PastStep(s, t, a, past) else past);
    }
  }

  /**
   In every run, mutex_lock returns only with the mutex.  The interruptible form returns without it
   exactly if an exchange of its own found the mutex taken and then a signal was pending; and a
   call that has found the mutex free has it.
   */
  lemma LockReturns(s: State, es: seq<Event>, t: Task, intr: bool)
    requires Init(s) && IsRun(s, es) && PastOf(s, es, t, Past(None, false, false)).call == Some(Lock(intr))
    ensures var r, past := After(s, es), PastOf(s, es, t, Past(None, false, false));
      && (r.pc(t) == Idle || r.pc(t) == DropInterrupted <==> intr && past.interrupted && !past.took)
      && (past.took <==> r.owner == Some(t)) && (r.pc(t) == Held ==> past.took)
  {
    InitInv(s);
    RunKeepsInv(s, es);
    RunKeepsCall(s, es, t, Past(None, false, false));
    assert Owns(After(s, es).pc(t)) <==> After(s, es).owner == Some(t);
  }

  /** In every run, a mutex_trylock that has returned has the mutex exactly if it found it free, and
      a task that has returned from mutex_unlock does not have it. */
  lemma TrylockReturns(s: State, es: seq<Event>, t: Task)
    requires Init(s) && IsRun(s, es)
    ensures var r, past := After(s, es), PastOf(s, es, t, Past(None, false, false));
      && (past.call.Some? && past.call.value.Trylock? && (r.pc(t) == Idle || r.pc(t) == Held) ==>
            (r.pc(t) == Held <==> past.took) && (r.owner == Some(t) <==> past.took))
      && (past.call == Some(Unlock) ==> r.pc(t) != Held && (r.pc(t) == Idle ==> r.owner != Some(t)))
  {
    InitInv(s);
    RunKeepsInv(s, es);
    RunKeepsCall(s, es, t, Past(None, false, false));
    assert Owns(After(s, es).pc(t)) <==> After(s, es).owner == Some(t);
  }

  // --------------------------------------------------------------------------- progress

  /** What a task waits for; everywhere else in a call its next step takes it further. */
  predicate Waits(s: State, t: Task) {
    match s.pc(t)
    case Idle => true
    case Held => true
    case LockSlow(_) => s.waitLock.Some?
    case Relock(_) => s.waitLock.Some?
    case UnlockSlow => s.waitLock.Some?
    case TrySlow => s.waitLock.Some?
    case Asleep(intr) => !s.runnable(t) && !(intr && s.signal(t))
    case _ => false
  }

  /** A step leaves a task where it is exactly if it waits for the spinlock or to be woken. */
  lemma MovesOrWaits(s: State, t: Task)
    ensures Step(s, t, Run).pc(t) == s.pc(t) <==> Waits(s, t)
  {
  }

  /** Among tasks that all wait for the spinlock or to be woken, some are asleep while the mutex is held. */
  lemma AllWait(r: State, t: Task)
    requires Inv(r) && r.pc(t) != Idle && forall u: Task :: Waits(r, u)
    ensures exists u: Task :: r.pc(u) == Held
  {
    if r.waitLock.Some? {
      var u: Task := r.waitLock.value;
      assert r.waitLock == Some(u);
      assert InWaitLock(r.pc(u)) && Waits(r, u);
    } else if r.pc(t) != Held {
      assert Waits(r, t) && Queued(r.pc(t));
      InvWakes(r);
      assert forall w: Task :: WillRetry(r, w) ==> !Waits(r, w);
      var o: Task := r.owner.value;
      assert Waits(r, o);
    }
  }

  predicate Sleeping(p: PC) { p.DropToSleep? || p.Asleep? }

  /** The step wakes t: an unlock that finds it first on the list, or a wakeup from elsewhere. */
  predicate Wakes(s: State, e: Event, t: Task) {
    || (e.t == t && e.a.SpuriousWake?)
    || (e.a.Run? && s.pc(e.t).UnlockWake? && s.waitList != [] && s.waitList[0] == t)
  }

  /** Whether t has been woken since it last set itself to sleep. */
  function WokenSince(s: State, es: seq<Event>, t: Task, before: bool): bool
    decreases |es|
  {
    if es == [] then before
    else
      var e := es[0];
      WokenSince(Step(s, e.t, e.a), es[1..], t,
                 if e.t == t && e.a.Run? && s.pc(t).CheckSignal? then false else before || Wakes(s, e, t))
  }

  predicate SleepOk(s: State, t: Task, woken: bool) {
    if Sleeping(s.pc(t)) then s.runnable(t) == woken else s.runnable(t)
  }

  lemma StepSleeps(s: State, e: Event, t: Task, woken: bool)
    requires Enabled(s, e.t, e.a) && SleepOk(s, t, woken)
    ensures SleepOk(Step(s, e.t, e.a), t,
                    if e.t == t && e.a.Run? && s.pc(t).CheckSignal? then false else woken || Wakes(s, e, t))
  {
    if e.a.Run? && InRelease(s.pc(e.t)) { ReleaseSleeps(s, e.t, t, woken); }
    if e.a.Run? && !InRelease(s.pc(e.t)) { LockSleeps(s, e.t, t, woken); }
  }

  lemma ReleaseSleeps(s: State, u: Task, t: Task, woken: bool)
    requires SleepOk(s, t, woken) && InRelease(s.pc(u))
    ensures SleepOk(ReleaseStep(s, u), t, woken || Wakes(s, Event(u, Run), t))
  {
  }

  lemma LockSleeps(s: State, u: Task, t: Task, woken: bool)
    requires SleepOk(s, t, woken) && !InRelease(s.pc(u))
    ensures SleepOk(LockStep(s, u), t, if u == t && s.pc(t).CheckSignal? then false else woken)
  {
  }

  lemma {:induction false} RunSleeps(s: State, es: seq<Event>, t: Task, woken: bool)
    requires IsRun(s, es) && SleepOk(s, t, woken)
    ensures SleepOk(After(s, es), t, WokenSince(s, es, t, woken))
    decreases |es|
  {
    if es != [] {
      var e := es[0];
      StepSleeps(s, e, t, woken);
      RunSleeps(Step(s, e.t, e.a), es[1..], t,
                if e.t == t && e.a.Run? && s.pc(t).CheckSignal? then false else woken || Wakes(s, e, t));
    }
  }

  /** In every run, a task that is not asleep in the slow path is runnable, and one that is becomes so
      exactly when an unlock finds it first on the list or something else wakes it. */
  lemma SleepsUntilWoken(s: State, es: seq<Event>, t: Task)
    requires Init(s) && IsRun(s, es)
    ensures After(s, es).runnable(t) <==> !Sleeping(After(s, es).pc(t)) || WokenSince(s, es, t, false)
  {
    RunSleeps(s, es, t, false);
  }

  /** Without contention, lock and unlock never leave their fast paths and restore the mutex. */
  lemma Uncontended(s: State, t: Task, intr: bool)
    requires s.count == 1 && s.owner == None && s.pc(t) == Idle
    ensures var s1 := Step(s, t, Lock(intr));
      var s2 := Step(s1, t, Unlock);
      && s1.pc(t) == Held && s1.waitLock == s.waitLock && s1.waitList == s.waitList
      && s2.pc(t) == Idle && s2.count == 1 && s2.owner == None && s2.waitLock == s.waitLock && s2.waitList == s.waitList
  {
  }

  /** No deadlock: in every run, as long as some task is in a call, some task has returned with the
      mutex or can take a step further. */
  lemma NoDeadlock(s: State, es: seq<Event>, t: Task)
    requires Init(s) && IsRun(s, es) && After(s, es).pc(t) != Idle
    ensures var r := After(s, es); (exists u: Task :: r.pc(u) == Held) || (exists u: Task :: !Waits(r, u))
  {
    InitInv(s);
    RunKeepsInv(s, es);
    if forall u: Task :: Waits(After(s, es), u) { AllWait(After(s, es), t); }
  }
}
