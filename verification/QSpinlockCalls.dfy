/**
 What a call of the queued spinlock comes to (kernel/core/locking/qspinlock.c and
 kernel/include/asm-generic/qspinlock.h): a spin_lock that returns has the lock, a call makes a
 bounded number of moves, and there is always somebody who can make one.
 */
module QSpinlockCalls {
  import opened Wrappers
  import opened Lists
  import opened QSpinlock

  // ------------------------------------------------------------------- how calls return

  /** The last call that c makes in es, or `before` if it makes none. */
  function LastCall(es: seq<Event>, c: Ctx, before: Option<Action>): Option<Action>
    decreases |es|
  {
    if es == [] then before
    else LastCall(es[1..], c, if es[0].c == c && !es[0].a.Run? then Some(es[0].a) else before)
  }

  /** Where a context is, given its last call. */
  ghost predicate CallOk(s: State, c: Ctx, call: Option<Action>) {
    var p := s.pc(c);
    match call
    case None => p == Idle && s.held(c) == {}
    case Some(SpinLock(l)) =>
      if p == Idle then l in s.held(c)
      else p.l == l && !p.TryRead? && !p.TryCas? && (p.Release? ==> l in s.held(c))
    case Some(SpinTrylock(l)) => p == Idle || p == TryRead(l) || p == TryCas(l)
    case Some(SpinUnlock(l)) => p == Idle && l !in s.held(c)
    case Some(Run) => false
  }

  lemma OthersLeave(s: State, d: Ctx, a: Action, c: Ctx)
    requires c != d
    ensures Step(s, d, a).pc(c) == s.pc(c) && Step(s, d, a).held(c) == s.held(c)
  {
  }

  lemma OwnStart(s: State, c: Ctx, a: Action)
    requires !a.Run? && s.pc(c) == Idle
    ensures CallOk(Start(s, c, a), c, Some(a))
  {
  }

  lemma OwnRun(s: State, c: Ctx, call: Option<Action>)
    requires CallOk(s, c, call) && (s.pc(c).PassOn? ==> s.pc(c).l in s.held(c))
    ensures CallOk(Step(s, c, Run), c, call)
  {
  }

  /** A queue head that passes the queue on has the lock. */
  lemma PasserHolds(s: State, c: Ctx)
    requires Inv(s) && s.pc(c).PassOn?
    ensures s.pc(c).l in s.held(c)
  {
    assert LockInv(s, s.pc(c).l);
    IsHead(s, c, s.pc(c).l);
  }

  lemma OwnCall(s: State, c: Ctx, a: Action, call: Option<Action>)
    requires Inv(s) && Enabled(s, c, a) && CallOk(s, c, call)
    ensures CallOk(Step(s, c, a), c, if a.Run? then call else Some(a))
  {
    if a.Run? {
      if s.pc(c).PassOn? { PasserHolds(s, c); }
      OwnRun(s, c, call);
    } else {
      OwnStart(s, c, a);
    }
  }

  lemma {:induction false} RunKeepsCall(s: State, es: seq<Event>, c: Ctx, call: Option<Action>)
    requires Inv(s) && IsRun(s, es) && CallOk(s, c, call)
    ensures CallOk(After(s, es), c, LastCall(es, c, call))
    decreases |es|
  {
    if es != [] {
      var d, a := es[0].c, es[0].a;
      StepKeepsInv(s, d, a);
      if d == c { OwnCall(s, c, a, call); } else { OthersLeave(s, d, a, c); }
      RunKeepsCall(Step(s, d, a), es[1..], c, if d == c && !a.Run? then Some(a) else call);
    }
  }

  /** In every run, a spin_lock that has returned has the lock, with its bit set in the word, until
      the context's next call; and a context that has called spin_unlock does not have it. */
  lemma ReturnsWithLock(s: State, es: seq<Event>, c: Ctx, l: Lock)
    requires Init(s) && IsRun(s, es) && After(s, es).pc(c) == Idle
    ensures LastCall(es, c, None) == Some(SpinLock(l)) ==> l in After(s, es).held(c) && After(s, es).word(l).locked
    ensures LastCall(es, c, None) == Some(SpinUnlock(l)) ==> l !in After(s, es).held(c)
    ensures LastCall(es, c, None) == None ==> After(s, es).held(c) == {}
  {
    InitInv(s);
    RunKeepsInv(s, es);
    RunKeepsCall(s, es, c, None);
    assert LockInv(After(s, es), l);
  }

  /** Since its last call, c has found the word of l not free. */
  ghost predicate SawTaken(s: State, es: seq<Event>, c: Ctx, l: Lock, before: bool)
    decreases |es|
  {
    if es == [] then before
    else
      var e := es[0];
      SawTaken(Step(s, e.c, e.a), es[1..], c, l,
               if e.c != c then before else e.a.Run? && (before || s.word(l) != FREE))
  }

  ghost predicate TryOk(s: State, c: Ctx, l: Lock, call: Option<Action>, saw: bool) {
    call == Some(SpinTrylock(l)) ==> s.pc(c) == TryRead(l) || s.pc(c) == TryCas(l) || l in s.held(c) || saw
  }

  lemma OwnTry(s: State, c: Ctx, a: Action, l: Lock, call: Option<Action>, saw: bool)
    requires Enabled(s, c, a) && TryOk(s, c, l, call, saw)
    ensures TryOk(Step(s, c, a), c, l, if a.Run? then call else Some(a), a.Run? && (saw || s.word(l) != FREE))
  {
  }

  lemma {:induction false} RunKeepsTry(s: State, es: seq<Event>, c: Ctx, l: Lock, call: Option<Action>, saw: bool)
    requires IsRun(s, es) && TryOk(s, c, l, call, saw)
    ensures TryOk(After(s, es), c, l, LastCall(es, c, call), SawTaken(s, es, c, l, saw))
    decreases |es|
  {
    if es != [] {
      var d, a := es[0].c, es[0].a;
      if d == c {
        OwnTry(s, c, a, l, call, saw);
        RunKeepsTry(Step(s, d, a), es[1..], c, l, if a.Run? then call else Some(a),
                    a.Run? && (saw || s.word(l) != FREE));
      } else {
        OthersLeave(s, d, a, c);
        RunKeepsTry(Step(s, d, a), es[1..], c, l, call, saw);
      }
    }
  }

  /** In every run, a spin_trylock that has returned has the lock, or it saw a word that was not free. */
  lemma TrylockReturns(s: State, es: seq<Event>, c: Ctx, l: Lock)
    requires Init(s) && IsRun(s, es) && After(s, es).pc(c) == Idle
    requires LastCall(es, c, None) == Some(SpinTrylock(l))
    ensures l in After(s, es).held(c) || SawTaken(s, es, c, l, false)
  {
    RunKeepsTry(s, es, c, l, None, false);
  }

  /** A cmpxchg of spin_trylock takes the lock exactly if it finds the word free; otherwise, and when
      the word was not free before, the call returns and changes nothing. */
  lemma TrylockStep(s: State, c: Ctx, l: Lock)
    requires s.pc(c) == TryRead(l) || s.pc(c) == TryCas(l)
    ensures var s2 := Step(s, c, Run);
      && (s.word(l) != FREE ==> s2.pc(c) == Idle && s2.held(c) == s.held(c) && s2.word(l) == s.word(l))
      && (s.word(l) == FREE && s.pc(c) == TryRead(l) ==> s2.pc(c) == TryCas(l) && s2.held(c) == s.held(c))
      && (s.word(l) == FREE && s.pc(c) == TryCas(l) ==>
            s2.pc(c) == Idle && s2.held(c) == s.held(c) + {l} && s2.word(l) == LOCKED_VAL)
  {
  }

  // --------------------------------------------------------------------------- progress

  /** At most how many moves a context is from returning. */
  function Rank(p: PC): nat {
    match p
    case Idle => 0
    case TryCas(_) => 1
    case TryRead(_) => 2
    case Release(_, _) => 1
    case PassOn(_, _, _) => 2
    case WaitNext(_, _, _) => 3
    case SetLocked(_, _, _) => 4
    case Claim(_, _, _, _) => 5
    case WaitHead(_, _, _) => 6
    case ReadNext(_, _) => 7
    case WaitNode(_, _) => 8
    case Link(_, _, _) => 9
    case XchgTail(_, _) => 10
    case NodeTryCas(_, _) => 11
    case NodeTryRead(_, _) => 12
    case InitNode(_, _) => 13
    case Queue(_) => 14
    case TakePending(_) => 1
    case WaitOwner(_) => 2
    case UndoPending(_) => 15
    case FetchPending(_) => 16
    case Spin(_, cnt) => 17 + cnt
  }

  /** What a context waits for; everywhere else its next step is a move. */
  predicate Waits(s: State, c: Ctx) {
    match s.pc(c)
    case Idle => true
    case WaitOwner(l) => s.word(l).locked
    case WaitNode(_, _) => !s.node(NodeOf(s, c)).locked
    case WaitHead(l, _, _) => s.word(l).locked || s.word(l).pending
    case WaitNext(_, _, next) => next.None? && s.node(NodeOf(s, c)).next.None?
    case _ => false
  }

  /** A step of a call leaves the context where it is exactly if it waits there, for the owner, its
      node, the word or its successor; otherwise it brings it nearer to its return. */
  lemma MovesOrWaits(s: State, c: Ctx)
    ensures var s2 := Step(s, c, Run);
      if Waits(s, c) then s2.pc(c) == s.pc(c) else Rank(s2.pc(c)) < Rank(s.pc(c))
  {
  }

  lemma CallRank(s: State, c: Ctx, a: Action)
    requires !a.Run? && s.pc(c) == Idle
    ensures Rank(Step(s, c, a).pc(c)) <= 18
  {
  }

  function CallsIn(es: seq<Event>, c: Ctx): nat
    decreases |es|
  {
    if es == [] then 0 else (if es[0].c == c && !es[0].a.Run? then 1 else 0) + CallsIn(es[1..], c)
  }

  ghost function MovesIn(s: State, es: seq<Event>, c: Ctx): nat
    decreases |es|
  {
    if es == [] then 0
    else
      var e := es[0];
      (if e.c == c && e.a.Run? && !Waits(s, c) then 1 else 0) + MovesIn(Step(s, e.c, e.a), es[1..], c)
  }

  /** In every run, a context makes at most eighteen moves for each of its calls. */
  lemma {:induction false} MovesBounded(s: State, es: seq<Event>, c: Ctx)
    requires IsRun(s, es)
    ensures MovesIn(s, es, c) + Rank(After(s, es).pc(c)) <= 18 * CallsIn(es, c) + Rank(s.pc(c))
    decreases |es|
  {
    if es != [] {
      var d, a := es[0].c, es[0].a;
      var s2 := Step(s, d, a);
      MovesBounded(s2, es[1..], c);
      if d != c { OthersLeave(s, d, a, c); } else if a.Run? { MovesOrWaits(s, c); } else { CallRank(s, c, a); }
    }
  }

  ghost predicate SomebodyMoves(s: State, l: Lock) {
    exists d: Ctx :: s.pc(d) != Idle && s.pc(d).l == l && !Waits(s, d)
  }

  /** Where a call can be once it has the lock. */
  predicate HoldingPc(p: PC, l: Lock) { (p.WaitNext? || p.PassOn? || p.Release?) && p.l == l }

  /** The lock is held by a context that has returned from the call that took it. */
  ghost predicate InCriticalSection(s: State, l: Lock) {
    exists d: Ctx :: l in s.held(d) && !HoldingPc(s.pc(d), l)
  }

  /** If the lock is free, its pending owner or else its queue head moves. */
  lemma FreeMoves(s: State, c: Ctx, l: Lock)
    requires LockInv(s, l) && s.owner(l).None? && s.pc(c) != Idle && s.pc(c).l == l
    ensures SomebodyMoves(s, l)
  {
    if s.pender(l).Some? {
      var d := s.pender(l).value;
      assert PendingState(s.pc(d), l) && !Waits(s, d);
    } else if s.queue(l) != [] {
      var d := s.queue(l)[0];
      assert d in s.queue(l) && QueuedOn(s.pc(d), l);
      assert !Waits(s, d);
    } else {
      assert c !in s.queue(l) && !PendingState(s.pc(c), l);
      assert !Waits(s, c);
    }
  }

  /** An owner still in the lock code moves, or its successor does. */
  lemma OwnerMoves(s: State, d: Ctx, l: Lock)
    requires LockInv(s, l) && l in s.held(d) && HoldingPc(s.pc(d), l)
    ensures SomebodyMoves(s, l)
  {
    if Waits(s, d) {
      IsHead(s, d, l);
      if |s.queue(l)| >= 2 {
        var e := s.queue(l)[1];
        assert Behind(s, s.queue(l), 1);
        assert e in s.queue(l) && !Waits(s, e);
      } else {
        var e: Ctx :| BoundToQueue(s.pc(e), l);
        assert !Waits(s, e);
      }
    } else {
      assert SomebodyMoves(s, l);
    }
  }

  /** No deadlock: in every run, as long as some context is in a call for a lock, the lock is held by a
      context that has returned with it, or the next step of some call for it is a move. */
  lemma NoDeadlock(s: State, es: seq<Event>, c: Ctx, l: Lock)
    requires Init(s) && IsRun(s, es) && After(s, es).pc(c) != Idle && After(s, es).pc(c).l == l
    ensures InCriticalSection(After(s, es), l) || SomebodyMoves(After(s, es), l)
  {
    InitInv(s);
    RunKeepsInv(s, es);
    var t := After(s, es);
    assert LockInv(t, l);
    if t.owner(l).None? {
      FreeMoves(t, c, l);
    } else {
      var d := t.owner(l).value;
      assert l in t.held(d);
      if HoldingPc(t.pc(d), l) { OwnerMoves(t, d, l); }
    }
  }

  // ------------------------------------------------------------------- which way a call goes

  /** A second context finds the lock just held: it sets PENDING, takes over when the owner unlocks, and
      never takes a queue node. */
  lemma SecondUsesPending(s: State, c: Ctx, d: Ctx, l: Lock)
    requires c != d && s.word(l) == LOCKED_VAL && s.pc(c) == Idle && s.pc(d) == Idle && l in s.held(d)
    ensures var s1 := Step(Step(s, c, SpinLock(l)), c, Run);
      var s2 := Step(Step(Step(s1, d, SpinUnlock(l)), c, Run), c, Run);
      && s1.pc(c) == WaitOwner(l) && s1.word(l) == Word(None, true, true)
      && s2.pc(c) == Idle && l in s2.held(c) && s2.word(l) == LOCKED_VAL
      && s2.count == s.count && s2.arrivals == s.arrivals
  {
  }

  /** A call that finds somebody waiting, other than a hand-over from PENDING, goes to the queue and
      leaves the word alone. */
  lemma LaterOnesQueue(s: State, c: Ctx, l: Lock)
    requires s.pc(c) == Idle && (s.word(l).tail.Some? || (s.word(l).pending && s.word(l).locked))
    ensures var s1 := Step(s, c, SpinLock(l)); s1.pc(c) == Queue(l) && s1.word == s.word
  {
  }

  /** A call that finds a hand-over from PENDING looks up to twice more: if the lock has been taken over, it
      tries to set PENDING itself; if not, or if somebody else waits, it queues. */
  lemma HandOver(s: State, c: Ctx, l: Lock, w: Word)
    requires s.pc(c) == Idle && s.word(l) == PENDING_VAL
    ensures var s1 := Step(SetWord(Step(s, c, SpinLock(l)), l, w), c, Run);
      var s2 := Step(s1, c, Run);
      && (w == LOCKED_VAL ==> s1.pc(c) == FetchPending(l))
      && (w == PENDING_VAL ==> s1.pc(c) == Spin(l, 0) && s2.pc(c) == Queue(l))
      && (w.tail.Some? || (w.pending && w.locked) ==> s1.pc(c) == Queue(l))
  {
  }

  /** A context that has taken a node tries once more: it gets the lock without queueing exactly if it
      finds the word free and it still is. */
  lemma NodeTriesOnce(s: State, c: Ctx, w: Word)
    requires s.pc(c).NodeTryRead?
    ensures var l, idx := s.pc(c).l, s.pc(c).idx;
      var s1 := Step(s, c, Run);
      var s2 := Step(SetWord(s1, l, w), c, Run);
      && s1.pc(c) == (if s.word(l) == FREE then NodeTryCas(l, idx) else XchgTail(l, idx))
      && (s.word(l) == FREE ==>
            && s2.arrivals == s.arrivals && s2.held(c) == s.held(c) + (if w == FREE then {l} else {})
            && s2.pc(c) == if w == FREE then Release(l, idx) else XchgTail(l, idx))
  {
  }
}
