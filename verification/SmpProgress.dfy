/**
 Whether a sender of cross-CPU calls comes to send the interrupts it owes (kernel/core/smp.c).
 A caller of smp_call_function_many that waits for a slot waits for a CPU that will be
 interrupted without it; the one thing that can hold it up for ever is the retry of the
 compare-and-exchange in lib/base/src/llist.c.
 */
module SmpProgress {
  import opened Wrappers
  import opened Lists
  import opened SmpCall

  // ------------------------------------------------------- what a locked slot waits for

  /** Slot x is on the queue of t or in the hands of its handler. */
  ghost predicate Held(s: State, t: int, x: Slot) { x in s.taken(t) || x in s.todo(t) || x in s.queue(t) }

  /** The sender has locked its slot for t and not yet queued it. */
  predicate Working(p: Sender, t: int) {
    && p.Busy? && p.job.many && 0 <= p.i < |p.job.targets| && p.job.targets[p.i] == t
    && (p.stage.Fill? || p.stage.AddRead? || p.stage.AddCas?)
  }

  /** The slot of c for t is locked only while it is being posted or waits to be run; and while it
      is on the queue, t is interrupted, or c itself will interrupt it. */
  ghost predicate PairOk(s: State, c: int, t: int) {
    LockedFor(s, c, t) && PairNoticed(s, c, t)
  }

  ghost predicate LockedFor(s: State, c: int, t: int) {
    s.locked(PerPair(c, t)) ==> Held(s, t, PerPair(c, t)) || Working(s.sender(c), t)
  }

  ghost predicate PairNoticed(s: State, c: int, t: int) {
    PerPair(c, t) in s.queue(t) ==> s.ipi(t) || s.handler(t).Drain? || WillSend(s.sender(c), t)
  }

  lemma SendKept(p: Sender, q: Sender, t: int)
    requires p.Busy? && q.Busy? && q.job == p.job && WillSend(p, t)
    requires forall k :: 0 <= k < |p.job.targets| && p.job.targets[k] == t && SendsLater(p, k) ==> SendsLater(q, k)
    ensures WillSend(q, t)
  {
    var k :| 0 <= k < |p.job.targets| && p.job.targets[k] == t && SendsLater(p, k);
    assert SendsLater(q, k);
  }

  lemma OwnStepKeepsLocked(s: State, c: int, t: int)
    requires SenderOk(s, c, s.sender(c)) && LockedFor(s, c, t) && Enabled(s, Run(c))
    ensures LockedFor(SenderStep(s, c), c, t)
  {
  }

  lemma OwnStepKeepsNoticed(s: State, c: int, t: int)
    requires SenderOk(s, c, s.sender(c)) && PairNoticed(s, c, t) && Enabled(s, Run(c))
    ensures PairNoticed(SenderStep(s, c), c, t)
  {
    var s2 := SenderStep(s, c);
    var p, q := s.sender(c), s2.sender(c);
    if p.stage.AddCas? && p.job.many && p.job.targets[p.i] == t && s.first(t) == p.stage.first {
      assert SendsLater(q, p.i) && q.job.targets[p.i] == t;
    } else if WillSend(p, t) && !s2.ipi(t) {
      SendKept(p, q, t);
    }
  }

  lemma OtherStepKeepsPair(s: State, c: int, d: int, t: int)
    requires SenderOk(s, d, s.sender(d)) && PairOk(s, c, t) && Enabled(s, Run(d)) && d != c
    ensures PairOk(SenderStep(s, d), c, t)
  {
  }

  lemma HandleKeepsLocked(s: State, c: int, t: int)
    requires HandlerOk(s, t) && LockedFor(s, c, t)
    ensures LockedFor(HandlerStep(s, t), c, t)
  {
    if s.handler(t).Reverse? && s.taken(t) != [] {
      assert s.taken(t) == [s.taken(t)[0]] + s.taken(t)[1..];
    } else if s.handler(t).Unlock? {
      assert s.todo(t) == [s.todo(t)[0]] + s.todo(t)[1..];
    }
  }

  lemma HandleKeepsNoticed(s: State, h: int, c: int, t: int)
    requires PairNoticed(s, c, t)
    ensures PairNoticed(HandlerStep(s, h), c, t)
  {
  }

  lemma HandleKeepsPair(s: State, h: int, c: int, t: int)
    requires HandlerOk(s, t) && PairOk(s, c, t)
    ensures PairOk(HandlerStep(s, h), c, t)
  {
    HandleKeepsNoticed(s, h, c, t);
    if h == t { HandleKeepsLocked(s, c, t); }
  }

  lemma StepKeepsPair(s: State, e: Event, c: int, t: int)
    requires Inv(s) && Enabled(s, e) && PairOk(s, c, t)
    ensures PairOk(Step(s, e), c, t)
  {
    assert TargetOk(s, t);
    match e
    case Start(_, _, _, _, _, _) =>
    case Run(d) =>
      assert SenderOk(s, d, s.sender(d));
      if d == c {
        OwnStepKeepsLocked(s, c, t);
        OwnStepKeepsNoticed(s, c, t);
      } else {
        OtherStepKeepsPair(s, c, d, t);
      }
    case Handle(h) => HandleKeepsPair(s, h, c, t);
  }

  lemma {:induction false} RunKeepsPair(s: State, es: seq<Event>, c: int, t: int)
    requires Inv(s) && IsRun(s, es) && PairOk(s, c, t)
    ensures PairOk(After(s, es), c, t)
    decreases |es|
  {
    if es != [] {
      StepKeepsInv(s, es[0]);
      StepKeepsPair(s, es[0], c, t);
      RunKeepsPair(Step(s, es[0]), es[1..], c, t);
    }
  }

  // ------------------------------------------------------------------ the wait for a slot

  ghost predicate AlwaysLocked(s: State, es: seq<Event>, x: Slot)
    requires IsRun(s, es)
    decreases |es|
  {
    s.locked(x) && (es == [] || AlwaysLocked(Step(s, es[0]), es[1..], x))
  }

  predicate LockWaiting(p: Sender, t: int) {
    p.Busy? && p.job.many && 0 <= p.i < |p.job.targets| && p.job.targets[p.i] == t && p.stage.LockWait?
  }

  /** As long as the slot stays locked, its sender is where it was and the call in it is the same. */
  lemma {:induction false} LockedRun(s: State, es: seq<Event>, c: int, t: int)
    requires Inv(s) && IsRun(s, es) && LockWaiting(s.sender(c), t) && AlwaysLocked(s, es, PerPair(c, t))
    ensures var u, x := After(s, es), PerPair(c, t);
      u.locked(x) && u.sender(c) == s.sender(c) && u.call(x) == s.call(x)
    decreases |es|
  {
    if es != [] {
      StepKeepsInv(s, es[0]);
      LockedStep(s, es[0], c, t);
      LockedRun(Step(s, es[0]), es[1..], c, t);
    }
  }

  lemma LockedStep(s: State, e: Event, c: int, t: int)
    requires Inv(s) && Enabled(s, e) && LockWaiting(s.sender(c), t) && s.locked(PerPair(c, t))
    ensures var s2, x := Step(s, e), PerPair(c, t); s2.sender(c) == s.sender(c) && s2.call(x) == s.call(x)
  {
    if e.Run? { assert SenderOk(s, e.cpu, s.sender(e.cpu)); }
  }

  /** Where in the order of posting the call in a slot is. */
  lemma PlaceInLine(s: State, t: int, x: Slot) returns (k: nat)
    requires TargetOk(s, t) && Held(s, t, x)
    ensures Done(s, t) <= k < |s.posted(t)| && s.posted(t)[k] == s.call(x)
    ensures x !in s.queue(t) ==> k < Done(s, t) + Hand(s, t)
  {
    RevHas(s.taken(t));
    RevHas(s.queue(t));
    WhereCallsAre(s, t);
    var l, hand := Line(s, t), Rev(s.taken(t)) + s.todo(t);
    assert l == hand + Rev(s.queue(t));
    var j: nat;
    if x in s.queue(t) {
      assert x in l;
      j :| 0 <= j < |l| && l[j] == x;
    } else {
      assert x in hand;
      j :| 0 <= j < |hand| && hand[j] == x;
    }
    k := Done(s, t) + j;
  }

  lemma LineTwice(s: State, u: State, t: int, j: nat, k: nat)
    requires PostedOnce(u, t) && s.posted(t) <= u.posted(t) && j < |s.posted(t)| && k < |u.posted(t)|
    requires s.posted(t)[j] == u.posted(t)[k]
    ensures j == k
  {
    assert u.posted(t)[j] == u.posted(t)[k];
  }

  lemma SlotFreed(s: State, more: seq<Event>, c: int, t: int)
    requires Inv(s) && PairOk(s, c, t) && IsRun(s, more) && LockWaiting(s.sender(c), t)
    requires HandlesOf(more, t) >= 4 * (|After(s, more).posted(t)| - |s.ran(t)|) + 6
    ensures !AlwaysLocked(s, more, PerPair(c, t))
  {
    var u, x := After(s, more), PerPair(c, t);
    if AlwaysLocked(s, more, x) {
      assert TargetOk(s, t) && SenderOk(s, c, s.sender(c));
      assert !WillSend(s.sender(c), t);
      WhereCallsAre(s, t);
      var j := PlaceInLine(s, t, x);
      CallsRun(s, more, t, j + 1);
      LockedRun(s, more, c, t);
      RunKeepsPair(s, more, c, t);
      assert TargetOk(u, t) && PostedOnce(u, t);
      var k := PlaceInLine(u, t, x);
      LineTwice(s, u, t, j, k);
    }
  }

  /** A caller of smp_call_function_many that waits for its slot for t, in whatever state, waits for
      nothing but the handler of t: the slot is unlocked at the latest when that handler has made
      four steps for each call not yet run and each posted meanwhile, and six more. */
  lemma LockWaitEnds(s0: State, es: seq<Event>, more: seq<Event>, c: int, t: int)
    requires Init(s0) && IsRun(s0, es) && IsRun(After(s0, es), more) && LockWaiting(After(s0, es).sender(c), t)
    requires var s, u := After(s0, es), After(After(s0, es), more);
      HandlesOf(more, t) >= 4 * (|u.posted(t)| - |s.ran(t)|) + 6
    ensures !AlwaysLocked(After(s0, es), more, PerPair(c, t))
  {
    InitInv(s0);
    RunKeepsInv(s0, es);
    RunKeepsPair(s0, es, c, t);
    SlotFreed(After(s0, es), more, c, t);
  }

  // -------------------------------------------------------------------- the interrupt comes

  /** How many moves a sender needs to be past its last interrupt, if nobody gets in its way. */
  function StageLeft(s: State, p: Sender): nat
    requires p.Busy? && 0 <= p.i < |p.job.targets|
  {
    match p.stage
    case LockWait => 5
    case SetLock => 4
    case Fill => 3
    case AddRead => 2
    case AddCas(f) => if s.first(p.job.targets[p.i]) == f then 1 else 3
    case Send => 0
    case Wait => 0
  }

  function MovesLeft(s: State, p: Sender): nat
    requires p.Busy? && 0 <= p.i < |p.job.targets|
  {
    if p.stage.Send? || p.stage.Wait? then |p.job.targets| - p.i
    else 5 * (|p.job.targets| - p.i - 1) + StageLeft(s, p) + |p.job.targets|
  }

  predicate Moves(s: State, e: Event, c: int)
    requires Enabled(s, e)
  {
    e == Run(c) && Step(s, e).sender(c) != s.sender(c)
  }

  /** Another step changes the head of the list that c is about to exchange. */
  predicate Disturbs(s: State, e: Event, c: int)
    requires Enabled(s, e)
  {
    var p := s.sender(c);
    && e != Run(c) && p.Busy? && 0 <= p.i < |p.job.targets| && p.stage.AddCas?
    && Step(s, e).first(p.job.targets[p.i]) != s.first(p.job.targets[p.i])
  }

  ghost function MovesOf(s: State, es: seq<Event>, c: int): nat
    requires IsRun(s, es)
    decreases |es|
  {
    if es == [] then 0 else (if Moves(s, es[0], c) then 1 else 0) + MovesOf(Step(s, es[0]), es[1..], c)
  }

  ghost function DisturbancesOf(s: State, es: seq<Event>, c: int): nat
    requires IsRun(s, es)
    decreases |es|
  {
    if es == [] then 0 else (if Disturbs(s, es[0], c) then 1 else 0) + DisturbancesOf(Step(s, es[0]), es[1..], c)
  }

  /** Target t has an interrupt pending at some point of the run. */
  ghost predicate Interrupted(s: State, es: seq<Event>, t: int)
    requires IsRun(s, es)
    decreases |es|
  {
    s.ipi(t) || (es != [] && Interrupted(Step(s, es[0]), es[1..], t))
  }

  /** A sender that owes an interrupt stands still only in the wait for a slot. */
  lemma StandsStill(s: State, c: int, t: int)
    requires SenderOk(s, c, s.sender(c)) && WillSend(s.sender(c), t)
    ensures var p := s.sender(c);
      && Enabled(s, Run(c)) && 0 < MovesLeft(s, p)
      && (Moves(s, Run(c), c) <==> !(p.stage.LockWait? && s.locked(SlotOf(c, p.job, p.i))))
  {
  }

  lemma OwnMove(s: State, c: int, t: int)
    requires SenderOk(s, c, s.sender(c)) && WillSend(s.sender(c), t) && Enabled(s, Run(c)) && Moves(s, Run(c), c)
    ensures var s2 := SenderStep(s, c);
      s2.ipi(t) || (WillSend(s2.sender(c), t) && SenderBounds(s2.sender(c))
                    && MovesLeft(s2, s2.sender(c)) == MovesLeft(s, s.sender(c)) - 1)
  {
    var s2 := SenderStep(s, c);
    if !s2.ipi(t) {
      assert s2.sender(c).Busy? && s2.sender(c).job == s.sender(c).job;
      SendKept(s.sender(c), s2.sender(c), t);
    }
  }

  predicate SenderBounds(p: Sender) { p.Busy? && 0 <= p.i < |p.job.targets| }

  lemma OtherMove(s: State, e: Event, c: int)
    requires Enabled(s, e) && SenderBounds(s.sender(c)) && !Moves(s, e, c)
    ensures var s2 := Step(s, e);
      && s2.sender(c) == s.sender(c)
      && MovesLeft(s2, s2.sender(c)) <= MovesLeft(s, s.sender(c)) + if Disturbs(s, e, c) then 2 else 0
  {
  }

  lemma {:induction false} SentInTime(s: State, more: seq<Event>, c: int, t: int)
    requires Inv(s) && IsRun(s, more) && WillSend(s.sender(c), t) && SenderBounds(s.sender(c))
    requires MovesOf(s, more, c) >= MovesLeft(s, s.sender(c)) + 2 * DisturbancesOf(s, more, c)
    ensures Interrupted(s, more, t)
    decreases |more|
  {
    assert SenderOk(s, c, s.sender(c));
    StandsStill(s, c, t);
    if more != [] {
      var s2 := Step(s, more[0]);
      StepKeepsInv(s, more[0]);
      if Moves(s, more[0], c) { OwnMove(s, c, t); } else { OtherMove(s, more[0], c); }
      if s2.ipi(t) { assert Interrupted(s2, more[1..], t); } else { SentInTime(s2, more[1..], c, t); }
    }
  }

  /** A sender that owes t an interrupt has sent it after six moves for each of its targets, and two
      for each time that another step changed the list it was about to exchange.  Every step it
      makes is such a move unless it waits for a slot, which LockWaitEnds bounds. */
  lemma InterruptComes(s0: State, es: seq<Event>, more: seq<Event>, c: int, t: int)
    requires Init(s0) && IsRun(s0, es) && IsRun(After(s0, es), more) && WillSend(After(s0, es).sender(c), t)
    requires var s := After(s0, es);
      MovesOf(s, more, c) >= 6 * |s.sender(c).job.targets| + 2 * DisturbancesOf(s, more, c)
    ensures Interrupted(After(s0, es), more, t)
  {
    InitInv(s0);
    RunKeepsInv(s0, es);
    var s := After(s0, es);
    assert SenderOk(s, c, s.sender(c));
    SentInTime(s, more, c, t);
  }

  /** A caller that waits stands still exactly while the slot of its present target is locked; else it goes
      on to the next target, and from the last one returns. */
  lemma WaiterMoves(s: State, c: int)
    requires SenderOk(s, c, s.sender(c)) && s.sender(c).Busy? && s.sender(c).stage.Wait?
    ensures var p, q := s.sender(c), SenderStep(s, c).sender(c);
      && (q == p <==> s.locked(SlotOf(c, p.job, p.i)))
      && (q != p ==> if p.i + 1 == |p.job.targets| then q == Idle else q == Busy(p.job, p.i + 1, Wait))
  {
  }

  /** In every run from a reachable state, a waiting caller that has moved as often as it has targets left
      has returned. */
  lemma {:induction false} WaiterReturns(s: State, es: seq<Event>, c: int)
    requires Inv(s) && IsRun(s, es) && SenderBounds(s.sender(c)) && s.sender(c).stage.Wait?
    requires MovesOf(s, es, c) >= |s.sender(c).job.targets| - s.sender(c).i
    ensures exists k :: 0 <= k <= |es| && IsRun(s, es[..k]) && After(s, es[..k]).sender(c) == Idle
    decreases |es|
  {
    assert SenderOk(s, c, s.sender(c));
    WaiterMoves(s, c);
    var s2 := Step(s, es[0]);
    StepKeepsInv(s, es[0]);
    if Moves(s, es[0], c) {
      assert SenderOk(s2, c, s2.sender(c));
      if s2.sender(c) == Idle {
        FirstStep(s, es, 0);
        assert After(s, es[..1]).sender(c) == Idle;
        return;
      }
    } else {
      OtherMove(s, es[0], c);
    }
    WaiterReturns(s2, es[1..], c);
    var k :| 0 <= k <= |es[1..]| && IsRun(s2, es[1..][..k]) && After(s2, es[1..][..k]).sender(c) == Idle;
    FirstStep(s, es, k);
    assert After(s, es[..k + 1]).sender(c) == Idle;
  }

  lemma FirstStep(s: State, es: seq<Event>, k: nat)
    requires IsRun(s, es) && k < |es| && IsRun(Step(s, es[0]), es[1..][..k])
    ensures IsRun(s, es[..k + 1]) && After(s, es[..k + 1]) == After(Step(s, es[0]), es[1..][..k])
  {
    assert es[..k + 1][1..] == es[1..][..k] && es[..k + 1][0] == es[0];
  }

  // ------------------------------------------------------------------------ starvation

  /** CPU 0 has queued its call for CPU 1 and is about to exchange the head of CPU 2's empty list. */
  ghost predicate Contending(s: State) {
    && s.sender(0).Busy? && s.sender(0).job.many && s.sender(0).job.targets == [1, 2]
    && s.sender(0).i == 1 && s.sender(0).stage == AddCas(None)
    && s.posted(1) != [] && s.ran(1) == [] && !s.ipi(1) && s.handler(1) == Off
    && s.first(2) == None && s.queue(2) == [] && s.taken(2) == [] && s.todo(2) == [] && !s.ipi(2)
    && s.handler(2) == Off && s.sender(3) == Idle && !s.locked(PerCpu(3))
  }

  /** One more step at the end of a run. */
  lemma Then(s: State, es: seq<Event>, e: Event) returns (more: seq<Event>)
    requires IsRun(s, es) && Enabled(After(s, es), e)
    ensures more == es + [e] && IsRun(s, more) && After(s, more) == Step(After(s, es), e)
    ensures MovesOf(s, more, 0) == MovesOf(s, es, 0) + if Moves(After(s, es), e, 0) then 1 else 0
  {
    more := es + [e];
    RunThen(s, es, e);
  }

  lemma {:induction false} RunThen(s: State, es: seq<Event>, e: Event)
    requires IsRun(s, es) && Enabled(After(s, es), e)
    ensures IsRun(s, es + [e]) && After(s, es + [e]) == Step(After(s, es), e)
    ensures MovesOf(s, es + [e], 0) == MovesOf(s, es, 0) + if Moves(After(s, es), e, 0) then 1 else 0
    decreases |es|
  {
    if es == [] {
      assert (es + [e])[1..] == [];
    } else {
      assert (es + [e])[1..] == es[1..] + [e];
      RunThen(Step(s, es[0]), es[1..], e);
    }
  }

  /** A sender whose slot is free goes on until it is about to exchange the head of the list. */
  lemma Prepared(s0: State, es: seq<Event>, c: int) returns (more: seq<Event>)
    requires IsRun(s0, es)
    requires var s, p := After(s0, es), After(s0, es).sender(c);
      SenderBounds(p) && p.stage.LockWait? && !s.locked(SlotOf(c, p.job, p.i))
    ensures IsRun(s0, more) && MovesOf(s0, more, 0) == MovesOf(s0, es, 0) + if c == 0 then 4 else 0
    ensures var s, p, u := After(s0, es), After(s0, es).sender(c), After(s0, more);
      var x, f := SlotOf(c, p.job, p.i), s.first(p.job.targets[p.i]);
      && u == s.(sender := u.sender, locked := u.locked, call := u.call, next := u.next)
      && u.sender(c) == Busy(p.job, p.i, AddCas(f)) && (forall d :: d != c ==> u.sender(d) == s.sender(d))
      && u.locked(x) && u.next(x) == f && forall y :: y != x ==> u.locked(y) == s.locked(y)
  {
    more := Then(s0, es, Run(c));
    more := Then(s0, more, Run(c));
    more := Then(s0, more, Run(c));
    more := Then(s0, more, Run(c));
  }

  /** CPU 0 posts its first call. */
  lemma PostOne(s0: State) returns (es: seq<Event>)
    requires Init(s0)
    ensures IsRun(s0, es)
    ensures var s := After(s0, es);
      && s.sender(0) == Busy(Job(s0.jobs, [1, 2], true, 0, 0, false), 1, LockWait) && s.sender(3) == Idle
      && s.ipi == s0.ipi && s.handler == s0.handler && s.ran == s0.ran && s.taken == s0.taken && s.todo == s0.todo
      && s.posted(1) != [] && s.first(2) == None && s.queue(2) == []
      && !s.locked(PerPair(0, 2)) && !s.locked(PerCpu(3))
  {
    es := [];
    es := Then(s0, es, Start(0, [1, 2], true, 0, 0, false));
    es := Prepared(s0, es, 0);
    es := Then(s0, es, Run(0));
  }

  lemma Contend(s0: State) returns (es: seq<Event>)
    requires Init(s0)
    ensures IsRun(s0, es) && Contending(After(s0, es))
  {
    es := PostOne(s0);
    es := Prepared(s0, es, 0);
  }

  /** CPU 3 posts a call to CPU 2 and interrupts it, and CPU 0 finds the list changed. */
  lemma CallGetsBetween(s0: State, es: seq<Event>) returns (more: seq<Event>)
    requires IsRun(s0, es) && Contending(After(s0, es))
    ensures IsRun(s0, more) && MovesOf(s0, more, 0) == MovesOf(s0, es, 0) + 1
    ensures var s, u, x := After(s0, es), After(s0, more), PerCpu(3);
      && u.sender(0) == s.sender(0).(stage := AddRead) && u.sender(3) == Idle && u.locked(x) && u.next(x) == None
      && u.first(2) == Some(x) && u.queue(2) == [x] && u.taken(2) == [] && u.todo(2) == [] && u.ipi(2)
      && u.handler == s.handler && u.posted(1) == s.posted(1) && u.ran(1) == s.ran(1) && !u.ipi(1)
  {
    more := Then(s0, es, Start(3, [2], false, 0, 0, false));
    more := Prepared(s0, more, 3);
    more := Then(s0, more, Run(3));
    more := Then(s0, more, Run(3));
    more := Then(s0, more, Run(0));
  }

  /** CPU 2 runs that call, and CPU 0 reads the head of the list again. */
  lemma ContendAgain(s0: State, es: seq<Event>) returns (more: seq<Event>)
    requires IsRun(s0, es) && Contending(After(s0, es))
    ensures IsRun(s0, more) && MovesOf(s0, more, 0) == MovesOf(s0, es, 0) + 2 && Contending(After(s0, more))
  {
    more := CallGetsBetween(s0, es);
    more := Then(s0, more, Handle(2));
    more := Then(s0, more, Handle(2));
    more := Then(s0, more, Handle(2));
    more := Then(s0, more, Handle(2));
    more := Then(s0, more, Handle(2));
    more := Then(s0, more, Handle(2));
    more := Then(s0, more, Handle(2));
    more := Then(s0, more, Handle(2));
    more := Then(s0, more, Run(0));
  }

  /** So no number of moves is enough for every run: a call queued for CPU 1 can stay unnoticed
      through any number of moves of the sender that owes the interrupt. */
  lemma {:induction false} Starvation(s0: State, n: nat) returns (es: seq<Event>)
    requires Init(s0)
    ensures IsRun(s0, es) && MovesOf(s0, es, 0) >= n
    ensures var s := After(s0, es);
      && s.posted(1) != [] && s.ran(1) == [] && !s.ipi(1) && s.handler(1) == Off && WillSend(s.sender(0), 1)
    ensures Contending(After(s0, es))
  {
    if n == 0 {
      es := Contend(s0);
    } else {
      es := Starvation(s0, n - 1);
      es := ContendAgain(s0, es);
    }
    assert SendsLater(After(s0, es).sender(0), 0);
  }
}
