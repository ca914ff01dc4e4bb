/**
 Cross-CPU function calls (kernel/core/smp.c) as a step machine: any number of CPUs, each
 with one sender and one interrupt handler, in every interleaving.  The call queues are the
 lock-free lists of lib/base/src/llist.c, down to their `next` pointers.  Filling `func` and
 `info` is one step; CSD_FLAG_WAIT, which only feeds a warning, is not kept.
 */
module SmpCall {
  import opened Wrappers
  import opened Lists

  /** A call_single_data: the one on a waiting caller's stack, csd_data[cpu] or cfd_data[cpu].csd[target]. */
  datatype Slot = OnStack(cpu: int) | PerCpu(cpu: int) | PerPair(cpu: int, target: int)

  /** A call; `job` tells calls apart. */
  datatype Call = Call(job: int, target: int, func: int, info: int)

  /** One smp_call_function_single (one target) or smp_call_function_many, from the point
      where its targets are known: online, and not the calling CPU. */
  datatype Job = Job(id: int, targets: seq<int>, many: bool, func: int, info: int, wait: bool)

  datatype Stage = LockWait | SetLock | Fill | AddRead | AddCas(first: Option<Slot>) | Send | Wait

  datatype Sender = Idle | Busy(job: Job, i: int, stage: Stage)

  datatype Handler =
    | Off
    | Drain
    | Reverse(head: Option<Slot>, newHead: Option<Slot>)
    | Loop(entry: Option<Slot>)
    | Invoke(slot: Slot, next: Option<Slot>)
    | Unlock(slot: Slot, next: Option<Slot>)

  /**
   `queue`, `taken`, `todo`, `posted` and `ran` only record: the slots on a CPU's queue,
   newest first; those its handler has removed and not yet reversed; those it has reversed,
   in order; and the calls posted to and run on it so far.
   */
  datatype State = State(
    locked: Slot -> bool,
    call: Slot -> Call,
    next: Slot -> Option<Slot>,
    first: int -> Option<Slot>,
    ipi: int -> bool,
    sender: int -> Sender,
    handler: int -> Handler,
    jobs: int,
    queue: int -> seq<Slot>,
    taken: int -> seq<Slot>,
    todo: int -> seq<Slot>,
    posted: int -> seq<Call>,
    ran: int -> seq<Call>)

  datatype Event =
    | Start(cpu: int, targets: seq<int>, many: bool, func: int, info: int, wait: bool)
    | Run(cpu: int)
    | Handle(cpu: int)

  function SlotOf(c: int, job: Job, i: int): Slot
    requires 0 <= i < |job.targets|
  {
    if job.many then PerPair(c, job.targets[i]) else if job.wait then OnStack(c) else PerCpu(c)
  }

  function CallOf(job: Job, i: int): Call
    requires 0 <= i < |job.targets|
  {
    Call(job.id, job.targets[i], job.func, job.info)
  }

  predicate JobOk(job: Job) {
    job.targets != [] && NoDup(job.targets) && (job.many || |job.targets| == 1)
  }

  // -------------------------------------------------------------------------- steps

  function AfterSend(job: Job): Sender {
    if job.wait then Busy(job, 0, Wait) else Idle
  }

  /** smp_call_function_single sends an interrupt only if the queue was empty. */
  function AfterAdd(job: Job, i: int, first: Option<Slot>): Sender {
    if !job.many then (if first.None? then Busy(job, 0, Send) else AfterSend(job))
    else if i + 1 < |job.targets| then Busy(job, i + 1, LockWait)
    else Busy(job, 0, Send)
  }

  function At(s: State, c: int, p: Sender): State {
    s.(sender := Set(s.sender, c, p))
  }

  function StartStep(s: State, e: Event): State
    requires e.Start?
  {
    var job := Job(s.jobs, e.targets, e.many, e.func, e.info, e.wait);
    var s1 := At(s, e.cpu, Busy(job, 0, LockWait)).(jobs := s.jobs + 1);
    if !e.many && e.wait then s1.(locked := Set(s.locked, OnStack(e.cpu), false)) else s1
  }

  function SenderStep(s: State, c: int): State
    requires s.sender(c).Busy? && 0 <= s.sender(c).i < |s.sender(c).job.targets|
  {
    var Busy(job, i, stage) := s.sender(c);
    var x, t := SlotOf(c, job, i), job.targets[i];
    match stage
    case LockWait => if s.locked(x) then s else At(s, c, Busy(job, i, SetLock))
    case SetLock => At(s, c, Busy(job, i, Fill)).(locked := Set(s.locked, x, true))
    case Fill => At(s, c, Busy(job, i, AddRead)).(call := Set(s.call, x, CallOf(job, i)))
    case AddRead => At(s, c, Busy(job, i, AddCas(s.first(t)))).(next := Set(s.next, x, s.first(t)))
    case AddCas(f) =>
      if s.first(t) != f then At(s, c, Busy(job, i, AddRead))
      else At(s, c, AfterAdd(job, i, f)).(
           first := Set(s.first, t, Some(x)),
           queue := Set(s.queue, t, [x] + s.queue(t)),
           posted := Set(s.posted, t, s.posted(t) + [s.call(x)]))
    case Send =>
      At(s, c, if i + 1 < |job.targets| then Busy(job, i + 1, Send) else AfterSend(job)).(ipi := Set(s.ipi, t, true))
    case Wait =>
      if s.locked(x) then s
      else At(s, c, if i + 1 < |job.targets| then Busy(job, i + 1, Wait) else Idle)
  }

  function HandlerAt(s: State, t: int, p: Handler): State {
    s.(handler := Set(s.handler, t, p))
  }

  /** generic_smp_call_function_single_interrupt */
  function HandlerStep(s: State, t: int): State {
    match s.handler(t)
    case Off => if s.ipi(t) then HandlerAt(s, t, Drain).(ipi := Set(s.ipi, t, false)) else s
    case Drain =>
      HandlerAt(s, t, Reverse(s.first(t), None)).(
        first := Set(s.first, t, None), taken := Set(s.taken, t, s.queue(t)), queue := Set(s.queue, t, []))
    case Reverse(head, newHead) =>
      if head.None? then HandlerAt(s, t, Loop(newHead))
      else HandlerAt(s, t, Reverse(s.next(head.value), head)).(
           next := Set(s.next, head.value, newHead),
           taken := Set(s.taken, t, if s.taken(t) == [] then [] else s.taken(t)[1..]),
           todo := Set(s.todo, t, [head.value] + s.todo(t)))
    case Loop(entry) =>
      if entry.None? then HandlerAt(s, t, Off) else HandlerAt(s, t, Invoke(entry.value, s.next(entry.value)))
    case Invoke(x, n) => HandlerAt(s, t, Unlock(x, n)).(ran := Set(s.ran, t, s.ran(t) + [s.call(x)]))
    case Unlock(x, n) =>
      HandlerAt(s, t, Loop(n)).(
        locked := Set(s.locked, x, false),
        todo := Set(s.todo, t, if s.todo(t) == [] then [] else s.todo(t)[1..]))
  }

  predicate Enabled(s: State, e: Event) {
    match e
    case Start(c, targets, many, _, _, _) =>
      s.sender(c) == Idle && targets != [] && NoDup(targets) && c !in targets && (many || |targets| == 1)
    case Run(c) => s.sender(c).Busy? && 0 <= s.sender(c).i < |s.sender(c).job.targets|
    case Handle(_) => true
  }

  function Step(s: State, e: Event): State
    requires Enabled(s, e)
  {
    match e
    case Start(_, _, _, _, _, _) => StartStep(s, e)
    case Run(c) => SenderStep(s, c)
    case Handle(t) => HandlerStep(s, t)
  }

  ghost predicate Init(s: State) {
    && (forall x: Slot :: !s.locked(x))
    && (forall c: int :: s.sender(c) == Idle && s.handler(c) == Off && s.first(c) == None && !s.ipi(c))
    && (forall c: int :: s.queue(c) == [] && s.taken(c) == [] && s.todo(c) == [] && s.posted(c) == [] && s.ran(c) == [])
  }

  ghost predicate IsRun(s: State, es: seq<Event>)
    decreases |es|
  {
    es == [] || (Enabled(s, es[0]) && IsRun(Step(s, es[0]), es[1..]))
  }

  ghost function After(s: State, es: seq<Event>): State
    requires IsRun(s, es)
    decreases |es|
  {
    if es == [] then s else After(Step(s, es[0]), es[1..])
  }

  // --------------------------------------------------------------------- invariants

  /** The list that starts at h. */
  ghost predicate Linked(next: Slot -> Option<Slot>, h: Option<Slot>, q: seq<Slot>)
    decreases |q|
  {
    if q == [] then h == None else h == Some(q[0]) && Linked(next, next(q[0]), q[1..])
  }

  function Calls(call: Slot -> Call, q: seq<Slot>): seq<Call> {
    seq(|q|, i requires 0 <= i < |q| => call(q[i]))
  }

  /** All slots in use on CPU t, in the order their calls were posted. */
  function Line(s: State, t: int): seq<Slot> {
    Rev(s.taken(t)) + s.todo(t) + Rev(s.queue(t))
  }

  /** Of those, the ones whose call has not run. */
  function Unrun(s: State, t: int): seq<Slot> {
    if s.handler(t).Unlock? && Line(s, t) != [] then Line(s, t)[1..] else Line(s, t)
  }

  ghost predicate HandlerOk(s: State, t: int) {
    match s.handler(t)
    case Off => s.taken(t) == [] && s.todo(t) == []
    case Drain => s.taken(t) == [] && s.todo(t) == []
    case Reverse(head, newHead) => Linked(s.next, head, s.taken(t)) && Linked(s.next, newHead, s.todo(t))
    case Loop(entry) => s.taken(t) == [] && Linked(s.next, entry, s.todo(t))
    case Invoke(x, n) => s.taken(t) == [] && s.todo(t) != [] && s.todo(t)[0] == x && Linked(s.next, n, s.todo(t)[1..])
    case Unlock(x, n) =>
      && s.taken(t) == [] && s.todo(t) != [] && s.todo(t)[0] == x && Linked(s.next, n, s.todo(t)[1..])
      && s.ran(t) != [] && s.ran(t)[|s.ran(t)| - 1] == s.call(x)
  }

  ghost predicate ListsOk(s: State, t: int) {
    Linked(s.next, s.first(t), s.queue(t)) && HandlerOk(s, t)
  }

  /** Slots in use are locked, in use once, and on the CPU they were filled for. */
  ghost predicate SlotsOk(s: State, t: int) {
    NoDup(Line(s, t)) && forall x :: x in Line(s, t) ==> s.locked(x) && s.call(x).target == t
  }

  /** Calls run in the order they were posted, and none is lost. */
  ghost predicate OrderOk(s: State, t: int) {
    s.posted(t) == s.ran(t) + Calls(s.call, Unrun(s, t))
  }

  ghost predicate Unlisted(s: State, x: Slot) {
    forall t :: x !in Line(s, t)
  }

  ghost predicate TargetOk(s: State, t: int) {
    ListsOk(s, t) && SlotsOk(s, t) && OrderOk(s, t)
  }

  /** How many of its calls a job has posted. */
  function NPosted(p: Sender): int
    requires p.Busy?
  {
    if p.stage.Send? || p.stage.Wait? then |p.job.targets| else p.i
  }

  ghost predicate Delivered(s: State, c: int, job: Job, k: int)
    requires 0 <= k < |job.targets|
  {
    var t, x := job.targets[k], SlotOf(c, job, k);
    CallOf(job, k) in s.ran(t) || (x in Line(s, t) && s.call(x) == CallOf(job, k))
  }

  ghost predicate NotPosted(s: State, t: int, id: int) {
    forall j :: 0 <= j < |s.posted(t)| ==> s.posted(t)[j].job != id
  }

  /** The slot a sender is working on is its own until it is queued. */
  ghost predicate OwnSlot(s: State, c: int, p: Sender)
    requires p.Busy? && 0 <= p.i < |p.job.targets|
  {
    var x := SlotOf(c, p.job, p.i);
    match p.stage
    case LockWait => true
    case SetLock => !s.locked(x)
    case Fill => s.locked(x) && Unlisted(s, x)
    case AddRead => s.locked(x) && Unlisted(s, x) && s.call(x) == CallOf(p.job, p.i)
    case AddCas(f) => s.locked(x) && Unlisted(s, x) && s.call(x) == CallOf(p.job, p.i) && s.next(x) == f
    case Send => true
    case Wait => true
  }

  ghost predicate SenderOk(s: State, c: int, p: Sender) {
    p.Busy? ==>
      && JobOk(p.job) && 0 <= p.i < |p.job.targets| && p.job.id < s.jobs
      && OwnSlot(s, c, p)
      && (forall k :: 0 <= k < NPosted(p) ==> Delivered(s, c, p.job, k))
      && (forall k :: NPosted(p) <= k < |p.job.targets| ==> NotPosted(s, p.job.targets[k], p.job.id))
      && (p.stage.Wait? ==> p.job.wait && forall k :: 0 <= k < p.i ==> CallOf(p.job, k) in s.ran(p.job.targets[k]))
  }

  /** The slot on the stack is in use only within a waiting call. */
  ghost predicate StackOk(s: State, c: int, p: Sender) {
    s.locked(OnStack(c)) ==> p.Busy? && !p.job.many && p.job.wait && !p.stage.LockWait? && !p.stage.SetLock?
  }

  ghost predicate JobsApart(s: State, c: int, d: int) {
    c != d && s.sender(c).Busy? && s.sender(d).Busy? ==> s.sender(c).job.id != s.sender(d).job.id
  }

  /** No job is posted to the same CPU twice. */
  ghost predicate PostedOnce(s: State, t: int) {
    && (forall i, j :: 0 <= i < j < |s.posted(t)| ==> s.posted(t)[i].job != s.posted(t)[j].job)
    && (forall j :: 0 <= j < |s.posted(t)| ==> s.posted(t)[j].job < s.jobs)
  }

  /** The sender will still send an interrupt to its k-th target for what it has queued there. */
  ghost predicate SendsLater(p: Sender, k: int)
    requires p.Busy?
  {
    if p.stage.Send? then p.i <= k else p.job.many && !p.stage.Wait? && k < p.i
  }

  ghost predicate WillSend(p: Sender, t: int) {
    p.Busy? && exists k :: 0 <= k < |p.job.targets| && p.job.targets[k] == t && SendsLater(p, k)
  }

  ghost predicate Noticed(s: State, t: int) {
    s.queue(t) != [] ==> s.ipi(t) || s.handler(t).Drain? || exists c :: WillSend(s.sender(c), t)
  }

  ghost predicate Inv(s: State) {
    && (forall t :: TargetOk(s, t))
    && (forall c :: SenderOk(s, c, s.sender(c)))
    && (forall c :: StackOk(s, c, s.sender(c)))
    && (forall c, d :: JobsApart(s, c, d))
    && (forall t :: PostedOnce(s, t))
    && (forall t :: Noticed(s, t))
  }

  // ----------------------------------------------------------------- list lemmas

  lemma {:induction false} LinkedFrame(n1: Slot -> Option<Slot>, n2: Slot -> Option<Slot>, h: Option<Slot>,
                                       q: seq<Slot>)
    requires Linked(n1, h, q) && forall x :: x in q ==> n1(x) == n2(x)
    ensures Linked(n2, h, q)
    decreases |q|
  {
    if q != [] {
      LinkedFrame(n1, n2, n1(q[0]), q[1..]);
    }
  }

  lemma LineHas(s: State, t: int)
    ensures forall x :: x in s.queue(t) || x in s.taken(t) || x in s.todo(t) <==> x in Line(s, t)
  {
    RevHas(s.queue(t));
    RevHas(s.taken(t));
  }

  lemma CallsFrame(c1: Slot -> Call, c2: Slot -> Call, q: seq<Slot>)
    requires forall x :: x in q ==> c1(x) == c2(x)
    ensures Calls(c1, q) == Calls(c2, q)
  {
  }

  // ------------------------------------------------------------------ frame lemmas

  /** CPU t's lists and records are as before, and so are the slots on them. */
  ghost predicate SameTarget(s: State, s2: State, t: int) {
    && s.queue(t) == s2.queue(t) && s.taken(t) == s2.taken(t) && s.todo(t) == s2.todo(t) && s.first(t) == s2.first(t)
    && s.handler(t) == s2.handler(t) && s.posted(t) == s2.posted(t) && s.ran(t) == s2.ran(t)
    && forall x :: x in Line(s, t) ==> s.locked(x) == s2.locked(x) && s.call(x) == s2.call(x) && s.next(x) == s2.next(x)
  }

  lemma HandlerFrame(s: State, s2: State, t: int)
    requires HandlerOk(s, t) && SameTarget(s, s2, t)
    ensures HandlerOk(s2, t)
  {
    LineHas(s, t);
    var h := s.handler(t);
    match h
    case Off =>
    case Drain =>
    case Reverse(head, newHead) =>
      LinkedFrame(s.next, s2.next, head, s.taken(t));
      LinkedFrame(s.next, s2.next, newHead, s.todo(t));
    case Loop(entry) => LinkedFrame(s.next, s2.next, entry, s.todo(t));
    case Invoke(x, n) => LinkedFrame(s.next, s2.next, n, s.todo(t)[1..]);
    case Unlock(x, n) => LinkedFrame(s.next, s2.next, n, s.todo(t)[1..]);
  }

  lemma TargetFrame(s: State, s2: State, t: int)
    requires TargetOk(s, t) && SameTarget(s, s2, t)
    ensures TargetOk(s2, t)
  {
    LineHas(s, t);
    LinkedFrame(s.next, s2.next, s.first(t), s.queue(t));
    HandlerFrame(s, s2, t);
    assert Line(s2, t) == Line(s, t) && Unrun(s2, t) == Unrun(s, t);
    CallsFrame(s.call, s2.call, Unrun(s, t));
  }

  /** A step of sender c touches at most its slot x, which is on no list, and its own state. */
  ghost predicate LocalStep(s: State, s2: State, c: int, x: Slot) {
    && x.cpu == c && Unlisted(s, x)
    && s2.jobs == s.jobs && s2.first == s.first && s2.ipi == s.ipi && s2.handler == s.handler && s2.queue == s.queue
    && s2.taken == s.taken && s2.todo == s.todo && s2.posted == s.posted && s2.ran == s.ran
    && (forall d :: d != c ==> s2.sender(d) == s.sender(d))
    && (forall y :: y != x ==> s2.locked(y) == s.locked(y) && s2.call(y) == s.call(y) && s2.next(y) == s.next(y))
  }

  lemma LocalTargets(s: State, s2: State, c: int, x: Slot)
    requires LocalStep(s, s2, c, x) && forall t :: TargetOk(s, t)
    ensures forall t :: TargetOk(s2, t)
  {
    forall t
      ensures TargetOk(s2, t)
    {
      assert TargetOk(s, t) && x !in Line(s, t);
      TargetFrame(s, s2, t);
    }
  }

  lemma SameLines(s: State, s2: State)
    requires s2.taken == s.taken && s2.todo == s.todo && s2.queue == s.queue
    ensures forall t :: Line(s2, t) == Line(s, t)
    ensures forall y :: Unlisted(s, y) <==> Unlisted(s2, y)
  {
  }

  lemma LocalOthers(s: State, s2: State, c: int, x: Slot, d: int)
    requires LocalStep(s, s2, c, x) && d != c && SenderOk(s, d, s.sender(d)) && StackOk(s, d, s.sender(d))
    ensures SenderOk(s2, d, s2.sender(d)) && StackOk(s2, d, s2.sender(d))
  {
    SameLines(s, s2);
    var p := s.sender(d);
    if p.Busy? {
      assert SlotOf(d, p.job, p.i) != x;
      forall k | 0 <= k < NPosted(p)
        ensures Delivered(s2, d, p.job, k)
      {
        assert Delivered(s, d, p.job, k);
      }
      forall k | NPosted(p) <= k < |p.job.targets|
        ensures NotPosted(s2, p.job.targets[k], p.job.id)
      {
        assert NotPosted(s, p.job.targets[k], p.job.id);
      }
    }
  }

  /** What such a step must show of itself to keep the invariant. */
  lemma LocalKeeps(s: State, s2: State, c: int, x: Slot)
    requires Inv(s) && LocalStep(s, s2, c, x)
    requires s.sender(c).Busy? && (s2.sender(c).Busy? ==> s2.sender(c).job == s.sender(c).job)
    requires SenderOk(s2, c, s2.sender(c)) && StackOk(s2, c, s2.sender(c))
    requires forall t :: WillSend(s.sender(c), t) ==> WillSend(s2.sender(c), t)
    ensures Inv(s2)
  {
    LocalTargets(s, s2, c, x);
    forall d
      ensures SenderOk(s2, d, s2.sender(d)) && StackOk(s2, d, s2.sender(d))
    {
      if d != c {
        assert SenderOk(s, d, s.sender(d)) && StackOk(s, d, s.sender(d));
        LocalOthers(s, s2, c, x, d);
      }
    }
    LocalRest(s, s2, c, x);
  }

  lemma LocalRest(s: State, s2: State, c: int, x: Slot)
    requires LocalStep(s, s2, c, x)
    requires (forall a, b :: JobsApart(s, a, b)) && (forall t :: PostedOnce(s, t)) && (forall t :: Noticed(s, t))
    requires s.sender(c).Busy? && (s2.sender(c).Busy? ==> s2.sender(c).job == s.sender(c).job)
    requires forall t :: WillSend(s.sender(c), t) ==> WillSend(s2.sender(c), t)
    ensures (forall a, b :: JobsApart(s2, a, b)) && (forall t :: PostedOnce(s2, t)) && (forall t :: Noticed(s2, t))
  {
    forall a, b
      ensures JobsApart(s2, a, b)
    {
      assert JobsApart(s, a, b);
    }
    forall t
      ensures PostedOnce(s2, t) && Noticed(s2, t)
    {
      assert PostedOnce(s, t) && Noticed(s, t);
      if d :| WillSend(s.sender(d), t) {
        assert WillSend(s2.sender(d), t);
      }
    }
  }

  // ------------------------------------------------------------------ sender steps

  lemma UnlockedUnlisted(s: State, x: Slot)
    requires (forall t :: TargetOk(s, t)) && !s.locked(x)
    ensures Unlisted(s, x)
  {
    forall t
      ensures x !in Line(s, t)
    {
      assert TargetOk(s, t);
    }
  }

  /** The steps that take the slot's lock, fill it, and prepare or retry the list insertion. */
  lemma PrepareKeeps(s: State, c: int)
    requires Inv(s) && s.sender(c).Busy?
    requires var st := s.sender(c).stage; !st.Send? && !st.Wait?
    requires s.sender(c).stage.AddCas? ==> s.first(s.sender(c).job.targets[s.sender(c).i]) != s.sender(c).stage.first
    ensures Inv(SenderStep(s, c))
  {
    var p := s.sender(c);
    assert SenderOk(s, c, p) && StackOk(s, c, p);
    var x, s2 := SlotOf(c, p.job, p.i), SenderStep(s, c);
    if p.stage.LockWait? && s.locked(x) {
      assert s2 == s;
    } else {
      if p.stage.LockWait? || p.stage.SetLock? {
        UnlockedUnlisted(s, x);
      }
      SameLines(s, s2);
      assert LocalStep(s, s2, c, x);
      PrepareSelf(s, c);
      assert forall k :: SendsLater(p, k) ==> SendsLater(s2.sender(c), k);
      LocalKeeps(s, s2, c, x);
    }
  }

  lemma PrepareSelf(s: State, c: int)
    requires s.sender(c).Busy? && SenderOk(s, c, s.sender(c)) && StackOk(s, c, s.sender(c))
    requires var p := s.sender(c);
      && !p.stage.Send? && !p.stage.Wait? && !(p.stage.LockWait? && s.locked(SlotOf(c, p.job, p.i)))
      && Unlisted(s, SlotOf(c, p.job, p.i))
      && (p.stage.AddCas? ==> s.first(p.job.targets[p.i]) != p.stage.first)
    ensures var s2 := SenderStep(s, c); SenderOk(s2, c, s2.sender(c)) && StackOk(s2, c, s2.sender(c))
  {
    var p, s2 := s.sender(c), SenderStep(s, c);
    var x := SlotOf(c, p.job, p.i);
    SameLines(s, s2);
    assert NPosted(s2.sender(c)) == NPosted(p) == p.i;
    forall k | 0 <= k < p.i
      ensures Delivered(s2, c, p.job, k)
    {
      assert Delivered(s, c, p.job, k);
      assert p.job.many && SlotOf(c, p.job, k) != x;
    }
    forall k | p.i <= k < |p.job.targets|
      ensures NotPosted(s2, p.job.targets[k], p.job.id)
    {
      assert NotPosted(s, p.job.targets[k], p.job.id);
    }
  }

  lemma WaitKeeps(s: State, c: int)
    requires Inv(s) && s.sender(c).Busy? && s.sender(c).stage.Wait?
    ensures Inv(SenderStep(s, c))
  {
    var p := s.sender(c);
    assert SenderOk(s, c, p) && StackOk(s, c, p);
    var x, s2 := SlotOf(c, p.job, p.i), SenderStep(s, c);
    if s.locked(x) {
      assert s2 == s;
    } else {
      UnlockedUnlisted(s, x);
      WaitSelf(s, c);
      LocalKeeps(s, s2, c, x);
    }
  }

  lemma WaitSelf(s: State, c: int)
    requires s.sender(c).Busy? && SenderOk(s, c, s.sender(c)) && StackOk(s, c, s.sender(c)) && s.sender(c).stage.Wait?
    requires var x := SlotOf(c, s.sender(c).job, s.sender(c).i); !s.locked(x) && Unlisted(s, x)
    ensures var s2 := SenderStep(s, c); SenderOk(s2, c, s2.sender(c)) && StackOk(s2, c, s2.sender(c))
  {
    var p, s2 := s.sender(c), SenderStep(s, c);
    SameLines(s, s2);
    forall k | 0 <= k < |p.job.targets|
      ensures Delivered(s2, c, p.job, k)
    {
      assert Delivered(s, c, p.job, k);
    }
    assert Delivered(s, c, p.job, p.i);
  }

  /** Queueing a call: CPU t's line grows by its slot. */
  lemma AddTarget(s: State, c: int)
    requires s.sender(c).Busy? && SenderOk(s, c, s.sender(c)) && s.sender(c).stage.AddCas?
    requires s.first(s.sender(c).job.targets[s.sender(c).i]) == s.sender(c).stage.first
    requires TargetOk(s, s.sender(c).job.targets[s.sender(c).i])
    ensures var t, s2 := s.sender(c).job.targets[s.sender(c).i], SenderStep(s, c);
      TargetOk(s2, t) && Line(s2, t) == Line(s, t) + [SlotOf(c, s.sender(c).job, s.sender(c).i)]
  {
    var p, s2 := s.sender(c), SenderStep(s, c);
    var x, t := SlotOf(c, p.job, p.i), p.job.targets[p.i];
    assert x !in Line(s, t);
    assert s2.queue(t)[1..] == s.queue(t);
    assert Line(s2, t) == Line(s, t) + [x];
    assert s2.handler(t) == s.handler(t) && HandlerOk(s2, t);
    assert s.handler(t).Unlock? ==> Line(s, t) != [] by { assert |s.todo(t)| <= |Line(s, t)|; }
    assert Unrun(s2, t) == Unrun(s, t) + [x];
    assert Calls(s.call, Unrun(s2, t)) == Calls(s.call, Unrun(s, t)) + [s.call(x)];
  }

  lemma AddOther(s: State, c: int, t: int)
    requires s.sender(c).Busy? && 0 <= s.sender(c).i < |s.sender(c).job.targets| && s.sender(c).stage.AddCas?
    requires t != s.sender(c).job.targets[s.sender(c).i] && TargetOk(s, t)
    ensures TargetOk(SenderStep(s, c), t) && Line(SenderStep(s, c), t) == Line(s, t)
  {
    TargetFrame(s, SenderStep(s, c), t);
  }

  /** Records and lists only get longer by a call of job `id` to CPU t in slot x. */
  ghost predicate Grown(s: State, s2: State, x: Slot, t: int, id: int) {
    && s2.locked == s.locked && s2.call == s.call && s2.next == s.next && s2.ran == s.ran && s2.jobs == s.jobs
    && (forall u :: u != t ==> Line(s2, u) == Line(s, u) && s2.posted(u) == s.posted(u))
    && Line(s2, t) == Line(s, t) + [x]
    && (exists call: Call :: call.job == id && s2.posted(t) == s.posted(t) + [call])
  }

  lemma GrownKeepsUnlisted(s: State, s2: State, x: Slot, t: int, id: int, y: Slot)
    requires Grown(s, s2, x, t, id) && Unlisted(s, y) && y != x
    ensures Unlisted(s2, y)
  {
    forall u
      ensures y !in Line(s2, u)
    {
      assert y !in Line(s, u);
    }
  }

  lemma GrownOther(s: State, s2: State, x: Slot, t: int, id: int, d: int, p: Sender)
    requires Grown(s, s2, x, t, id) && SenderOk(s, d, p) && x.cpu != d && (p.Busy? ==> p.job.id != id)
    ensures SenderOk(s2, d, p)
  {
    if p.Busy? {
      if Unlisted(s, SlotOf(d, p.job, p.i)) {
        GrownKeepsUnlisted(s, s2, x, t, id, SlotOf(d, p.job, p.i));
      }
      forall k | 0 <= k < NPosted(p)
        ensures Delivered(s2, d, p.job, k)
      {
        assert Delivered(s, d, p.job, k);
      }
      forall k | NPosted(p) <= k < |p.job.targets|
        ensures NotPosted(s2, p.job.targets[k], p.job.id)
      {
        assert NotPosted(s, p.job.targets[k], p.job.id);
      }
    }
  }

  lemma AddSelf(s: State, s2: State, c: int)
    requires s.sender(c).Busy? && SenderOk(s, c, s.sender(c)) && s.sender(c).stage.AddCas?
    requires var p := s.sender(c);
      && s2.sender(c) == AfterAdd(p.job, p.i, p.stage.first)
      && Grown(s, s2, SlotOf(c, p.job, p.i), p.job.targets[p.i], p.job.id)
    ensures SenderOk(s2, c, s2.sender(c))
  {
    var p := s.sender(c);
    forall k | 0 <= k <= p.i
      ensures Delivered(s2, c, p.job, k)
    {
      if k < p.i {
        assert Delivered(s, c, p.job, k);
      }
    }
    forall k | p.i < k < |p.job.targets|
      ensures NotPosted(s2, p.job.targets[k], p.job.id)
    {
      assert NotPosted(s, p.job.targets[k], p.job.id);
    }
  }

  lemma AddPostedOnce(s: State, s2: State, x: Slot, t: int, id: int, u: int)
    requires Grown(s, s2, x, t, id) && PostedOnce(s, u) && NotPosted(s, t, id) && id < s.jobs
    ensures PostedOnce(s2, u)
  {
  }

  lemma AddNoticed(s: State, c: int, t: int)
    requires s.sender(c).Busy? && SenderOk(s, c, s.sender(c)) && s.sender(c).stage.AddCas?
    requires s.first(s.sender(c).job.targets[s.sender(c).i]) == s.sender(c).stage.first
    requires TargetOk(s, t) && Noticed(s, t)
    ensures Noticed(SenderStep(s, c), t)
  {
    var p, s2 := s.sender(c), SenderStep(s, c);
    var u, p2 := p.job.targets[p.i], s2.sender(c);
    if t == u && (p.job.many || p.stage.first == None) {
      assert SendsLater(p2, p.i);
      assert WillSend(p2, t);
    } else if s.queue(t) != [] && !s.ipi(t) && !s.handler(t).Drain? {
      var d :| WillSend(s.sender(d), t);
      if d == c {
        var k :| 0 <= k < |p.job.targets| && p.job.targets[k] == t && SendsLater(p, k);
        assert SendsLater(p2, k);
      }
      assert WillSend(s2.sender(d), t);
    }
  }

  lemma AddKeeps(s: State, c: int)
    requires Inv(s) && s.sender(c).Busy? && s.sender(c).stage.AddCas?
    requires s.first(s.sender(c).job.targets[s.sender(c).i]) == s.sender(c).stage.first
    ensures Inv(SenderStep(s, c))
  {
    var s2 := SenderStep(s, c);
    assert SenderOk(s, c, s.sender(c)) && StackOk(s, c, s.sender(c));
    AddGrows(s, c);
    AddPosted(s, c);
    AddSelf(s, s2, c);
    AddOthers(s, s2, c);
  }

  lemma AddGrows(s: State, c: int)
    requires Inv(s) && s.sender(c).Busy? && s.sender(c).stage.AddCas? && SenderOk(s, c, s.sender(c))
    requires s.first(s.sender(c).job.targets[s.sender(c).i]) == s.sender(c).stage.first
    ensures var p, s2 := s.sender(c), SenderStep(s, c);
      && (forall u :: TargetOk(s2, u) && Noticed(s2, u))
      && Grown(s, s2, SlotOf(c, p.job, p.i), p.job.targets[p.i], p.job.id)
  {
    var p, s2 := s.sender(c), SenderStep(s, c);
    var x, t := SlotOf(c, p.job, p.i), p.job.targets[p.i];
    assert StackOk(s, c, p);
    forall u
      ensures TargetOk(s2, u) && Noticed(s2, u)
      ensures Line(s2, u) == if u == t then Line(s, u) + [x] else Line(s, u)
    {
      assert TargetOk(s, u) && Noticed(s, u);
      if u == t { AddTarget(s, c); } else { AddOther(s, c, u); }
      AddNoticed(s, c, u);
    }
    assert s2.posted(t) == s.posted(t) + [s.call(x)] && s.call(x).job == p.job.id;
  }

  lemma AddPosted(s: State, c: int)
    requires Inv(s) && s.sender(c).Busy? && s.sender(c).stage.AddCas? && SenderOk(s, c, s.sender(c))
    requires var p := s.sender(c); Grown(s, SenderStep(s, c), SlotOf(c, p.job, p.i), p.job.targets[p.i], p.job.id)
    ensures forall u :: PostedOnce(SenderStep(s, c), u)
  {
    var p := s.sender(c);
    assert NotPosted(s, p.job.targets[p.i], p.job.id);
    forall u
      ensures PostedOnce(SenderStep(s, c), u)
    {
      assert PostedOnce(s, u);
      AddPostedOnce(s, SenderStep(s, c), SlotOf(c, p.job, p.i), p.job.targets[p.i], p.job.id, u);
    }
  }

  lemma AddOthers(s: State, s2: State, c: int)
    requires s.sender(c).Busy? && 0 <= s.sender(c).i < |s.sender(c).job.targets| && s.sender(c).stage.AddCas?
    requires var p := s.sender(c);
      Grown(s, s2, SlotOf(c, p.job, p.i), p.job.targets[p.i], p.job.id) && SenderOk(s2, c, s2.sender(c))
    requires (forall d :: d != c ==> s2.sender(d) == s.sender(d))
    requires s2.sender(c) == AfterAdd(s.sender(c).job, s.sender(c).i, s.sender(c).stage.first)
    requires forall d :: SenderOk(s, d, s.sender(d))
    requires forall d :: StackOk(s, d, s.sender(d))
    requires forall a, b :: JobsApart(s, a, b)
    ensures forall d :: SenderOk(s2, d, s2.sender(d))
    ensures forall d :: StackOk(s2, d, s2.sender(d))
    ensures forall a, b :: JobsApart(s2, a, b)
  {
    var p := s.sender(c);
    forall d
      ensures SenderOk(s2, d, s2.sender(d)) && StackOk(s2, d, s2.sender(d))
    {
      assert SenderOk(s, d, s.sender(d)) && StackOk(s, d, s.sender(d)) && JobsApart(s, c, d);
      if d != c {
        GrownOther(s, s2, SlotOf(c, p.job, p.i), p.job.targets[p.i], p.job.id, d, s.sender(d));
      } else {
        assert SenderOk(s, c, p);
      }
    }
    forall a, b
      ensures JobsApart(s2, a, b)
    {
      assert JobsApart(s, a, b);
    }
  }

  lemma SendSelf(s: State, c: int)
    requires s.sender(c).Busy? && SenderOk(s, c, s.sender(c)) && StackOk(s, c, s.sender(c)) && s.sender(c).stage.Send?
    ensures var s2 := SenderStep(s, c); SenderOk(s2, c, s2.sender(c)) && StackOk(s2, c, s2.sender(c))
  {
    var p, s2 := s.sender(c), SenderStep(s, c);
    SameLines(s, s2);
    forall k | 0 <= k < |p.job.targets|
      ensures Delivered(s2, c, p.job, k)
    {
      assert Delivered(s, c, p.job, k);
    }
  }

  lemma SendNoticed(s: State, c: int, t: int)
    requires s.sender(c).Busy? && SenderOk(s, c, s.sender(c)) && s.sender(c).stage.Send? && Noticed(s, t)
    ensures Noticed(SenderStep(s, c), t)
  {
    var p, s2 := s.sender(c), SenderStep(s, c);
    if s.queue(t) != [] && !s2.ipi(t) && !s.handler(t).Drain? {
      var d :| WillSend(s.sender(d), t);
      if d == c {
        var k :| 0 <= k < |p.job.targets| && p.job.targets[k] == t && SendsLater(p, k);
        assert SendsLater(s2.sender(c), k);
      }
      assert WillSend(s2.sender(d), t);
    }
  }

  /** A step that leaves slots, lists and records alone. */
  ghost predicate SameLists(s: State, s2: State) {
    && (forall x :: s2.locked(x) == s.locked(x))
    && s2.call == s.call && s2.next == s.next && s2.first == s.first && s2.handler == s.handler
    && s2.queue == s.queue && s2.taken == s.taken && s2.todo == s.todo && s2.posted == s.posted && s2.ran == s.ran
    && s.jobs <= s2.jobs
  }

  lemma SameListsKeep(s: State, s2: State, d: int, p: Sender)
    requires SameLists(s, s2) && SenderOk(s, d, p) && StackOk(s, d, p)
    ensures SenderOk(s2, d, p) && StackOk(s2, d, p)
  {
    SameLines(s, s2);
    if p.Busy? {
      forall k | 0 <= k < NPosted(p)
        ensures Delivered(s2, d, p.job, k)
      {
        assert Delivered(s, d, p.job, k);
      }
      forall k | NPosted(p) <= k < |p.job.targets|
        ensures NotPosted(s2, p.job.targets[k], p.job.id)
      {
        assert NotPosted(s, p.job.targets[k], p.job.id);
      }
    }
  }

  lemma SendKeeps(s: State, c: int)
    requires Inv(s) && s.sender(c).Busy? && s.sender(c).stage.Send?
    ensures Inv(SenderStep(s, c))
  {
    var p, s2 := s.sender(c), SenderStep(s, c);
    assert SenderOk(s, c, p) && StackOk(s, c, p);
    SendSelf(s, c);
    forall t
      ensures TargetOk(s2, t) && PostedOnce(s2, t) && Noticed(s2, t)
    {
      assert TargetOk(s, t) && PostedOnce(s, t) && Noticed(s, t);
      TargetFrame(s, s2, t);
      SendNoticed(s, c, t);
    }
    forall d
      ensures SenderOk(s2, d, s2.sender(d)) && StackOk(s2, d, s2.sender(d))
    {
      if d != c {
        assert SenderOk(s, d, s.sender(d)) && StackOk(s, d, s.sender(d));
        SameListsKeep(s, s2, d, s.sender(d));
      }
    }
    forall a, b
      ensures JobsApart(s2, a, b)
    {
      assert JobsApart(s, a, b);
    }
  }

  lemma StartTargets(s: State, s2: State, c: int, t: int)
    requires SameLists(s, s2) && TargetOk(s, t) && PostedOnce(s, t) && Noticed(s, t)
    requires s.sender(c) == Idle && s2.ipi == s.ipi && forall d :: d != c ==> s2.sender(d) == s.sender(d)
    ensures TargetOk(s2, t) && PostedOnce(s2, t) && Noticed(s2, t) && NotPosted(s2, t, s.jobs)
  {
    TargetFrame(s, s2, t);
    if d :| WillSend(s.sender(d), t) {
      assert WillSend(s2.sender(d), t);
    }
  }

  lemma StartKeeps(s: State, e: Event)
    requires Inv(s) && e.Start? && Enabled(s, e)
    ensures Inv(StartStep(s, e))
  {
    StartKeepsTargets(s, e);
    StartKeepsSenders(s, e);
    StartKeepsApart(s, e);
  }

  lemma StartKeepsTargets(s: State, e: Event)
    requires Inv(s) && e.Start? && Enabled(s, e)
    ensures var s2 := StartStep(s, e);
      forall t :: TargetOk(s2, t) && PostedOnce(s2, t) && Noticed(s2, t) && NotPosted(s2, t, s.jobs)
  {
    var s2 := StartStep(s, e);
    forall t
      ensures TargetOk(s2, t) && PostedOnce(s2, t) && Noticed(s2, t) && NotPosted(s2, t, s.jobs)
    {
      assert TargetOk(s, t) && PostedOnce(s, t) && Noticed(s, t);
      StartTargets(s, s2, e.cpu, t);
    }
  }

  lemma StartKeepsSenders(s: State, e: Event)
    requires Inv(s) && e.Start? && Enabled(s, e)
    requires forall t :: NotPosted(StartStep(s, e), t, s.jobs)
    ensures var s2 := StartStep(s, e); forall d :: SenderOk(s2, d, s2.sender(d)) && StackOk(s2, d, s2.sender(d))
  {
    var c, s2 := e.cpu, StartStep(s, e);
    assert StackOk(s, c, s.sender(c));
    assert SameLists(s, s2);
    forall d
      ensures SenderOk(s2, d, s2.sender(d)) && StackOk(s2, d, s2.sender(d))
    {
      if d != c {
        assert SenderOk(s, d, s.sender(d)) && StackOk(s, d, s.sender(d));
        SameListsKeep(s, s2, d, s.sender(d));
      }
    }
  }

  lemma StartKeepsApart(s: State, e: Event)
    requires Inv(s) && e.Start? && Enabled(s, e)
    ensures var s2 := StartStep(s, e); forall a, b :: JobsApart(s2, a, b)
  {
    forall a, b
      ensures JobsApart(StartStep(s, e), a, b)
    {
      assert JobsApart(s, a, b) && SenderOk(s, a, s.sender(a)) && SenderOk(s, b, s.sender(b));
    }
  }

  // ----------------------------------------------------------------- handler steps

  /** What a handler step on CPU t may change. */
  ghost predicate HandlerOnly(s: State, s2: State, t: int) {
    && s2.sender == s.sender && s2.call == s.call && s2.posted == s.posted && s2.jobs == s.jobs
    && (forall u :: u != t ==>
          && s.queue(u) == s2.queue(u) && s.taken(u) == s2.taken(u)
          && s.todo(u) == s2.todo(u) && s.first(u) == s2.first(u)
          && s.handler(u) == s2.handler(u) && s.ran(u) == s2.ran(u) && s.ipi(u) == s2.ipi(u))
    && (forall x :: x !in Line(s, t) ==> s2.locked(x) == s.locked(x) && s2.next(x) == s.next(x))
    && (forall x :: !s.locked(x) ==> !s2.locked(x))
    && (forall x :: x in Line(s2, t) ==> x in Line(s, t))
    && (forall x :: x in Line(s, t) ==> x in Line(s2, t) || s.call(x) in s2.ran(t))
    && (forall k: Call :: k in s.ran(t) ==> k in s2.ran(t))
  }

  lemma HandlerOthers(s: State, s2: State, t: int, u: int)
    requires HandlerOnly(s, s2, t) && u != t && TargetOk(s, t) && TargetOk(s, u)
    ensures TargetOk(s2, u)
  {
    TargetFrame(s, s2, u);
  }

  lemma HandlerUnlisted(s: State, s2: State, t: int, x: Slot)
    requires HandlerOnly(s, s2, t) && Unlisted(s, x)
    ensures Unlisted(s2, x) && s2.locked(x) == s.locked(x) && s2.next(x) == s.next(x)
  {
    forall u
      ensures x !in Line(s2, u)
    {
      assert x !in Line(s, u);
      assert u != t ==> Line(s2, u) == Line(s, u);
    }
    assert x !in Line(s, t);
  }

  lemma HandlerSender(s: State, s2: State, t: int, d: int, p: Sender)
    requires HandlerOnly(s, s2, t) && SenderOk(s, d, p) && StackOk(s, d, p)
    ensures SenderOk(s2, d, p) && StackOk(s2, d, p)
  {
    if p.Busy? {
      if Unlisted(s, SlotOf(d, p.job, p.i)) {
        HandlerUnlisted(s, s2, t, SlotOf(d, p.job, p.i));
      }
      forall k | 0 <= k < NPosted(p)
        ensures Delivered(s2, d, p.job, k)
      {
        assert Delivered(s, d, p.job, k);
        assert p.job.targets[k] != t ==> Line(s2, p.job.targets[k]) == Line(s, p.job.targets[k]);
      }
      forall k | NPosted(p) <= k < |p.job.targets|
        ensures NotPosted(s2, p.job.targets[k], p.job.id)
      {
        assert NotPosted(s, p.job.targets[k], p.job.id);
      }
    }
  }

  lemma HandlerKeeps(s: State, s2: State, t: int)
    requires Inv(s) && HandlerOnly(s, s2, t) && TargetOk(s2, t) && Noticed(s2, t)
    ensures Inv(s2)
  {
    forall u
      ensures TargetOk(s2, u) && PostedOnce(s2, u) && Noticed(s2, u)
    {
      assert TargetOk(s, t) && TargetOk(s, u) && PostedOnce(s, u) && Noticed(s, u);
      if u != t { HandlerOthers(s, s2, t, u); }
    }
    forall d
      ensures SenderOk(s2, d, s2.sender(d)) && StackOk(s2, d, s2.sender(d))
    {
      assert SenderOk(s, d, s.sender(d)) && StackOk(s, d, s.sender(d));
      HandlerSender(s, s2, t, d, s.sender(d));
    }
    forall a, b
      ensures JobsApart(s2, a, b)
    {
      assert JobsApart(s, a, b);
    }
  }

  lemma DrainTarget(s: State, t: int)
    requires TargetOk(s, t) && s.handler(t).Drain?
    ensures var s2 := HandlerStep(s, t); TargetOk(s2, t) && HandlerOnly(s, s2, t)
  {
    var s2 := HandlerStep(s, t);
    assert Line(s2, t) == Line(s, t);
  }

  /** Moving the newest of the slots still to be reversed to the front of the reversed ones. */
  lemma ReverseMoves(x: Slot, rest: seq<Slot>, todo: seq<Slot>, queue: seq<Slot>)
    ensures Rev([x] + rest) + todo + Rev(queue) == Rev(rest) + ([x] + todo) + Rev(queue)
    ensures NoDup(Rev([x] + rest) + todo + Rev(queue)) ==> x !in rest && x !in todo && x !in queue
  {
    assert ([x] + rest)[1..] == rest;
    var a, b := Rev(rest), todo + Rev(queue);
    var l := a + [x] + b;
    assert Rev([x] + rest) + todo + Rev(queue) == l;
    assert Rev(rest) + ([x] + todo) + Rev(queue) == l;
    if NoDup(l) {
      assert l[|a|] == x;
      assert forall i :: 0 <= i < |a| ==> a[i] == l[i];
      assert forall i :: 0 <= i < |b| ==> b[i] == l[|a| + 1 + i];
      assert x !in a && x !in b;
      RevHas(rest);
      RevHas(queue);
    }
  }

  lemma ReverseLists(s: State, t: int)
    requires TargetOk(s, t) && s.handler(t).Reverse? && s.handler(t).head.Some?
    ensures var s2 := HandlerStep(s, t);
      ListsOk(s2, t) && Line(s2, t) == Line(s, t) && s.handler(t).head.value in Line(s, t)
  {
    var h, s2 := s.handler(t), HandlerStep(s, t);
    var x, rest := h.head.value, s.taken(t)[1..];
    assert s.taken(t) == [x] + rest;
    ReverseMoves(x, rest, s.todo(t), s.queue(t));
    assert x in s.taken(t);
    LineHas(s, t);
    LinkedFrame(s.next, s2.next, s.next(x), rest);
    LinkedFrame(s.next, s2.next, h.newHead, s.todo(t));
    LinkedFrame(s.next, s2.next, s.first(t), s.queue(t));
    assert ([x] + s.todo(t))[1..] == s.todo(t);
  }

  lemma ReverseTarget(s: State, t: int)
    requires TargetOk(s, t) && s.handler(t).Reverse?
    ensures var s2 := HandlerStep(s, t); TargetOk(s2, t) && HandlerOnly(s, s2, t)
  {
    var s2 := HandlerStep(s, t);
    if s.handler(t).head.Some? {
      ReverseLists(s, t);
    } else {
      assert Line(s2, t) == Line(s, t);
    }
  }

  lemma LoopTarget(s: State, t: int)
    requires TargetOk(s, t) && s.handler(t).Loop?
    ensures var s2 := HandlerStep(s, t); TargetOk(s2, t) && HandlerOnly(s, s2, t)
  {
    assert Line(HandlerStep(s, t), t) == Line(s, t);
  }

  lemma CallsFirst(call: Slot -> Call, done: seq<Call>, l: seq<Slot>)
    requires l != []
    ensures done + Calls(call, l) == (done + [call(l[0])]) + Calls(call, l[1..])
  {
    assert Calls(call, l) == [call(l[0])] + Calls(call, l[1..]);
  }

  lemma InvokeTarget(s: State, t: int)
    requires TargetOk(s, t) && s.handler(t).Invoke?
    ensures var s2 := HandlerStep(s, t); TargetOk(s2, t) && HandlerOnly(s, s2, t)
  {
    var s2 := HandlerStep(s, t);
    var l := Line(s, t);
    assert Line(s2, t) == l && l[0] == s.handler(t).slot && l != [];
    assert Unrun(s, t) == l && Unrun(s2, t) == l[1..];
    CallsFirst(s.call, s.ran(t), l);
    assert OrderOk(s2, t);
    assert HandlerOk(s2, t);
  }

  lemma UnlockTarget(s: State, t: int)
    requires TargetOk(s, t) && s.handler(t).Unlock?
    ensures var s2 := HandlerStep(s, t); TargetOk(s2, t) && HandlerOnly(s, s2, t)
  {
    var s2, x := HandlerStep(s, t), s.handler(t).slot;
    var l := Line(s, t);
    assert l[0] == x && Line(s2, t) == l[1..];
    assert l == [x] + l[1..];
    assert x !in l[1..];
    assert SlotsOk(s2, t);
    assert Unrun(s, t) == l[1..] && Unrun(s2, t) == l[1..];
    assert ListsOk(s2, t);
  }

  lemma HandleKeeps(s: State, t: int)
    requires Inv(s)
    ensures Inv(HandlerStep(s, t))
  {
    var s2 := HandlerStep(s, t);
    assert TargetOk(s, t) && Noticed(s, t);
    match s.handler(t)
    case Off =>
      if s.ipi(t) {
        TakeTarget(s, t);
        HandlerKeeps(s, s2, t);
      }
    case Drain => DrainTarget(s, t); HandlerKeeps(s, s2, t);
    case Reverse(_, _) => ReverseTarget(s, t); HandlerKeeps(s, s2, t);
    case Loop(_) => LoopTarget(s, t); HandlerKeeps(s, s2, t);
    case Invoke(_, _) => InvokeTarget(s, t); HandlerKeeps(s, s2, t);
    case Unlock(_, _) => UnlockTarget(s, t); HandlerKeeps(s, s2, t);
  }

  lemma TakeTarget(s: State, t: int)
    requires TargetOk(s, t) && s.handler(t).Off? && s.ipi(t)
    ensures var s2 := HandlerStep(s, t); TargetOk(s2, t) && HandlerOnly(s, s2, t)
  {
    assert Line(HandlerStep(s, t), t) == Line(s, t);
  }

  // ---------------------------------------------------------------------- all runs

  lemma InitInv(s: State)
    requires Init(s)
    ensures Inv(s)
  {
    forall t
      ensures TargetOk(s, t)
    {
      assert Line(s, t) == [];
    }
  }

  lemma StepKeepsInv(s: State, e: Event)
    requires Inv(s) && Enabled(s, e)
    ensures Inv(Step(s, e))
  {
    match e
    case Start(_, _, _, _, _, _) => StartKeeps(s, e);
    case Handle(t) => HandleKeeps(s, t);
    case Run(c) =>
      var p := s.sender(c);
      if p.stage.Send? {
        SendKeeps(s, c);
      } else if p.stage.Wait? {
        WaitKeeps(s, c);
      } else if p.stage.AddCas? && s.first(p.job.targets[p.i]) == p.stage.first {
        AddKeeps(s, c);
      } else {
        PrepareKeeps(s, c);
      }
  }

  lemma {:induction false} RunKeepsInv(s: State, es: seq<Event>)
    requires Inv(s) && IsRun(s, es)
    ensures Inv(After(s, es))
    decreases |es|
  {
    if es != [] {
      StepKeepsInv(s, es[0]);
      RunKeepsInv(Step(s, es[0]), es[1..]);
    }
  }

  /** Calls run on a CPU in the order they were posted to it, each at most once; those posted
      and not yet run are exactly the calls in the slots still queued or held by the handler. */
  lemma RunOnceInOrder(s0: State, es: seq<Event>, t: int)
    requires Init(s0) && IsRun(s0, es)
    ensures var s := After(s0, es);
      && s.posted(t) == s.ran(t) + Calls(s.call, Unrun(s, t))
      && (forall i, j :: 0 <= i < j < |s.ran(t)| ==> s.ran(t)[i].job != s.ran(t)[j].job)
  {
    InitInv(s0);
    RunKeepsInv(s0, es);
    var s := After(s0, es);
    assert TargetOk(s, t) && PostedOnce(s, t);
    assert forall i :: 0 <= i < |s.ran(t)| ==> s.ran(t)[i] == s.posted(t)[i];
  }

  lemma SenderTouchesOwn(s: State, c: int, x: Slot)
    requires SenderOk(s, c, s.sender(c)) && Enabled(s, Run(c)) && (!s.locked(x) ==> Unlisted(s, x))
    ensures var s2 := SenderStep(s, c);
      s2.call(x) != s.call(x) || s2.next(x) != s.next(x) || s2.locked(x) != s.locked(x) ==> Unlisted(s, x)
  {
  }

  /** A slot is refilled, relinked by a sender or locked anew only while it is on no queue and
      in no handler's hands. */
  lemma NeverRefilledInUse(s0: State, es: seq<Event>, c: int, x: Slot)
    requires Init(s0) && IsRun(s0, es) && Enabled(After(s0, es), Run(c))
    ensures var s, s2 := After(s0, es), Step(After(s0, es), Run(c));
      s2.call(x) != s.call(x) || s2.next(x) != s.next(x) || s2.locked(x) != s.locked(x) ==> Unlisted(s, x)
  {
    InitInv(s0);
    RunKeepsInv(s0, es);
    var s := After(s0, es);
    assert SenderOk(s, c, s.sender(c));
    if !s.locked(x) {
      UnlockedUnlisted(s, x);
    }
    SenderTouchesOwn(s, c, x);
  }

  lemma WaitEnds(s: State, c: int)
    requires SenderOk(s, c, s.sender(c)) && (forall t :: TargetOk(s, t)) && Enabled(s, Run(c))
    requires s.sender(c).job.wait && SenderStep(s, c).sender(c) == Idle
    ensures var job := s.sender(c).job; forall k :: 0 <= k < |job.targets| ==> CallOf(job, k) in s.ran(job.targets[k])
  {
    var p := s.sender(c);
    assert p.stage.Wait? && p.i + 1 == |p.job.targets|;
    UnlockedUnlisted(s, SlotOf(c, p.job, p.i));
    assert Delivered(s, c, p.job, p.i);
  }

  /** A caller that waits returns only once its function has run on every target. */
  lemma WaiterSeesAllRun(s0: State, es: seq<Event>, c: int)
    requires Init(s0) && IsRun(s0, es) && Enabled(After(s0, es), Run(c))
    requires After(s0, es).sender(c).job.wait && Step(After(s0, es), Run(c)).sender(c) == Idle
    ensures var s, job := After(s0, es), After(s0, es).sender(c).job;
      forall t :: t in job.targets ==>
        exists call :: call in s.ran(t) && call.job == job.id && call.func == job.func && call.info == job.info
  {
    InitInv(s0);
    RunKeepsInv(s0, es);
    var s, job := After(s0, es), After(s0, es).sender(c).job;
    assert SenderOk(s, c, s.sender(c));
    WaitEnds(s, c);
    forall t | t in job.targets
      ensures exists call :: call in s.ran(t) && call.job == job.id && call.func == job.func && call.info == job.info
    {
      var k :| 0 <= k < |job.targets| && job.targets[k] == t;
      assert CallOf(job, k) in s.ran(t);
    }
  }

  /** A queue that holds calls always has an interrupt pending, a handler about to empty it,
      or a sender that has still to send the interrupt. */
  lemma NoLostInterrupt(s0: State, es: seq<Event>, t: int)
    requires Init(s0) && IsRun(s0, es) && After(s0, es).queue(t) != []
    ensures var s := After(s0, es); s.ipi(t) || s.handler(t).Drain? || exists c :: WillSend(s.sender(c), t)
  {
    InitInv(s0);
    RunKeepsInv(s0, es);
    assert Noticed(After(s0, es), t);
  }

  /** The handler frees a slot only after running its call, and every slot it runs is locked. */
  lemma UnlockedAfterRun(s0: State, es: seq<Event>, t: int)
    requires Init(s0) && IsRun(s0, es) && After(s0, es).handler(t).Unlock?
    ensures var s, x := After(s0, es), After(s0, es).handler(t).slot;
      s.locked(x) && s.call(x) in s.ran(t) && s.call(x).target == t
  {
    InitInv(s0);
    RunKeepsInv(s0, es);
    var s := After(s0, es);
    assert TargetOk(s, t);
    assert Line(s, t)[0] == s.handler(t).slot;
  }

  // ---------------------------------------------------------------------- progress

  /** How many calls are in the hands of t's handler, and for how many it is done: they have run and
      their slots have been unlocked. */
  function Hand(s: State, t: int): nat { |s.taken(t)| + |s.todo(t)| }

  function Done(s: State, t: int): int {
    |s.ran(t)| - if s.handler(t).Unlock? then 1 else 0
  }

  /** Some of the first n calls posted to t are still on its queue. */
  predicate InQueue(s: State, t: int, n: nat) { Done(s, t) + Hand(s, t) < n }

  /** They will be noticed without any further interrupt. */
  predicate Awake(s: State, t: int, n: nat) { InQueue(s, t, n) ==> s.ipi(t) || s.handler(t).Drain? }

  /** The steps that t's handler needs for what it has in hand. */
  function HandWork(s: State, t: int): nat {
    match s.handler(t)
    case Off => 0
    case Drain => 0
    case Reverse(_, _) => 4 * |s.taken(t)| + 3 * |s.todo(t)| + 2
    case Loop(_) => 3 * |s.todo(t)| + 1
    case Invoke(_, _) => 3 * |s.todo(t)|
    case Unlock(_, _) => if s.todo(t) == [] then 0 else 3 * |s.todo(t)| - 1
  }

  /** At most how many steps of its own t's handler needs to be done with the first n calls. */
  function Work(s: State, t: int, n: nat): nat {
    if n <= Done(s, t) then 0
    else HandWork(s, t) + if InQueue(s, t, n) then 4 * |s.queue(t)| + (if s.handler(t).Drain? then 3 else 4) else 0
  }

  function HandlesOf(es: seq<Event>, t: int): nat
    decreases |es|
  {
    if es == [] then 0 else (if es[0] == Handle(t) then 1 else 0) + HandlesOf(es[1..], t)
  }

  /** Posted calls are done, in the handler's hands, or on the queue. */
  lemma WhereCallsAre(s: State, t: int)
    requires TargetOk(s, t)
    ensures |s.posted(t)| == Done(s, t) + Hand(s, t) + |s.queue(t)|
  {
    RevHas(s.taken(t));
    RevHas(s.queue(t));
  }

  /** Every step of the handler brings the calls nearer to having run. */
  lemma HandleWorks(s: State, t: int, n: nat)
    requires TargetOk(s, t) && n <= |s.posted(t)| && Awake(s, t, n)
    ensures var s2 := HandlerStep(s, t);
      && Awake(s2, t, n) && s2.posted(t) == s.posted(t)
      && (Work(s2, t, n) < Work(s, t, n) || Work(s2, t, n) == 0)
  {
    WhereCallsAre(s, t);
  }

  /** Nothing of CPU t has changed but what is being posted to it. */
  ghost predicate Untouched(s: State, s2: State, t: int) {
    && s2.ran(t) == s.ran(t) && s2.taken(t) == s.taken(t) && s2.todo(t) == s.todo(t) && s2.handler(t) == s.handler(t)
    && (s.ipi(t) ==> s2.ipi(t)) && s.posted(t) <= s2.posted(t)
    && |s2.queue(t)| - |s.queue(t)| == |s2.posted(t)| - |s.posted(t)|
  }

  lemma OthersTouchNothing(s: State, e: Event, t: int)
    requires Inv(s) && Enabled(s, e) && e != Handle(t)
    ensures Untouched(s, Step(s, e), t)
  {
    if e.Run? {
      assert SenderOk(s, e.cpu, s.sender(e.cpu));
      SenderTouchesNothing(s, e.cpu, t);
    }
  }

  lemma SenderTouchesNothing(s: State, c: int, t: int)
    requires s.sender(c).Busy? && 0 <= s.sender(c).i < |s.sender(c).job.targets|
    ensures Untouched(s, SenderStep(s, c), t)
  {
  }

  /** Whatever step is taken, the work left grows only with the calls posted by it. */
  lemma StepWorks(s: State, e: Event, t: int, n: nat)
    requires Inv(s) && Enabled(s, e) && n <= |s.posted(t)| && Awake(s, t, n)
    ensures var s2 := Step(s, e);
      && Awake(s2, t, n) && s.posted(t) <= s2.posted(t)
      && (Work(s2, t, n) == 0 ||
          Work(s2, t, n) + HandlesOf([e], t) <= Work(s, t, n) + 4 * (|s2.posted(t)| - |s.posted(t)|))
  {
    assert TargetOk(s, t);
    assert HandlesOf([e], t) == if e == Handle(t) then 1 else 0;
    if e == Handle(t) { HandleWorks(s, t, n); } else { OthersTouchNothing(s, e, t); }
  }

  lemma {:induction false} RunWorks(s: State, es: seq<Event>, t: int, n: nat)
    requires Inv(s) && IsRun(s, es) && n <= |s.posted(t)| && Awake(s, t, n)
    ensures var u := After(s, es);
      && Inv(u) && s.posted(t) <= u.posted(t)
      && (Work(u, t, n) == 0 || Work(u, t, n) + HandlesOf(es, t) <= Work(s, t, n) + 4 * (|u.posted(t)| - |s.posted(t)|))
    decreases |es|
  {
    if es != [] {
      var s2 := Step(s, es[0]);
      StepKeepsInv(s, es[0]);
      StepWorks(s, es[0], t, n);
      RunWorks(s2, es[1..], t, n);
      if Work(s2, t, n) == 0 { StaysDone(s2, es[1..], t, n); }
      assert HandlesOf([es[0]], t) == if es[0] == Handle(t) then 1 else 0;
    }
  }

  lemma {:induction false} StaysDone(s: State, es: seq<Event>, t: int, n: nat)
    requires Inv(s) && IsRun(s, es) && n <= |s.posted(t)| && Awake(s, t, n) && Work(s, t, n) == 0
    ensures Work(After(s, es), t, n) == 0
    decreases |es|
  {
    assert TargetOk(s, t);
    WhereCallsAre(s, t);
    NoWorkLeft(s, t, n);
    if es != [] {
      StepKeepsInv(s, es[0]);
      StepWorks(s, es[0], t, n);
      DoneGrows(s, es[0], t);
      StaysDone(Step(s, es[0]), es[1..], t, n);
    }
  }

  lemma DoneGrows(s: State, e: Event, t: int)
    requires Inv(s) && Enabled(s, e)
    ensures Done(s, t) <= Done(Step(s, e), t)
  {
    if e != Handle(t) { OthersTouchNothing(s, e, t); }
  }

  /** No work is left exactly when the handler is done with the calls. */
  lemma NoWorkLeft(s: State, t: int, n: nat)
    requires TargetOk(s, t) && n <= |s.posted(t)|
    ensures Work(s, t, n) == 0 <==> n <= Done(s, t)
  {
    WhereCallsAre(s, t);
  }

  lemma WorkBound(s: State, t: int, n: nat)
    requires TargetOk(s, t) && n <= |s.posted(t)|
    ensures Work(s, t, n) <= 4 * (|s.posted(t)| - |s.ran(t)|) + 6
  {
    WhereCallsAre(s, t);
  }

  /** The first n calls, if they will be noticed, are run in time and their slots unlocked. */
  lemma CallsRun(s: State, more: seq<Event>, t: int, n: nat)
    requires Inv(s) && IsRun(s, more) && n <= |s.posted(t)| && Awake(s, t, n)
    requires HandlesOf(more, t) >= 4 * (|After(s, more).posted(t)| - |s.ran(t)|) + 6
    ensures var u := After(s, more); Inv(u) && n <= Done(u, t) && s.posted(t) <= u.posted(t)
  {
    var u := After(s, more);
    assert TargetOk(s, t);
    WorkBound(s, t, n);
    RunWorks(s, more, t, n);
    assert TargetOk(u, t);
    NoWorkLeft(u, t, n);
  }

  /**
   Every call is run: once the queue will be noticed, then however the run goes on, the calls
   posted so far have run after at most four steps of the target's handler for each of them and
   for each call posted meanwhile, and six more.
   */
  lemma CallsGetRun(s0: State, es: seq<Event>, more: seq<Event>, t: int)
    requires Init(s0) && IsRun(s0, es) && IsRun(After(s0, es), more)
    requires var s := After(s0, es); s.queue(t) == [] || s.ipi(t) || s.handler(t).Drain?
    requires var s, u := After(s0, es), After(After(s0, es), more);
      HandlesOf(more, t) >= 4 * (|u.posted(t)| - |s.ran(t)|) + 6
    ensures After(s0, es).posted(t) <= After(After(s0, es), more).ran(t)
  {
    InitInv(s0);
    RunKeepsInv(s0, es);
    var s, u := After(s0, es), After(After(s0, es), more);
    assert TargetOk(s, t);
    WhereCallsAre(s, t);
    CallsRun(s, more, t, |s.posted(t)|);
    assert TargetOk(u, t);
    assert u.ran(t) == u.posted(t)[..|u.ran(t)|];
  }
}
