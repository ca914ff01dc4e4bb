/**
 The queued spinlock (kernel/core/locking/qspinlock.c with its fast paths from
 kernel/include/asm-generic/qspinlock.h) as a step machine.

 Any number of locks share the per-CPU queue nodes.  A context is a CPU at one of
 the four nesting levels (task, softirq, hardirq, nmi); a context runs only while
 every higher level of its CPU is outside the lock code.  Every atomic operation on
 a lock word, and every load or store of a queue node, is one step.
 */
module QSpinlock {
  import opened Wrappers
  import opened Lists

  type Lock = int
  datatype Ctx = Ctx(cpu: int, level: nat)
  datatype NodeId = NodeId(cpu: int, idx: nat)

  /** The lock word (queue tail, pending, locked); `QSpinlockWord` packs it into 32 bits. */
  datatype Word = Word(tail: Option<NodeId>, pending: bool, locked: bool)

  datatype Node = Node(next: Option<NodeId>, locked: bool)

  const MAX_NODES: nat := 4
  const PENDING_LOOPS: nat := 1
  const FREE: Word := Word(None, false, false)
  const PENDING_VAL: Word := Word(None, true, false)
  const LOCKED_VAL: Word := Word(None, false, true)

  /** Where a context is inside the lock code, with the C function's live locals. */
  datatype PC =
    | Idle
    | TryRead(l: Lock)
    | TryCas(l: Lock)
    | Spin(l: Lock, cnt: nat)
    | FetchPending(l: Lock)
    | UndoPending(l: Lock)
    | WaitOwner(l: Lock)
    | TakePending(l: Lock)
    | Queue(l: Lock)
    | InitNode(l: Lock, idx: nat)
    | NodeTryRead(l: Lock, idx: nat)
    | NodeTryCas(l: Lock, idx: nat)
    | XchgTail(l: Lock, idx: nat)
    | Link(l: Lock, idx: nat, prev: NodeId)
    | WaitNode(l: Lock, idx: nat)
    | ReadNext(l: Lock, idx: nat)
    | WaitHead(l: Lock, idx: nat, next: Option<NodeId>)
    | Claim(l: Lock, idx: nat, next: Option<NodeId>, val: Word)
    | SetLocked(l: Lock, idx: nat, next: Option<NodeId>)
    | WaitNext(l: Lock, idx: nat, next: Option<NodeId>)
    | PassOn(l: Lock, idx: nat, succ: NodeId)
    | Release(l: Lock, idx: nat)

  /**
   `word`, `node`, `count`, `pc` and `held` are the program's state.  The rest only
   records history: who owns the lock byte and the pending bit, the queue in
   `xchg_tail` order, the levels that hold the nodes of a CPU, and per lock the order
   of arrivals in the queue and the order in which queued contexts got the lock.
   */
  datatype State = State(
    word: Lock -> Word,
    node: NodeId -> Node,
    count: int -> int,
    pc: Ctx -> PC,
    held: Ctx -> set<Lock>,
    owner: Lock -> Option<Ctx>,
    pender: Lock -> Option<Ctx>,
    queue: Lock -> seq<Ctx>,
    stack: int -> seq<nat>,
    arrivals: Lock -> seq<Ctx>,
    served: Lock -> seq<Ctx>)

  /** What an idle context may start; `Run` is the next step of a running one. */
  datatype Action = SpinLock(l: Lock) | SpinTrylock(l: Lock) | SpinUnlock(l: Lock) | Run

  function At(s: State, c: Ctx, p: PC): State {
    s.(pc := Set(s.pc, c, p))
  }

  function SetWord(s: State, l: Lock, w: Word): State {
    s.(word := Set(s.word, l, w))
  }

  /** The context now owns lock `l`. */
  function Own(s: State, c: Ctx, l: Lock): State {
    s.(held := Set(s.held, c, s.held(c) + {l}), owner := Set(s.owner, l, Some(c)))
  }

  predicate HasNode(p: PC) {
    p.InitNode? || p.NodeTryRead? || p.NodeTryCas? || p.XchgTail? || p.Release? || QueueState(p)
  }

  predicate QueueState(p: PC) {
    p.Link? || p.WaitNode? || p.ReadNext? || p.WaitHead? || p.Claim? || p.SetLocked? || p.WaitNext? || p.PassOn?
  }

  function Idx(p: PC): nat {
    if HasNode(p) then p.idx else 0
  }

  function NodeOf(s: State, c: Ctx): NodeId {
    NodeId(c.cpu, Idx(s.pc(c)))
  }

  /** A context steps only while no higher level of its CPU is inside the lock code. */
  ghost predicate Running(s: State, c: Ctx) {
    && c.level < MAX_NODES
    && forall d: Ctx :: d.cpu == c.cpu && d.level > c.level ==> s.pc(d) == Idle
  }

  ghost predicate Enabled(s: State, c: Ctx, a: Action) {
    && Running(s, c)
    && (!a.Run? ==> s.pc(c) == Idle)
    && (a.SpinUnlock? ==> a.l in s.held(c))
  }

  /** The slow path's branches on the value it last read (qspinlock.c:298-315). */
  function Decide(l: Lock, val: Word, cnt: nat): PC {
    if val == PENDING_VAL && cnt > 0 then Spin(l, cnt - 1)
    else if val.tail.Some? || val.pending then Queue(l)
    else FetchPending(l)
  }

  /** cmpxchg of the whole word from `from` to LOCKED_VAL; success owns the lock. */
  function CasLocked(s: State, c: Ctx, l: Lock, from: Word, won: PC, lost: PC): State {
    if s.word(l) == from
    then At(Own(SetWord(s, l, LOCKED_VAL), c, l), c, won)
    else At(s, c, lost)
  }

  function Start(s: State, c: Ctx, a: Action): State
    requires !a.Run?
  {
    match a
    case SpinLock(l) =>
      if s.word(l) == FREE
      then CasLocked(s, c, l, FREE, Idle, Idle)
      else At(s, c, Decide(l, s.word(l), PENDING_LOOPS + 1))
    case SpinTrylock(l) => At(s, c, TryRead(l))
    case SpinUnlock(l) =>
      SetWord(s, l, s.word(l).(locked := false))
        .(held := Set(s.held, c, s.held(c) - {l}), owner := Set(s.owner, l, None))
  }

  /** The pending-bit half of the slow path (qspinlock.c:298-352). */
  function PendingStep(s: State, c: Ctx): State {
    var p := s.pc(c);
    match p
    case TryRead(l) => At(s, c, if s.word(l) == FREE then TryCas(l) else Idle)
    case TryCas(l) => CasLocked(s, c, l, FREE, Idle, Idle)
    case Spin(l, cnt) => At(s, c, Decide(l, s.word(l), cnt))
    case FetchPending(l) =>
      var val := s.word(l);
      var s1 := SetWord(s, l, val.(pending := true));
      var s2 := if val.pending then s1 else s1.(pender := Set(s.pender, l, Some(c)));
      At(s2, c,
         if val.tail.Some? || val.pending then (if val.pending then Queue(l) else UndoPending(l))
         else if val.locked then WaitOwner(l) else TakePending(l))
    case UndoPending(l) =>
      At(SetWord(s, l, s.word(l).(pending := false)).(pender := Set(s.pender, l, None)), c, Queue(l))
    case WaitOwner(l) => if s.word(l).locked then s else At(s, c, TakePending(l))
    case TakePending(l) =>
      At(Own(SetWord(s, l, s.word(l).(pending := false, locked := true)).(pender := Set(s.pender, l, None)), c, l),
         c, Idle)
    case _ => s
  }

  /** Taking a node, the second trylock and joining the queue (qspinlock.c:361-413). */
  function JoinStep(s: State, c: Ctx): State {
    var p := s.pc(c);
    match p
    case Queue(l) =>
      At(s.(count := Set(s.count, c.cpu, s.count(c.cpu) + 1),
            stack := Set(s.stack, c.cpu, s.stack(c.cpu) + [c.level])),
         c, InitNode(l, if s.count(c.cpu) < 0 then 0 else s.count(c.cpu)))
    case InitNode(l, idx) =>
      At(s.(node := Set(s.node, NodeOf(s, c), Node(None, false))), c, NodeTryRead(l, idx))
    case NodeTryRead(l, idx) => At(s, c, if s.word(l) == FREE then NodeTryCas(l, idx) else XchgTail(l, idx))
    case NodeTryCas(l, idx) => CasLocked(s, c, l, FREE, Release(l, idx), XchgTail(l, idx))
    case XchgTail(l, idx) =>
      var prior := s.word(l).tail;
      At(SetWord(s, l, s.word(l).(tail := Some(NodeOf(s, c))))
           .(queue := Set(s.queue, l, s.queue(l) + [c]), arrivals := Set(s.arrivals, l, s.arrivals(l) + [c])),
         c, if prior.Some? then Link(l, idx, prior.value) else WaitHead(l, idx, None))
    case Link(l, idx, prev) =>
      At(s.(node := Set(s.node, prev, s.node(prev).(next := Some(NodeOf(s, c))))), c, WaitNode(l, idx))
    case _ => s
  }

  /** Waiting in the queue, claiming the lock and passing the queue on (qspinlock.c:412-484). */
  function HeadStep(s: State, c: Ctx): State {
    var p := s.pc(c);
    match p
    case WaitNode(l, idx) => if s.node(NodeOf(s, c)).locked then At(s, c, ReadNext(l, idx)) else s
    case ReadNext(l, idx) => At(s, c, WaitHead(l, idx, s.node(NodeOf(s, c)).next))
    case WaitHead(l, idx, next) =>
      if s.word(l).locked || s.word(l).pending then s else At(s, c, Claim(l, idx, next, s.word(l)))
    case Claim(l, idx, next, val) =>
      if val.tail == Some(NodeOf(s, c)) && s.word(l) == val then
        CasLocked(s, c, l, val, Release(l, idx), Idle)
          .(queue := Set(s.queue, l, []), served := Set(s.served, l, s.served(l) + [c]))
      else At(s, c, SetLocked(l, idx, next))
    case SetLocked(l, idx, next) =>
      At(Own(SetWord(s, l, s.word(l).(locked := true)), c, l).(served := Set(s.served, l, s.served(l) + [c])),
         c, WaitNext(l, idx, next))
    case WaitNext(l, idx, next) =>
      if next.Some? then At(s, c, PassOn(l, idx, next.value))
      else if s.node(NodeOf(s, c)).next.Some? then At(s, c, PassOn(l, idx, s.node(NodeOf(s, c)).next.value))
      else s
    case PassOn(l, idx, succ) =>
      At(s.(node := Set(s.node, succ, s.node(succ).(locked := true)),
            queue := Set(s.queue, l, if s.queue(l) == [] then [] else s.queue(l)[1..])), c, Release(l, idx))
    case Release(l, idx) =>
      At(s.(count := Set(s.count, c.cpu, s.count(c.cpu) - 1),
            stack := Set(s.stack, c.cpu, if s.stack(c.cpu) == [] then [] else s.stack(c.cpu)[..|s.stack(c.cpu)| - 1])),
         c, Idle)
    case _ => s
  }

  function Step(s: State, c: Ctx, a: Action): State {
    var p := s.pc(c);
    if !a.Run? then Start(s, c, a)
    else if p.Queue? || p.InitNode? || p.NodeTryRead? || p.NodeTryCas? || p.XchgTail? || p.Link? then JoinStep(s, c)
    else if HasNode(p) then HeadStep(s, c)
    else PendingStep(s, c)
  }

  // ---------------------------------------------------------------- invariant

  /** The nodes of a CPU are handed out like a stack, to strictly increasing levels. */
  ghost predicate NestingOn(s: State, p: int) {
    var st := s.stack(p);
    && s.count(p) == |st|
    && (forall i: nat, j: nat :: i < j < |st| ==> st[i] < st[j])
    && (forall i: nat :: i < |st| ==>
         st[i] < MAX_NODES && HasNode(s.pc(Ctx(p, st[i]))) && Idx(s.pc(Ctx(p, st[i]))) == i)
    && (forall v: nat :: HasNode(s.pc(Ctx(p, v))) ==> Idx(s.pc(Ctx(p, v))) < |st| && st[Idx(s.pc(Ctx(p, v)))] == v)
  }

  ghost predicate NestingInv(s: State) {
    forall p: int :: NestingOn(s, p)
  }

  predicate QueuedOn(p: PC, l: Lock) {
    QueueState(p) && p.l == l
  }

  /** Committed to `xchg_tail` on `l`: every path from here joins the queue while the word is non-zero. */
  predicate BoundToQueue(p: PC, l: Lock) {
    (p.UndoPending? || p.Queue? || p.InitNode? || p.NodeTryRead? || p.NodeTryCas? || p.XchgTail?) && p.l == l
  }

  predicate PendingState(p: PC, l: Lock) {
    (p.UndoPending? || p.WaitOwner? || p.TakePending?) && p.l == l
  }

  /** Context `q[i]`, for i > 0, waits on its own node until `q[i-1]` passes the queue on. */
  ghost predicate Behind(s: State, q: seq<Ctx>, i: nat)
    requires 0 < i < |q|
  {
    var p := s.pc(q[i]);
    && (p.Link? || p.WaitNode?)
    && !s.node(NodeOf(s, q[i])).locked
    && (p.Link? ==> p.prev == NodeOf(s, q[i - 1]) && s.node(NodeOf(s, q[i - 1])).next == None)
    && (p.WaitNode? ==> s.node(NodeOf(s, q[i - 1])).next == Some(NodeOf(s, q[i])))
  }

  /** The chain of queue nodes: no duplicates, ends at the decoded tail, linked in order. */
  ghost predicate ChainInv(s: State, l: Lock) {
    var q := s.queue(l);
    && NoDup(q)
    && (forall c: Ctx :: c in q <==> QueuedOn(s.pc(c), l))
    && s.word(l).tail == (if q == [] then None else Some(NodeOf(s, q[|q| - 1])))
    && (forall i: nat :: 0 < i < |q| ==> Behind(s, q, i))
    && (q != [] ==> s.node(NodeOf(s, q[|q| - 1])).next == None)
  }

  function LocalNext(p: PC): Option<NodeId> {
    if p.WaitHead? || p.Claim? || p.SetLocked? || p.WaitNext? then p.next
    else if p.PassOn? then Some(p.succ)
    else None
  }

  /** Some context will queue up behind the head, which therefore finds a successor. */
  ghost predicate SuccessorComing(s: State, l: Lock) {
    |s.queue(l)| >= 2 || exists d: Ctx :: BoundToQueue(s.pc(d), l)
  }

  /** What the context at the head of the queue knows. */
  ghost predicate HeadInv(s: State, l: Lock) {
    var q := s.queue(l);
    q != [] ==>
      var p := s.pc(q[0]);
      && !p.Link?
      && (p.WaitNode? ==> s.node(NodeOf(s, q[0])).locked)
      && (LocalNext(p).Some? ==> |q| >= 2 && s.pc(q[1]).WaitNode? && LocalNext(p).value == NodeOf(s, q[1]))
      && (p.Claim? ==> !p.val.pending && !p.val.locked && (p.val.tail != Some(NodeOf(s, q[0])) ==> |q| >= 2))
      && (p.SetLocked? || p.WaitNext? ==> SuccessorComing(s, l))
      && (p.WaitNext? || p.PassOn? ==> s.owner(l) == Some(q[0]))
  }

  /** The lock byte says who owns the lock; at most one context does. */
  ghost predicate OwnerInv(s: State, l: Lock) {
    && (s.word(l).locked <==> s.owner(l).Some?)
    && (forall c: Ctx :: l in s.held(c) <==> s.owner(l) == Some(c))
  }

  /** The pending bit has at most one owner, and the queue head and a pending owner never both claim. */
  ghost predicate PendingInv(s: State, l: Lock) {
    && (s.word(l).pending <==> s.pender(l).Some?)
    && (forall c: Ctx :: PendingState(s.pc(c), l) <==> s.pender(l) == Some(c))
    && (forall c: Ctx :: s.pc(c) == TakePending(l) ==> !s.word(l).locked)
    && (forall c: Ctx :: (s.pc(c).Claim? || s.pc(c).SetLocked?) && s.pc(c).l == l ==>
          !s.word(l).locked && (s.pender(l).Some? ==> s.pc(s.pender(l).value).UndoPending?))
  }

  /** Contexts that hold the lock but have not yet passed the queue on are still its head. */
  ghost predicate HeadServed(s: State, l: Lock) {
    s.queue(l) != [] && (s.pc(s.queue(l)[0]).WaitNext? || s.pc(s.queue(l)[0]).PassOn?)
  }

  /** First come, first served: arrivals are those served, in that order, then the waiters. */
  ghost predicate OrderInv(s: State, l: Lock) {
    s.arrivals(l) == s.served(l) + (if HeadServed(s, l) then s.queue(l)[1..] else s.queue(l))
  }

  ghost predicate LockInv(s: State, l: Lock) {
    ChainInv(s, l) && HeadInv(s, l) && OwnerInv(s, l) && PendingInv(s, l) && OrderInv(s, l)
  }

  /** A node taken but not yet published is still as initialised. */
  ghost predicate FreshInv(s: State) {
    forall c: Ctx :: s.pc(c).NodeTryRead? || s.pc(c).NodeTryCas? || s.pc(c).XchgTail? ==>
      s.node(NodeOf(s, c)) == Node(None, false)
  }

  ghost predicate Inv(s: State) {
    NestingInv(s) && FreshInv(s) && forall l: Lock :: LockInv(s, l)
  }

  ghost predicate Init(s: State) {
    && (forall l: Lock :: s.word(l) == FREE && s.owner(l) == None && s.pender(l) == None)
    && (forall l: Lock :: s.queue(l) == [] && s.arrivals(l) == [] && s.served(l) == [])
    && (forall p: int :: s.count(p) == 0 && s.stack(p) == [])
    && (forall c: Ctx :: s.pc(c) == Idle && s.held(c) == {})
  }

  // ------------------------------------------------------- what a step leaves alone

  ghost predicate OnlyPc(s: State, s': State, c: Ctx) {
    forall d: Ctx :: d != c ==> s'.pc(d) == s.pc(d)
  }

  ghost predicate SameNodes(s: State, s': State, l: Lock) {
    forall d: Ctx :: d in s.queue(l) ==> s'.node(NodeOf(s, d)) == s.node(NodeOf(s, d))
  }

  /** The step of `c` neither joins nor leaves nor moves inside the queue of `l`. */
  ghost predicate Outside(s: State, s': State, c: Ctx, l: Lock) {
    && OnlyPc(s, s', c)
    && !QueuedOn(s.pc(c), l) && !QueuedOn(s'.pc(c), l)
    && s'.queue(l) == s.queue(l) && s'.arrivals(l) == s.arrivals(l) && s'.served(l) == s.served(l)
    && SameNodes(s, s', l)
  }

  lemma KeepChain(s: State, s': State, c: Ctx, l: Lock)
    requires ChainInv(s, l) && Outside(s, s', c, l)
    requires s'.word(l).tail == s.word(l).tail
    ensures ChainInv(s', l)
  {
    var q := s.queue(l);
    assert forall d: Ctx :: d in q ==> d != c && NodeOf(s', d) == NodeOf(s, d);
    forall i: nat | 0 < i < |q| ensures Behind(s', q, i) {
      assert Behind(s, q, i);
    }
  }

  lemma KeepHead(s: State, s': State, c: Ctx, l: Lock)
    requires ChainInv(s, l) && HeadInv(s, l) && Outside(s, s', c, l)
    requires s.queue(l) != [] ==> s'.owner(l) == s.owner(l) || !HeadServed(s, l)
    requires s.queue(l) != [] && BoundToQueue(s.pc(c), l) ==> BoundToQueue(s'.pc(c), l)
    ensures HeadInv(s', l)
  {
    var q := s.queue(l);
    assert forall d: Ctx :: d in q ==> d != c && NodeOf(s', d) == NodeOf(s, d);
    if q != [] && exists d: Ctx :: BoundToQueue(s.pc(d), l) {
      var d: Ctx :| BoundToQueue(s.pc(d), l);
      assert BoundToQueue(s'.pc(d), l);
    }
  }

  lemma KeepOrder(s: State, s': State, c: Ctx, l: Lock)
    requires ChainInv(s, l) && OrderInv(s, l) && Outside(s, s', c, l)
    ensures OrderInv(s', l)
  {
    assert s.queue(l) != [] ==> s.queue(l)[0] != c;
  }

  lemma KeepNesting(s: State, s': State, c: Ctx)
    requires NestingInv(s) && OnlyPc(s, s', c)
    requires s'.count == s.count && s'.stack == s.stack
    requires HasNode(s'.pc(c)) == HasNode(s.pc(c)) && Idx(s'.pc(c)) == Idx(s.pc(c))
    ensures NestingInv(s')
  {
    forall p: int ensures NestingOn(s', p) {
      assert NestingOn(s, p);
    }
  }

  predicate Off(p: PC, l: Lock) {
    p == Idle || p.l != l
  }

  /** Nothing about lock `l` changes in a step of `c` on another lock. */
  ghost predicate Elsewhere(s: State, s': State, c: Ctx, l: Lock) {
    && Outside(s, s', c, l)
    && Off(s.pc(c), l) && Off(s'.pc(c), l)
    && s'.word(l) == s.word(l) && s'.owner(l) == s.owner(l) && s'.pender(l) == s.pender(l)
    && forall d: Ctx :: l in s'.held(d) <==> l in s.held(d)
  }

  lemma KeepPending(s: State, s': State, c: Ctx, l: Lock)
    requires PendingInv(s, l) && Elsewhere(s, s', c, l)
    ensures PendingInv(s', l)
  {
  }

  lemma OtherLock(s: State, s': State, c: Ctx, l: Lock)
    requires LockInv(s, l) && Elsewhere(s, s', c, l)
    ensures LockInv(s', l)
  {
    KeepChain(s, s', c, l);
    KeepHead(s, s', c, l);
    KeepOrder(s, s', c, l);
    KeepPending(s, s', c, l);
  }

  /** A step outside the queue that keeps the two ownership invariants keeps all five. */
  lemma OutsideStep(s: State, s': State, c: Ctx, l: Lock)
    requires LockInv(s, l) && Outside(s, s', c, l)
    requires s'.word(l).tail == s.word(l).tail
    requires s.queue(l) != [] ==> s'.owner(l) == s.owner(l) || !HeadServed(s, l)
    requires s.queue(l) != [] && BoundToQueue(s.pc(c), l) ==> BoundToQueue(s'.pc(c), l)
    requires OwnerInv(s', l) && PendingInv(s', l)
    ensures LockInv(s', l)
  {
    KeepChain(s, s', c, l);
    KeepHead(s, s', c, l);
    KeepOrder(s, s', c, l);
  }

  // ------------------------------------------------------------------- proofs

  /** Two contexts never share a queue node. */
  lemma NodesDistinct(s: State, c: Ctx, d: Ctx)
    requires NestingInv(s)
    requires HasNode(s.pc(c)) && HasNode(s.pc(d)) && c != d
    ensures NodeOf(s, c) != NodeOf(s, d)
  {
    assert NestingOn(s, c.cpu);
    assert c == Ctx(c.cpu, c.level) && d == Ctx(d.cpu, d.level);
  }

  lemma InitInv(s: State)
    requires Init(s)
    ensures Inv(s)
  {
  }

  /** The step of `c` is about lock `l` alone. */
  ghost predicate OnlyLock(s: State, s': State, c: Ctx, l: Lock) {
    && OnlyPc(s, s', c)
    && (s.pc(c) == Idle || s.pc(c).l == l) && (s'.pc(c) == Idle || s'.pc(c).l == l)
    && (forall k: Lock :: k != l ==>
         s'.word(k) == s.word(k) && s'.owner(k) == s.owner(k) && s'.pender(k) == s.pender(k))
    && (forall k: Lock :: k != l ==>
         s'.queue(k) == s.queue(k) && s'.arrivals(k) == s.arrivals(k) && s'.served(k) == s.served(k))
    && (forall d: Ctx, k: Lock :: k != l ==> (k in s'.held(d) <==> k in s.held(d)))
  }

  ghost predicate OthersSame(s: State, s': State, l: Lock) {
    forall k: Lock :: k != l ==> SameNodes(s, s', k)
  }

  /** A step on one lock keeps the whole invariant once it keeps that lock's part. */
  lemma OneLock(s: State, s': State, c: Ctx, l: Lock)
    requires Inv(s) && OnlyLock(s, s', c, l)
    requires OthersSame(s, s', l) && NestingInv(s') && FreshInv(s') && LockInv(s', l)
    ensures Inv(s')
  {
    forall k: Lock | k != l ensures LockInv(s', k) {
      assert LockInv(s, k);
      OtherLock(s, s', c, k);
    }
  }

  /** A step that writes no node and takes or gives back none. */
  ghost predicate Plain(s: State, s': State, c: Ctx, l: Lock) {
    && OnlyLock(s, s', c, l)
    && s'.node == s.node && s'.count == s.count && s'.stack == s.stack
    && HasNode(s'.pc(c)) == HasNode(s.pc(c)) && Idx(s'.pc(c)) == Idx(s.pc(c))
    && !s'.pc(c).NodeTryRead?
    && (s'.pc(c).NodeTryCas? || s'.pc(c).XchgTail? ==> s.pc(c).NodeTryRead? || s.pc(c).NodeTryCas?)
  }

  lemma PlainStep(s: State, s': State, c: Ctx, l: Lock)
    requires Inv(s) && Plain(s, s', c, l) && LockInv(s', l)
    ensures Inv(s')
  {
    KeepNesting(s, s', c);
    OneLock(s, s', c, l);
  }

  /** cmpxchg from a free word: nobody owns, is pending, or is queued. */
  lemma CasFreeKeepsLock(s: State, c: Ctx, l: Lock, won: PC, lost: PC)
    requires LockInv(s, l) && s.word(l) == FREE
    requires !QueuedOn(s.pc(c), l) && !PendingState(s.pc(c), l)
    requires won == Idle || won.Release?
    ensures LockInv(CasLocked(s, c, l, FREE, won, lost), l)
  {
    OutsideStep(s, CasLocked(s, c, l, FREE, won, lost), c, l);
  }

  /** A move between two program points that neither owns anything nor is queued. */
  lemma MoveKeepsLock(s: State, c: Ctx, l: Lock, p: PC)
    requires LockInv(s, l)
    requires !QueuedOn(s.pc(c), l) && !PendingState(s.pc(c), l)
    requires !QueuedOn(p, l) && !PendingState(p, l)
    requires s.queue(l) != [] && BoundToQueue(s.pc(c), l) ==> BoundToQueue(p, l)
    ensures LockInv(At(s, c, p), l)
  {
    OutsideStep(s, At(s, c, p), c, l);
  }

  lemma UnlockKeepsLock(s: State, c: Ctx, l: Lock)
    requires LockInv(s, l) && s.pc(c) == Idle && l in s.held(c)
    ensures LockInv(Start(s, c, SpinUnlock(l)), l)
  {
    var s' := Start(s, c, SpinUnlock(l));
    OutsideStep(s, s', c, l);
  }

  lemma StartKeepsLock(s: State, c: Ctx, a: Action)
    requires !a.Run? && s.pc(c) == Idle && LockInv(s, a.l)
    requires a.SpinUnlock? ==> a.l in s.held(c)
    ensures LockInv(Start(s, c, a), a.l)
  {
    if a.SpinUnlock? {
      UnlockKeepsLock(s, c, a.l);
    } else if a.SpinLock? && s.word(a.l) == FREE {
      CasFreeKeepsLock(s, c, a.l, Idle, Idle);
    } else {
      MoveKeepsLock(s, c, a.l, Start(s, c, a).pc(c));
    }
  }

  lemma StartIsPlain(s: State, c: Ctx, a: Action)
    requires !a.Run? && s.pc(c) == Idle
    ensures Plain(s, Start(s, c, a), c, a.l)
  {
  }

  lemma FetchPendingKeepsLock(s: State, c: Ctx, l: Lock)
    requires LockInv(s, l) && s.pc(c) == FetchPending(l)
    ensures LockInv(PendingStep(s, c), l)
  {
    OutsideStep(s, PendingStep(s, c), c, l);
  }

  /** Undoing PENDING, or trading it for the lock, is done by its only owner. */
  lemma DropPendingKeepsLock(s: State, c: Ctx, l: Lock)
    requires LockInv(s, l) && (s.pc(c) == UndoPending(l) || s.pc(c) == TakePending(l))
    ensures s.pender(l) == Some(c)
    ensures LockInv(PendingStep(s, c), l)
  {
    OutsideStep(s, PendingStep(s, c), c, l);
  }

  lemma WaitOwnerKeepsLock(s: State, c: Ctx, l: Lock)
    requires LockInv(s, l) && s.pc(c) == WaitOwner(l)
    ensures LockInv(PendingStep(s, c), l)
  {
    if !s.word(l).locked {
      OutsideStep(s, PendingStep(s, c), c, l);
    }
  }

  lemma PendingStepKeepsLock(s: State, c: Ctx)
    requires s.pc(c) != Idle && !HasNode(s.pc(c)) && !s.pc(c).Queue?
    requires LockInv(s, s.pc(c).l)
    ensures LockInv(PendingStep(s, c), s.pc(c).l)
  {
    var p := s.pc(c);
    if p.FetchPending? {
      FetchPendingKeepsLock(s, c, p.l);
    } else if p.WaitOwner? {
      WaitOwnerKeepsLock(s, c, p.l);
    } else if PendingState(p, p.l) {
      DropPendingKeepsLock(s, c, p.l);
    } else if p.TryCas? && s.word(p.l) == FREE {
      CasFreeKeepsLock(s, c, p.l, Idle, Idle);
    } else {
      MoveKeepsLock(s, c, p.l, PendingStep(s, c).pc(c));
    }
  }

  lemma PendingStepIsPlain(s: State, c: Ctx)
    requires s.pc(c) != Idle && !HasNode(s.pc(c)) && !s.pc(c).Queue?
    ensures Plain(s, PendingStep(s, c), c, s.pc(c).l)
  {
    var p := s.pc(c);
    if p.FetchPending? {
      FetchPendingIsPlain(s, c);
    } else if p.UndoPending? || p.TakePending? {
      DropPendingIsPlain(s, c);
    }
  }

  lemma FetchPendingIsPlain(s: State, c: Ctx)
    requires s.pc(c).FetchPending?
    ensures Plain(s, PendingStep(s, c), c, s.pc(c).l)
  {
  }

  lemma DropPendingIsPlain(s: State, c: Ctx)
    requires s.pc(c).UndoPending? || s.pc(c).TakePending?
    ensures Plain(s, PendingStep(s, c), c, s.pc(c).l)
  {
  }

  // ---- taking a node and joining the queue

  /** A running context without a node is above every context of its CPU that has one. */
  lemma StackBelow(s: State, c: Ctx)
    requires NestingOn(s, c.cpu) && Running(s, c) && !HasNode(s.pc(c))
    ensures forall i: nat :: i < |s.stack(c.cpu)| ==> s.stack(c.cpu)[i] < c.level
  {
    forall i: nat | i < |s.stack(c.cpu)| ensures s.stack(c.cpu)[i] < c.level {
      assert HasNode(s.pc(Ctx(c.cpu, s.stack(c.cpu)[i])));
    }
  }

  lemma PushNode(s: State, s': State, c: Ctx)
    requires NestingOn(s, c.cpu) && OnlyPc(s, s', c) && c.level < MAX_NODES && !HasNode(s.pc(c))
    requires forall i: nat :: i < |s.stack(c.cpu)| ==> s.stack(c.cpu)[i] < c.level
    requires HasNode(s'.pc(c)) && Idx(s'.pc(c)) == s.count(c.cpu)
    requires s'.count(c.cpu) == s.count(c.cpu) + 1 && s'.stack(c.cpu) == s.stack(c.cpu) + [c.level]
    ensures NestingOn(s', c.cpu)
  {
    var p, st, st' := c.cpu, s.stack(c.cpu), s'.stack(c.cpu);
    assert c == Ctx(p, c.level);
    assert forall v: nat :: v != c.level ==> Ctx(p, v) != c;
    forall i: nat | i < |st'| ensures HasNode(s'.pc(Ctx(p, st'[i]))) && Idx(s'.pc(Ctx(p, st'[i]))) == i {
      if i < |st| {
        assert st'[i] == st[i] && HasNode(s.pc(Ctx(p, st[i])));
      }
    }
  }

  lemma TakeNodeKeepsNesting(s: State, c: Ctx)
    requires NestingInv(s) && Running(s, c) && s.pc(c).Queue?
    ensures NestingInv(JoinStep(s, c))
  {
    assert NestingOn(s, c.cpu);
    StackBelow(s, c);
    PushNode(s, JoinStep(s, c), c);
    forall p: int | p != c.cpu ensures NestingOn(JoinStep(s, c), p) {
      assert NestingOn(s, p);
    }
  }

  lemma OutsideJoinKeepsLock(s: State, c: Ctx, l: Lock)
    requires LockInv(s, l) && (s.pc(c) == Queue(l) || s.pc(c).InitNode?) && s.pc(c).l == l
    requires SameNodes(s, JoinStep(s, c), l)
    ensures LockInv(JoinStep(s, c), l)
  {
    OutsideStep(s, JoinStep(s, c), c, l);
  }

  lemma JoinOnlyLock(s: State, c: Ctx)
    requires s.pc(c).Queue? || s.pc(c).InitNode?
    ensures OnlyLock(s, JoinStep(s, c), c, s.pc(c).l)
  {
  }

  lemma TakeNodeKeepsInv(s: State, c: Ctx)
    requires Inv(s) && Running(s, c) && s.pc(c).Queue?
    ensures Inv(JoinStep(s, c))
  {
    var l := s.pc(c).l;
    assert LockInv(s, l);
    TakeNodeKeepsNesting(s, c);
    OutsideJoinKeepsLock(s, c, l);
    JoinOnlyLock(s, c);
    OneLock(s, JoinStep(s, c), c, l);
  }

  /** Writing the node of `c` does not touch the node of another context. */
  lemma NodeWrite(s: State, s': State, c: Ctx)
    requires NestingInv(s) && HasNode(s.pc(c))
    requires forall n: NodeId :: n != NodeOf(s, c) ==> s'.node(n) == s.node(n)
    ensures forall d: Ctx :: d != c && HasNode(s.pc(d)) ==> s'.node(NodeOf(s, d)) == s.node(NodeOf(s, d))
  {
    forall d: Ctx | d != c && HasNode(s.pc(d)) ensures NodeOf(s, d) != NodeOf(s, c) {
      NodesDistinct(s, c, d);
    }
  }

  /** Contexts queued on a lock have nodes of their own. */
  lemma QueuedHaveNodes(s: State, k: Lock)
    requires ChainInv(s, k)
    ensures forall d: Ctx :: d in s.queue(k) ==> HasNode(s.pc(d)) && QueuedOn(s.pc(d), k)
  {
  }

  lemma InitNodeKeepsFresh(s: State, c: Ctx)
    requires NestingInv(s) && FreshInv(s) && s.pc(c).InitNode?
    ensures FreshInv(JoinStep(s, c)) && NestingInv(JoinStep(s, c))
  {
    NodeWrite(s, JoinStep(s, c), c);
    KeepNesting(s, JoinStep(s, c), c);
  }

  lemma InitNodeKeepsInv(s: State, c: Ctx)
    requires Inv(s) && s.pc(c).InitNode?
    ensures Inv(JoinStep(s, c))
  {
    var l, s' := s.pc(c).l, JoinStep(s, c);
    NodeWrite(s, s', c);
    forall k: Lock ensures SameNodes(s, s', k) {
      assert LockInv(s, k);
      QueuedHaveNodes(s, k);
    }
    assert LockInv(s, l);
    InitNodeKeepsFresh(s, c);
    OutsideJoinKeepsLock(s, c, l);
    JoinOnlyLock(s, c);
    OneLock(s, s', c, l);
  }

  lemma TryNodeKeepsLock(s: State, c: Ctx)
    requires (s.pc(c).NodeTryRead? || s.pc(c).NodeTryCas?) && LockInv(s, s.pc(c).l)
    ensures LockInv(JoinStep(s, c), s.pc(c).l)
  {
    var p := s.pc(c);
    if p.NodeTryCas? && s.word(p.l) == FREE {
      CasFreeKeepsLock(s, c, p.l, Release(p.l, p.idx), XchgTail(p.l, p.idx));
    } else {
      MoveKeepsLock(s, c, p.l, JoinStep(s, c).pc(c));
    }
  }

  lemma XchgKeepsChain(s: State, c: Ctx, l: Lock)
    requires LockInv(s, l) && s.pc(c).XchgTail? && s.pc(c).l == l
    requires s.node(NodeOf(s, c)) == Node(None, false)
    ensures ChainInv(JoinStep(s, c), l)
  {
    var s' := JoinStep(s, c);
    var q, q' := s.queue(l), s'.queue(l);
    assert forall d: Ctx :: d in q ==> d != c && NodeOf(s', d) == NodeOf(s, d);
    forall i: nat | 0 < i < |q'| ensures Behind(s', q', i) {
      if i < |q| {
        assert Behind(s, q, i);
      }
    }
  }

  lemma XchgKeepsHead(s: State, c: Ctx, l: Lock)
    requires ChainInv(s, l) && HeadInv(s, l) && s.pc(c).XchgTail? && s.pc(c).l == l
    ensures HeadInv(JoinStep(s, c), l)
  {
    var s' := JoinStep(s, c);
    assert forall d: Ctx :: d in s.queue(l) ==> d != c && NodeOf(s', d) == NodeOf(s, d);
  }

  lemma XchgKeepsOrder(s: State, c: Ctx, l: Lock)
    requires ChainInv(s, l) && OrderInv(s, l) && s.pc(c).XchgTail? && s.pc(c).l == l
    ensures OrderInv(JoinStep(s, c), l)
  {
    var q := s.queue(l);
    if q != [] {
      assert q[0] in q && q[0] != c;
      assert (q + [c])[1..] == q[1..] + [c];
    }
  }

  lemma XchgKeepsLock(s: State, c: Ctx, l: Lock)
    requires LockInv(s, l) && s.pc(c).XchgTail? && s.pc(c).l == l
    requires s.node(NodeOf(s, c)) == Node(None, false)
    ensures LockInv(JoinStep(s, c), l)
  {
    XchgKeepsChain(s, c, l);
    XchgKeepsHead(s, c, l);
    XchgKeepsOrder(s, c, l);
  }

  lemma JoinIsPlain(s: State, c: Ctx)
    requires s.pc(c).NodeTryRead? || s.pc(c).NodeTryCas? || s.pc(c).XchgTail?
    ensures Plain(s, JoinStep(s, c), c, s.pc(c).l)
  {
  }

  lemma XchgKeepsInv(s: State, c: Ctx)
    requires Inv(s) && (s.pc(c).NodeTryRead? || s.pc(c).NodeTryCas? || s.pc(c).XchgTail?)
    ensures Inv(JoinStep(s, c))
  {
    var l := s.pc(c).l;
    assert LockInv(s, l);
    if s.pc(c).XchgTail? {
      XchgKeepsLock(s, c, l);
    } else {
      TryNodeKeepsLock(s, c);
    }
    JoinIsPlain(s, c);
    PlainStep(s, JoinStep(s, c), c, l);
  }

  // ---- inside the queue

  lemma LinkKeepsChain(s: State, c: Ctx, l: Lock)
    requires ChainInv(s, l) && HeadInv(s, l) && s.pc(c).Link? && s.pc(c).l == l
    requires forall d: Ctx, e: Ctx :: d in s.queue(l) && e in s.queue(l) && d != e ==> NodeOf(s, d) != NodeOf(s, e)
    ensures ChainInv(JoinStep(s, c), l)
  {
    var s', q := JoinStep(s, c), s.queue(l);
    var k :| 0 <= k < |q| && q[k] == c;
    assert k > 0 && Behind(s, q, k);
    assert forall d: Ctx :: NodeOf(s', d) == NodeOf(s, d);
    forall i: nat | 0 < i < |q| ensures Behind(s', q, i) {
      assert Behind(s, q, i);
      assert q[i] in q && q[i - 1] in q;
    }
  }

  /** Distinct queued contexts have distinct nodes. */
  lemma QueueNodesDistinct(s: State, l: Lock)
    requires NestingInv(s) && ChainInv(s, l)
    ensures forall d: Ctx, e: Ctx :: d in s.queue(l) && e in s.queue(l) && d != e ==> NodeOf(s, d) != NodeOf(s, e)
  {
    forall d: Ctx, e: Ctx | d in s.queue(l) && e in s.queue(l) && d != e ensures NodeOf(s, d) != NodeOf(s, e) {
      NodesDistinct(s, d, e);
    }
  }

  lemma LinkKeepsLock(s: State, c: Ctx, l: Lock)
    requires LockInv(s, l) && s.pc(c).Link? && s.pc(c).l == l
    requires forall d: Ctx, e: Ctx :: d in s.queue(l) && e in s.queue(l) && d != e ==> NodeOf(s, d) != NodeOf(s, e)
    ensures LockInv(JoinStep(s, c), l)
  {
    var s', q := JoinStep(s, c), s.queue(l);
    LinkKeepsChain(s, c, l);
    assert q[0] in q && q[0] != c;
    assert HeadInv(s', l) by {
      assert s'.node(NodeOf(s, q[0])).locked == s.node(NodeOf(s, q[0])).locked;
      if exists d: Ctx :: BoundToQueue(s.pc(d), l) {
        var d: Ctx :| BoundToQueue(s.pc(d), l);
        assert BoundToQueue(s'.pc(d), l);
      }
    }
  }

  lemma LinkedTo(s: State, c: Ctx, l: Lock) returns (e: Ctx)
    requires ChainInv(s, l) && HeadInv(s, l) && s.pc(c).Link? && s.pc(c).l == l
    ensures e in s.queue(l) && s.pc(c).prev == NodeOf(s, e)
  {
    var q := s.queue(l);
    var k :| 0 <= k < |q| && q[k] == c;
    assert k > 0 && Behind(s, q, k);
    e := q[k - 1];
  }

  /** A write to the node of a context queued on `l` is not seen by the other locks. */
  lemma QueuedNodeWrite(s: State, s': State, c: Ctx, e: Ctx, l: Lock)
    requires Inv(s) && ChainInv(s, l) && e in s.queue(l) && OnlyPc(s, s', c)
    requires QueuedOn(s.pc(c), l) && HasNode(s'.pc(c)) && !s'.pc(c).NodeTryRead?
    requires !s'.pc(c).NodeTryCas? && !s'.pc(c).XchgTail?
    requires forall n: NodeId :: n != NodeOf(s, e) ==> s'.node(n) == s.node(n)
    ensures FreshInv(s') && OthersSame(s, s', l)
  {
    NodeWrite(s, s', e);
    forall k: Lock | k != l ensures SameNodes(s, s', k) {
      assert LockInv(s, k);
      OtherQueueSame(s, s', e, l, k);
    }
  }

  lemma OtherQueueSame(s: State, s': State, e: Ctx, l: Lock, k: Lock)
    requires NestingInv(s) && ChainInv(s, l) && ChainInv(s, k) && k != l && e in s.queue(l)
    requires forall n: NodeId :: n != NodeOf(s, e) ==> s'.node(n) == s.node(n)
    ensures SameNodes(s, s', k)
  {
    forall d: Ctx | d in s.queue(k) ensures s'.node(NodeOf(s, d)) == s.node(NodeOf(s, d)) {
      NodesDistinct(s, d, e);
    }
  }

  lemma LinkOnlyLock(s: State, c: Ctx)
    requires s.pc(c).Link?
    ensures OnlyLock(s, JoinStep(s, c), c, s.pc(c).l)
  {
  }

  lemma LinkKeepsInv(s: State, c: Ctx)
    requires Inv(s) && s.pc(c).Link?
    ensures Inv(JoinStep(s, c))
  {
    var l, s' := s.pc(c).l, JoinStep(s, c);
    LinkKeepsOwn(s, c, l);
    LinkWrites(s, c, l);
    KeepNesting(s, s', c);
    LinkOnlyLock(s, c);
    OneLock(s, s', c, l);
  }

  lemma LinkKeepsOwn(s: State, c: Ctx, l: Lock)
    requires Inv(s) && s.pc(c).Link? && s.pc(c).l == l
    ensures LockInv(JoinStep(s, c), l)
  {
    assert LockInv(s, l);
    QueueNodesDistinct(s, l);
    LinkKeepsLock(s, c, l);
  }

  lemma LinkWrites(s: State, c: Ctx, l: Lock)
    requires Inv(s) && s.pc(c).Link? && s.pc(c).l == l
    ensures FreshInv(JoinStep(s, c)) && OthersSame(s, JoinStep(s, c), l)
  {
    assert LockInv(s, l);
    var e := LinkedTo(s, c, l);
    QueuedNodeWrite(s, JoinStep(s, c), c, e, l);
  }

  /** Past its own spin, a queued context is the head of the queue. */
  lemma IsHead(s: State, c: Ctx, l: Lock)
    requires ChainInv(s, l) && QueuedOn(s.pc(c), l)
    requires !s.pc(c).Link? && (s.pc(c).WaitNode? ==> s.node(NodeOf(s, c)).locked)
    ensures s.queue(l) != [] && s.queue(l)[0] == c
  {
    var q := s.queue(l);
    assert forall i: nat :: 0 < i < |q| && Behind(s, q, i) ==> q[i] != c;
  }

  /** The head moves on inside the queue. */
  lemma HeadMoveKeepsChain(s: State, s': State, c: Ctx, l: Lock)
    requires ChainInv(s, l) && s.queue(l) != [] && s.queue(l)[0] == c
    requires OnlyPc(s, s', c) && QueuedOn(s'.pc(c), l) && Idx(s'.pc(c)) == Idx(s.pc(c))
    requires s'.queue(l) == s.queue(l) && s'.word(l).tail == s.word(l).tail && s'.node == s.node
    ensures ChainInv(s', l)
  {
    var q := s.queue(l);
    assert forall d: Ctx :: d in q ==> NodeOf(s', d) == NodeOf(s, d);
    forall i: nat | 0 < i < |q| ensures Behind(s', q, i) {
      assert Behind(s, q, i);
    }
  }

  /** Spinning on its node. */
  lemma WaitNodeKeepsLock(s: State, c: Ctx, l: Lock)
    requires LockInv(s, l) && s.pc(c).WaitNode? && s.pc(c).l == l
    ensures LockInv(HeadStep(s, c), l)
  {
    var s' := HeadStep(s, c);
    if s'.pc(c) != s.pc(c) {
      IsHead(s, c, l);
      HeadMoveKeepsChain(s, s', c, l);
    }
  }

  /** Reading its successor. */
  lemma ReadNextKeepsLock(s: State, c: Ctx, l: Lock)
    requires LockInv(s, l) && s.pc(c).ReadNext? && s.pc(c).l == l
    ensures LockInv(HeadStep(s, c), l)
  {
    var s', q := HeadStep(s, c), s.queue(l);
    IsHead(s, c, l);
    HeadMoveKeepsChain(s, s', c, l);
    assert |q| >= 2 ==> Behind(s, q, 1);
  }

  /** Waiting for owner and pending to go away. */
  lemma WaitHeadKeepsLock(s: State, c: Ctx, l: Lock)
    requires LockInv(s, l) && s.pc(c).WaitHead? && s.pc(c).l == l
    ensures LockInv(HeadStep(s, c), l)
  {
    var s' := HeadStep(s, c);
    if s'.pc(c) != s.pc(c) {
      IsHead(s, c, l);
      HeadMoveKeepsChain(s, s', c, l);
    }
  }

  /** A failed claim is one that a successor, present or bound to come, made fail. */
  lemma ClaimFails(s: State, c: Ctx, l: Lock)
    requires LockInv(s, l) && s.pc(c).Claim? && s.pc(c).l == l
    requires s.pc(c).val.tail != Some(NodeOf(s, c)) || s.word(l) != s.pc(c).val
    ensures SuccessorComing(s, l)
  {
    IsHead(s, c, l);
    if |s.queue(l)| < 2 {
      assert s.word(l).pending;
      assert BoundToQueue(s.pc(s.pender(l).value), l);
    }
  }

  lemma ClaimLostKeepsLock(s: State, c: Ctx, l: Lock)
    requires LockInv(s, l) && s.pc(c).Claim? && s.pc(c).l == l
    requires s.pc(c).val.tail != Some(NodeOf(s, c)) || s.word(l) != s.pc(c).val
    ensures LockInv(HeadStep(s, c), l)
  {
    var s' := HeadStep(s, c);
    IsHead(s, c, l);
    ClaimFails(s, c, l);
    HeadMoveKeepsChain(s, s', c, l);
    if |s.queue(l)| < 2 {
      var d: Ctx :| BoundToQueue(s.pc(d), l);
      assert BoundToQueue(s'.pc(d), l);
    }
  }

  lemma ClaimWonKeepsLock(s: State, c: Ctx, l: Lock)
    requires LockInv(s, l) && s.pc(c).Claim? && s.pc(c).l == l
    requires s.pc(c).val.tail == Some(NodeOf(s, c)) && s.word(l) == s.pc(c).val
    requires forall d: Ctx, e: Ctx :: d in s.queue(l) && e in s.queue(l) && d != e ==> NodeOf(s, d) != NodeOf(s, e)
    ensures LockInv(HeadStep(s, c), l)
  {
    IsHead(s, c, l);
    assert s.queue(l) == [c];
  }

  lemma SetLockedKeepsOwners(s: State, c: Ctx, l: Lock)
    requires OwnerInv(s, l) && PendingInv(s, l) && s.pc(c).SetLocked? && s.pc(c).l == l
    requires forall d: Ctx :: (s.pc(d).Claim? || s.pc(d).SetLocked?) && s.pc(d).l == l ==> d == c
    ensures OwnerInv(HeadStep(s, c), l) && PendingInv(HeadStep(s, c), l)
  {
  }

  lemma SetLockedKeepsHead(s: State, c: Ctx, l: Lock)
    requires ChainInv(s, l) && HeadInv(s, l) && s.pc(c).SetLocked? && s.pc(c).l == l
    requires s.queue(l) != [] && s.queue(l)[0] == c
    ensures HeadInv(HeadStep(s, c), l)
  {
    if |s.queue(l)| < 2 {
      var d: Ctx :| BoundToQueue(s.pc(d), l);
      assert BoundToQueue(HeadStep(s, c).pc(d), l);
    }
  }

  lemma SetLockedKeepsLock(s: State, c: Ctx, l: Lock)
    requires LockInv(s, l) && s.pc(c).SetLocked? && s.pc(c).l == l
    ensures LockInv(HeadStep(s, c), l)
  {
    IsHead(s, c, l);
    HeadMoveKeepsChain(s, HeadStep(s, c), c, l);
    OneClaims(s, c, l);
    SetLockedKeepsOwners(s, c, l);
    SetLockedKeepsHead(s, c, l);
    SetLockedKeepsOrder(s, c, l);
  }

  lemma OneClaims(s: State, c: Ctx, l: Lock)
    requires ChainInv(s, l) && s.queue(l) != [] && s.queue(l)[0] == c
    ensures forall d: Ctx :: (s.pc(d).Claim? || s.pc(d).SetLocked?) && s.pc(d).l == l ==> d == c
  {
    forall d: Ctx | (s.pc(d).Claim? || s.pc(d).SetLocked?) && s.pc(d).l == l ensures d == c {
      IsHead(s, d, l);
    }
  }

  lemma SetLockedKeepsOrder(s: State, c: Ctx, l: Lock)
    requires OrderInv(s, l) && s.pc(c).SetLocked? && s.pc(c).l == l && s.queue(l) != [] && s.queue(l)[0] == c
    ensures OrderInv(HeadStep(s, c), l)
  {
    var q := s.queue(l);
    assert q == [c] + q[1..];
  }

  lemma WaitNextKeepsLock(s: State, c: Ctx, l: Lock)
    requires LockInv(s, l) && s.pc(c).WaitNext? && s.pc(c).l == l
    ensures LockInv(HeadStep(s, c), l)
  {
    var s', q := HeadStep(s, c), s.queue(l);
    if s'.pc(c) != s.pc(c) {
      IsHead(s, c, l);
      HeadMoveKeepsChain(s, s', c, l);
      assert |q| >= 2 ==> Behind(s, q, 1);
    }
  }

  lemma PassOnKeepsChain(s: State, c: Ctx, l: Lock)
    requires ChainInv(s, l) && HeadInv(s, l) && s.pc(c).PassOn? && s.pc(c).l == l
    requires forall d: Ctx, e: Ctx :: d in s.queue(l) && e in s.queue(l) && d != e ==> NodeOf(s, d) != NodeOf(s, e)
    ensures ChainInv(HeadStep(s, c), l)
  {
    var s', q := HeadStep(s, c), s.queue(l);
    IsHead(s, c, l);
    var q' := q[1..];
    RestOf(q);
    assert forall d: Ctx :: d in q' ==> NodeOf(s', d) == NodeOf(s, d);
    forall i: nat | 0 < i < |q'| ensures Behind(s', q', i) {
      PassOnBehind(s, c, l, i);
    }
  }

  lemma PassOnBehind(s: State, c: Ctx, l: Lock, i: nat)
    requires ChainInv(s, l) && HeadInv(s, l) && s.pc(c).PassOn? && s.pc(c).l == l && 0 < i < |s.queue(l)| - 1
    requires forall d: Ctx, e: Ctx :: d in s.queue(l) && e in s.queue(l) && d != e ==> NodeOf(s, d) != NodeOf(s, e)
    ensures Behind(HeadStep(s, c), s.queue(l)[1..], i)
  {
    var q := s.queue(l);
    IsHead(s, c, l);
    assert Behind(s, q, i + 1);
    assert q[i + 1] in q && q[i] in q && q[1] in q;
  }

  lemma PassOnKeepsLock(s: State, c: Ctx, l: Lock)
    requires LockInv(s, l) && s.pc(c).PassOn? && s.pc(c).l == l
    requires forall d: Ctx, e: Ctx :: d in s.queue(l) && e in s.queue(l) && d != e ==> NodeOf(s, d) != NodeOf(s, e)
    ensures LockInv(HeadStep(s, c), l)
  {
    IsHead(s, c, l);
    PassOnKeepsChain(s, c, l);
  }

  lemma HeadStepKeepsLock(s: State, c: Ctx, l: Lock)
    requires LockInv(s, l) && QueuedOn(s.pc(c), l) && !s.pc(c).Link?
    requires forall d: Ctx, e: Ctx :: d in s.queue(l) && e in s.queue(l) && d != e ==> NodeOf(s, d) != NodeOf(s, e)
    ensures LockInv(HeadStep(s, c), l)
  {
    var p := s.pc(c);
    if p.WaitNode? {
      WaitNodeKeepsLock(s, c, l);
    } else if p.ReadNext? {
      ReadNextKeepsLock(s, c, l);
    } else if p.WaitHead? {
      WaitHeadKeepsLock(s, c, l);
    } else if p.Claim? {
      if p.val.tail == Some(NodeOf(s, c)) && s.word(l) == p.val {
        ClaimWonKeepsLock(s, c, l);
      } else {
        ClaimLostKeepsLock(s, c, l);
      }
    } else if p.SetLocked? {
      SetLockedKeepsLock(s, c, l);
    } else if p.WaitNext? {
      WaitNextKeepsLock(s, c, l);
    } else {
      PassOnKeepsLock(s, c, l);
    }
  }

  lemma HeadIsPlain(s: State, c: Ctx)
    requires QueueState(s.pc(c)) && !s.pc(c).Link? && !s.pc(c).PassOn?
    ensures Plain(s, HeadStep(s, c), c, s.pc(c).l)
  {
    var p := s.pc(c);
    if p.Claim? {
      ClaimIsPlain(s, c);
    } else if !p.SetLocked? {
      WaitIsPlain(s, c);
    }
  }

  lemma WaitIsPlain(s: State, c: Ctx)
    requires s.pc(c).WaitNode? || s.pc(c).ReadNext? || s.pc(c).WaitHead? || s.pc(c).WaitNext?
    ensures Plain(s, HeadStep(s, c), c, s.pc(c).l)
  {
  }

  lemma ClaimIsPlain(s: State, c: Ctx)
    requires s.pc(c).Claim?
    ensures Plain(s, HeadStep(s, c), c, s.pc(c).l)
  {
  }

  lemma PassOnOnlyLock(s: State, c: Ctx)
    requires s.pc(c).PassOn?
    ensures OnlyLock(s, HeadStep(s, c), c, s.pc(c).l)
  {
  }

  lemma PassOnKeepsInv(s: State, c: Ctx)
    requires Inv(s) && s.pc(c).PassOn? && LockInv(HeadStep(s, c), s.pc(c).l)
    ensures Inv(HeadStep(s, c))
  {
    var l, s' := s.pc(c).l, HeadStep(s, c);
    assert LockInv(s, l);
    IsHead(s, c, l);
    QueuedNodeWrite(s, s', c, s.queue(l)[1], l);
    KeepNesting(s, s', c);
    PassOnOnlyLock(s, c);
    OneLock(s, s', c, l);
  }

  lemma HeadStepKeepsInv(s: State, c: Ctx)
    requires Inv(s) && QueueState(s.pc(c)) && !s.pc(c).Link?
    ensures Inv(HeadStep(s, c))
  {
    var l := s.pc(c).l;
    assert LockInv(s, l);
    QueueNodesDistinct(s, l);
    HeadStepKeepsLock(s, c, l);
    if s.pc(c).PassOn? {
      PassOnKeepsInv(s, c);
    } else {
      HeadIsPlain(s, c);
      PlainStep(s, HeadStep(s, c), c, l);
    }
  }

  // ---- giving the node back

  /** The running context's node is the top of its CPU's stack. */
  lemma TopOfStack(s: State, c: Ctx)
    requires NestingOn(s, c.cpu) && Running(s, c) && HasNode(s.pc(c))
    ensures s.count(c.cpu) == Idx(s.pc(c)) + 1
  {
    var st := s.stack(c.cpu);
    assert c == Ctx(c.cpu, c.level);
    assert HasNode(s.pc(Ctx(c.cpu, st[|st| - 1])));
  }

  lemma PopNode(s: State, s': State, c: Ctx)
    requires NestingOn(s, c.cpu) && OnlyPc(s, s', c) && HasNode(s.pc(c)) && !HasNode(s'.pc(c))
    requires s.count(c.cpu) == Idx(s.pc(c)) + 1
    requires s'.count(c.cpu) == s.count(c.cpu) - 1 && s'.stack(c.cpu) == s.stack(c.cpu)[..|s.stack(c.cpu)| - 1]
    ensures NestingOn(s', c.cpu)
  {
    var p, st, st' := c.cpu, s.stack(c.cpu), s'.stack(c.cpu);
    assert c == Ctx(p, c.level);
    forall i: nat | i < |st'| ensures HasNode(s'.pc(Ctx(p, st'[i]))) && Idx(s'.pc(Ctx(p, st'[i]))) == i {
      assert st'[i] == st[i] && HasNode(s.pc(Ctx(p, st[i])));
    }
  }

  lemma ReleaseKeepsNesting(s: State, c: Ctx)
    requires NestingInv(s) && Running(s, c) && s.pc(c).Release?
    ensures NestingInv(HeadStep(s, c))
  {
    assert NestingOn(s, c.cpu);
    TopOfStack(s, c);
    PopNode(s, HeadStep(s, c), c);
    forall p: int | p != c.cpu ensures NestingOn(HeadStep(s, c), p) {
      assert NestingOn(s, p);
    }
  }

  lemma ReleaseKeepsLock(s: State, c: Ctx, l: Lock)
    requires LockInv(s, l) && s.pc(c).Release? && s.pc(c).l == l
    ensures LockInv(HeadStep(s, c), l) && OnlyLock(s, HeadStep(s, c), c, l)
  {
    OutsideStep(s, HeadStep(s, c), c, l);
  }

  lemma ReleaseKeepsInv(s: State, c: Ctx)
    requires Inv(s) && Running(s, c) && s.pc(c).Release?
    ensures Inv(HeadStep(s, c))
  {
    var l := s.pc(c).l;
    assert LockInv(s, l);
    ReleaseKeepsNesting(s, c);
    ReleaseKeepsLock(s, c, l);
    OneLock(s, HeadStep(s, c), c, l);
  }

  // ------------------------------------------------------------ the main results

  /** Every step of every context keeps the invariant. */
  lemma StepKeepsInv(s: State, c: Ctx, a: Action)
    requires Inv(s) && Enabled(s, c, a)
    ensures Inv(Step(s, c, a))
  {
    var p := s.pc(c);
    if !a.Run? {
      assert LockInv(s, a.l);
      StartKeepsLock(s, c, a);
      StartIsPlain(s, c, a);
      PlainStep(s, Step(s, c, a), c, a.l);
    } else if p.Queue? {
      TakeNodeKeepsInv(s, c);
    } else if p.InitNode? {
      InitNodeKeepsInv(s, c);
    } else if p.NodeTryRead? || p.NodeTryCas? || p.XchgTail? {
      XchgKeepsInv(s, c);
    } else if p.Link? {
      LinkKeepsInv(s, c);
    } else if p.Release? {
      ReleaseKeepsInv(s, c);
    } else if HasNode(p) {
      HeadStepKeepsInv(s, c);
    } else if p != Idle {
      assert LockInv(s, p.l);
      PendingStepKeepsLock(s, c);
      PendingStepIsPlain(s, c);
      PlainStep(s, Step(s, c, a), c, p.l);
    }
  }

  datatype Event = Event(c: Ctx, a: Action)

  /** `es` is an interleaving of enabled steps from `s`. */
  ghost predicate IsRun(s: State, es: seq<Event>)
    decreases |es|
  {
    es == [] || (Enabled(s, es[0].c, es[0].a) && IsRun(Step(s, es[0].c, es[0].a), es[1..]))
  }

  function After(s: State, es: seq<Event>): State
    decreases |es|
  {
    if es == [] then s else After(Step(s, es[0].c, es[0].a), es[1..])
  }

  lemma {:induction false} RunKeepsInv(s: State, es: seq<Event>)
    requires Inv(s) && IsRun(s, es)
    ensures Inv(After(s, es))
    decreases |es|
  {
    if es != [] {
      StepKeepsInv(s, es[0].c, es[0].a);
      RunKeepsInv(Step(s, es[0].c, es[0].a), es[1..]);
    }
  }

  /**
   In every run, at most one context owns a lock, and one does exactly if its bit is set; at most
   one owns its pending bit, and a context about to undo PENDING is the one that set it.
   */
  lemma MutualExclusion(s: State, es: seq<Event>, l: Lock, c: Ctx, d: Ctx)
    requires Init(s) && IsRun(s, es)
    ensures l in After(s, es).held(c) && l in After(s, es).held(d) ==> c == d
    ensures PendingState(After(s, es).pc(c), l) && PendingState(After(s, es).pc(d), l) ==> c == d
    ensures After(s, es).pc(c) == UndoPending(l) ==> After(s, es).pender(l) == Some(c)
    ensures After(s, es).word(l).locked <==> exists e: Ctx :: l in After(s, es).held(e)
  {
    InitInv(s);
    RunKeepsInv(s, es);
    var t := After(s, es);
    assert LockInv(t, l);
    if t.owner(l).Some? { assert l in t.held(t.owner(l).value); }
  }

  /**
   In every run, the contexts that went through the queue got the lock in exactly the
   order of their `xchg_tail` steps; those not served yet are the waiters, in order.
   */
  lemma FirstComeFirstServed(s: State, es: seq<Event>, l: Lock)
    requires Init(s) && IsRun(s, es)
    ensures var t := After(s, es);
      && t.served(l) <= t.arrivals(l)
      && NoDup(t.queue(l))
      && t.arrivals(l)[|t.served(l)|..] == (if HeadServed(t, l) then t.queue(l)[1..] else t.queue(l))
      && t.word(l).tail == (if t.queue(l) == [] then None else Some(NodeOf(t, t.queue(l)[|t.queue(l)| - 1])))
  {
    InitInv(s);
    RunKeepsInv(s, es);
    assert LockInv(After(s, es), l);
  }

  /** A queue head claims only when nobody owns the lock and no pending owner waits for it. */
  lemma HeadAndPendingExclude(s: State, es: seq<Event>, l: Lock, h: Ctx, d: Ctx)
    requires Init(s) && IsRun(s, es)
    requires var p := After(s, es).pc(h); (p.Claim? || p.SetLocked?) && p.l == l
    ensures var t := After(s, es);
      && l !in t.held(d)
      && t.pc(d) != WaitOwner(l) && t.pc(d) != TakePending(l)
      && (d != h ==> !((t.pc(d).Claim? || t.pc(d).SetLocked?) && t.pc(d).l == l))
  {
    InitInv(s);
    RunKeepsInv(s, es);
    var t := After(s, es);
    assert LockInv(t, l);
    IsHead(t, h, l);
    if (t.pc(d).Claim? || t.pc(d).SetLocked?) && t.pc(d).l == l {
      IsHead(t, d, l);
    }
  }

  lemma {:induction false} StackHeight(s: State, p: int, i: nat)
    requires NestingOn(s, p) && i < |s.stack(p)|
    ensures s.stack(p)[i] >= i
  {
    if i > 0 {
      StackHeight(s, p, i - 1);
    }
  }

  /** A context at nesting level v uses one of the first v + 1 nodes of its CPU, never past the
      fourth, and never another's. */
  lemma NodeInBounds(s: State, es: seq<Event>, c: Ctx, d: Ctx)
    requires Init(s) && IsRun(s, es) && HasNode(After(s, es).pc(c))
    ensures Idx(After(s, es).pc(c)) <= c.level < MAX_NODES
    ensures c != d && HasNode(After(s, es).pc(d)) ==> NodeOf(After(s, es), c) != NodeOf(After(s, es), d)
  {
    InitInv(s);
    RunKeepsInv(s, es);
    var t := After(s, es);
    assert NestingOn(t, c.cpu) && c == Ctx(c.cpu, c.level);
    StackHeight(t, c.cpu, Idx(t.pc(c)));
    if c != d && HasNode(t.pc(d)) {
      NodesDistinct(t, c, d);
    }
  }

  // --------------------------------------------------- the head finds its successor

  /** How many steps of its own a context is away from having joined the queue. */
  function ToQueue(p: PC): nat {
    if p.UndoPending? then 6 else if p.Queue? then 5 else if p.InitNode? then 4 else if p.NodeTryRead? then 3
    else if p.NodeTryCas? then 2 else if p.XchgTail? then 1 else 0
  }

  function StepsOf(es: seq<Event>, c: Ctx): nat
    decreases |es|
  {
    if es == [] then 0 else (if es[0].c == c then 1 else 0) + StepsOf(es[1..], c)
  }

  ghost predicate HeadWaits(s: State, h: Ctx, l: Lock) {
    Inv(s) && s.pc(h).WaitNext? && s.pc(h).l == l
  }

  lemma WaitingHead(s: State, h: Ctx, l: Lock)
    requires HeadWaits(s, h, l)
    ensures LockInv(s, l) && s.queue(l) != [] && s.queue(l)[0] == h && s.word(l).locked
  {
    assert LockInv(s, l);
    IsHead(s, h, l);
  }

  /** While the head waits, every step of a context bound to queue brings it nearer. */
  lemma BoundMoves(s: State, d: Ctx, h: Ctx, l: Lock)
    requires HeadWaits(s, h, l) && BoundToQueue(s.pc(d), l)
    ensures var s' := Step(s, d, Run);
      || (BoundToQueue(s'.pc(d), l) && ToQueue(s'.pc(d)) < ToQueue(s.pc(d)))
      || (s.pc(d).XchgTail? && s'.queue(l) == s.queue(l) + [d])
  {
    WaitingHead(s, h, l);
  }

  /** The head stays the head, and nobody leaves the queue, until it takes a step itself. */
  lemma OthersKeepQueue(s: State, c: Ctx, a: Action, h: Ctx, l: Lock)
    requires HeadWaits(s, h, l) && c != h && Enabled(s, c, a)
    ensures HeadWaits(Step(s, c, a), h, l) && s.queue(l) <= Step(s, c, a).queue(l)
    ensures OnlyPc(s, Step(s, c, a), c)
  {
    StepKeepsInv(s, c, a);
    WaitingHead(s, h, l);
    if LeavesQueue(s.pc(c), l) { IsHead(s, c, l); }
    QueueGrows(s, c, a, l);
  }

  predicate LeavesQueue(p: PC, l: Lock) { (p.Claim? || p.PassOn?) && p.l == l }

  lemma QueueGrows(s: State, c: Ctx, a: Action, l: Lock)
    requires !a.Run? || !LeavesQueue(s.pc(c), l)
    ensures s.queue(l) <= Step(s, c, a).queue(l) && OnlyPc(s, Step(s, c, a), c)
  {
  }

  lemma {:induction false} RunKeepsQueue(s: State, es: seq<Event>, h: Ctx, l: Lock)
    requires HeadWaits(s, h, l) && IsRun(s, es) && StepsOf(es, h) == 0
    ensures HeadWaits(After(s, es), h, l) && s.queue(l) <= After(s, es).queue(l)
    decreases |es|
  {
    if es != [] {
      var s' := Step(s, es[0].c, es[0].a);
      OthersKeepQueue(s, es[0].c, es[0].a, h, l);
      RunKeepsQueue(s', es[1..], h, l);
    }
  }

  lemma {:induction false} BoundGetsQueued(s: State, es: seq<Event>, d: Ctx, h: Ctx, l: Lock)
    requires HeadWaits(s, h, l) && IsRun(s, es) && StepsOf(es, h) == 0
    requires BoundToQueue(s.pc(d), l) && ToQueue(s.pc(d)) <= StepsOf(es, d)
    ensures |After(s, es).queue(l)| >= 2
    decreases |es|
  {
    var c, a, rest := es[0].c, es[0].a, es[1..];
    var s' := Step(s, c, a);
    WaitingHead(s, h, l);
    OthersKeepQueue(s, c, a, h, l);
    if c == d { BoundMoves(s, d, h, l); }
    if BoundToQueue(s'.pc(d), l) {
      BoundGetsQueued(s', rest, d, h, l);
    } else {
      RunKeepsQueue(s', rest, h, l);
    }
  }

  /** Once a second context is queued, at most its next step is needed for the head to move on. */
  lemma SecondLetsGo(s: State, h: Ctx, l: Lock)
    requires HeadWaits(s, h, l) && |s.queue(l)| >= 2
    ensures var d := s.queue(l)[1];
      Step(if s.pc(d).Link? then Step(s, d, Run) else s, h, Run).pc(h).PassOn?
  {
    WaitingHead(s, h, l);
    assert Behind(s, s.queue(l), 1);
    var d := s.queue(l)[1];
    assert d in s.queue(l) && h in s.queue(l) && d != h;
  }

  /**
   The head always finds its successor.  While it waits for one, a second context is queued or
   some context is bound to queue.  However the run goes on, a bound context has queued after at
   most six steps of its own; and once a second one is queued, its next step lets the head go on.
   */
  lemma HeadFindsSuccessor(s: State, es: seq<Event>, more: seq<Event>, l: Lock, h: Ctx)
    requires Init(s) && IsRun(s, es) && After(s, es).pc(h).WaitNext? && After(s, es).pc(h).l == l
    requires IsRun(After(s, es), more) && StepsOf(more, h) == 0
    ensures var t, u := After(s, es), After(After(s, es), more);
      && (|t.queue(l)| >= 2 || exists d: Ctx :: BoundToQueue(t.pc(d), l))
      && (forall d: Ctx :: BoundToQueue(t.pc(d), l) && StepsOf(more, d) >= 6 ==> |u.queue(l)| >= 2)
      && (|t.queue(l)| >= 2 ==> |u.queue(l)| >= 2)
      && (|u.queue(l)| >= 2 ==>
            var d := u.queue(l)[1]; Step(if u.pc(d).Link? then Step(u, d, Run) else u, h, Run).pc(h).PassOn?)
  {
    InitInv(s);
    RunKeepsInv(s, es);
    var t, u := After(s, es), After(After(s, es), more);
    WaitingHead(t, h, l);
    RunKeepsQueue(t, more, h, l);
    forall d: Ctx | BoundToQueue(t.pc(d), l) && StepsOf(more, d) >= 6
      ensures |u.queue(l)| >= 2
    {
      BoundGetsQueued(t, more, d, h, l);
    }
    if |u.queue(l)| >= 2 { SecondLetsGo(u, h, l); }
  }
}
