/**
 The rendezvous of message passing (kernel/core/ipc.c) as a step machine: one endpoint, its
 owner, and any number of senders.  What happens under one lock is one step, and so is every
 store to or load from a message node outside a lock; the copy of a message is one store or
 load.  Nodes are kmalloc'ed: a freed one may be allocated again for any later message.  A
 waiting sender may look at its flag at any time, so waking it is no step of its own.  The time
 limit on waiting for an owner is not modelled.
 */
module Ipc {
  import opened Wrappers
  import opened Lists

  /** A message: its contents, and the IPC_M_TYPE_NOTIFIER bit of its type. */
  datatype Mess = Mess(value: int, notify: bool)

  /** EP_STATE_NONE, EP_STATE_RUNNING, EP_STATE_WAITTING */
  datatype EpState = NONE | RUNNING | WAITING

  /** Where the owner is, in __ipc_receive or __ipc_reply. */
  datatype Owner =
    | Free
    | CheckList
    | WaitSender
    | TakeFirst
    | CountUp(msg: int)
    | Unlink(answer: Mess)
    | Finish(msg: int, answer: Mess)
    | Copy(msg: int, answer: Mess)
    | CountDown

  /** A sender allocates and fills a node for its message, known by a number, and puts it on the
      list; then it waits for it to be finished, copies the node out, and frees it. */
  datatype Sender =
    | Ready
    | Filled(msg: int)
    | Waiting(msg: int)
    | Finished(msg: int)
    | Returned(msg: int, answer: Mess)

  /**
   `holder`, `content` and `finished` are the nodes by their address: the message that a node was
   allocated for, None while it is free, and its fields.  `node` is the address of each message's
   node, and `body` what it was sent with, as its sender still has it.  The fields after these
   record: the messages so far, and what the owner was about to copy into the node of each when it
   was filled; the messages in the order they were enqueued, received and replied to, and what was
   received and answered; and the messages whose senders were stranded, as their node was freed
   under them.  `damaged` ends a run: a sender has freed a node that is not its own.
   */
  datatype State = State(
    ep: EpState,
    list: seq<int>,
    reqCount: int,
    owner: Owner,
    sender: int -> Sender,
    holder: int -> Option<int>,
    content: int -> Mess,
    finished: int -> bool,
    node: int -> int,
    body: int -> Mess,
    used: set<int>,
    hit: int -> Option<Mess>,
    enqueued: seq<int>,
    received: seq<int>,
    replied: seq<int>,
    answered: seq<Mess>,
    got: seq<Mess>,
    lost: set<int>,
    damaged: bool)

  datatype Event =
    | Register
    | Fill(t: int, msg: int, addr: int, mess: Mess)
    | Post(t: int)
    | Return(t: int)
    | Receive
    | Reply(answer: Mess)
    | Run

  predicate InSend(p: Sender) { p.Waiting? || p.Finished? }

  predicate Enabled(s: State, e: Event) {
    !s.damaged &&
    match e
    case Register => s.ep == NONE
    case Fill(t, msg, addr, _) =>
      s.ep != NONE && (s.sender(t).Ready? || s.sender(t).Returned?) && msg !in s.used && s.holder(addr) == None
    case Post(t) => s.sender(t).Filled?
    case Return(t) => InSend(s.sender(t))
    case Receive => s.ep != NONE && s.owner == Free
    case Reply(_) => s.ep != NONE && s.owner == Free
    case Run => s.owner != Free
  }

  // -------------------------------------------------------------------------- steps

  /** What the owner has still to copy into that node for a message other than m. */
  function Hitting(s: State, addr: int, m: int): Option<Mess> {
    if s.owner.Copy? && s.owner.msg != m && s.node(s.owner.msg) == addr then Some(s.owner.answer) else None
  }

  /** The beginning of __ipc_send: a node that is free is allocated and filled. */
  function FillStep(s: State, e: Event): State
    requires e.Fill?
  {
    s.(holder := Set(s.holder, e.addr, Some(e.msg)), content := Set(s.content, e.addr, e.mess),
       finished := Set(s.finished, e.addr, false), used := s.used + {e.msg},
       node := Set(s.node, e.msg, e.addr), body := Set(s.body, e.msg, e.mess),
       hit := Set(s.hit, e.msg, Hitting(s, e.addr, e.msg)), sender := Set(s.sender, e.t, Filled(e.msg)))
  }

  /** Append, and wake a waiting owner; the sender of a notification does not wait. */
  function PostStep(s: State, t: int): State
    requires s.sender(t).Filled?
  {
    var m := s.sender(t).msg;
    s.(list := s.list + [m], enqueued := s.enqueued + [m], ep := if s.ep == WAITING then RUNNING else s.ep,
       sender := Set(s.sender, t, if s.body(m).notify then Ready else Waiting(m)))
  }

  /** The end of __ipc_send: once the flag is set, the node is copied out and freed. */
  function ReturnStep(s: State, t: int): State
    requires InSend(s.sender(t))
  {
    var m := s.sender(t).msg;
    var a := s.node(m);
    if s.sender(t).Finished? then
      s.(sender := Set(s.sender, t, Returned(m, s.content(a))), holder := Set(s.holder, a, None),
         damaged := s.holder(a) != Some(m))
    else if s.finished(a) then s.(sender := Set(s.sender, t, Finished(m)))
    else s
  }

  /** The reply looks at the type in the node to tell a notification, which it frees. */
  function UnlinkStep(s: State, a: Mess): State
    requires s.list != []
  {
    var m := s.list[0];
    var s1 := s.(list := s.list[1..], replied := s.replied + [m], answered := s.answered + [a]);
    if s.content(s.node(m)).notify then
      s1.(holder := Set(s.holder, s.node(m), None), lost := if s.body(m).notify then s.lost else s.lost + {m},
          owner := CountDown)
    else s1.(owner := Finish(m, a))
  }

  function OwnerStep(s: State): State
    requires s.owner != Free
  {
    match s.owner
    case CheckList => if s.list == [] then s.(ep := WAITING, owner := WaitSender) else s.(owner := TakeFirst)
    case WaitSender => if s.ep == RUNNING then s.(owner := TakeFirst) else s
    case TakeFirst =>
      if s.list == [] then s
      else s.(owner := CountUp(s.list[0]), received := s.received + [s.list[0]],
              got := s.got + [s.content(s.node(s.list[0]))])
    case CountUp(_) => s.(reqCount := s.reqCount + 1, owner := Free)
    case Unlink(a) => if s.list == [] then s else UnlinkStep(s, a)
    case Finish(m, a) => s.(finished := Set(s.finished, s.node(m), true), owner := Copy(m, a))
    case Copy(m, a) => s.(content := Set(s.content, s.node(m), a), owner := CountDown)
    case CountDown => s.(reqCount := s.reqCount - 1, owner := Free)
  }

  /** A second receive without a reply is refused (-EBUSY), as is a reply without a receive
      (-EINVAL); both leave everything as it is. */
  function Step(s: State, e: Event): State
    requires Enabled(s, e)
  {
    match e
    case Register => s.(ep := RUNNING)
    case Fill(_, _, _, _) => FillStep(s, e)
    case Post(t) => PostStep(s, t)
    case Return(t) => ReturnStep(s, t)
    case Receive => if s.reqCount != 0 then s else s.(owner := CheckList)
    case Reply(a) => if s.reqCount == 0 then s else s.(owner := Unlink(a))
    case Run => OwnerStep(s)
  }

  ghost predicate Init(s: State) {
    && s.ep == NONE && s.list == [] && s.reqCount == 0 && s.owner == Free && (forall t: int :: s.sender(t) == Ready)
    && (forall a: int :: s.holder(a) == None) && s.used == {} && s.lost == {} && !s.damaged
    && s.enqueued == [] && s.received == [] && s.replied == [] && s.answered == [] && s.got == []
  }

  ghost predicate IsRun(s: State, es: seq<Event>)
    decreases |es|
  {
    es == [] || (Enabled(s, es[0]) && IsRun(Step(s, es[0]), es[1..]))
  }

  ghost function After(s: State, es: seq<Event>): State
    requires IsRun(s, es)
    decreases |es|
  {
    if es == [] then s else After(Step(s, es[0]), es[1..])
  }

  // --------------------------------------------------------- invariants of the lists

  /** The list holds what was enqueued and not yet replied to, in order. */
  ghost predicate ListOk(s: State) {
    && s.enqueued == s.replied + s.list && NoDup(s.enqueued) && |s.answered| == |s.replied|
    && forall m :: m in s.enqueued ==> m in s.used
  }

  /** The first message has been received and not yet replied to. */
  ghost predicate Open(s: State) {
    s.list != [] && s.received == s.replied + [s.list[0]]
  }

  ghost predicate LastReply(s: State, m: int, a: Mess) {
    && s.replied != [] && |s.answered| == |s.replied|
    && s.replied[|s.replied| - 1] == m && s.answered[|s.replied| - 1] == a
  }

  /** Message m was removed by a reply called with a. */
  ghost predicate AnsweredWith(s: State, m: int, a: Mess) {
    exists i :: 0 <= i < |s.replied| && |s.replied| == |s.answered| && s.replied[i] == m && s.answered[i] == a
  }

  /** The owner's progress against the request count and what has been received. */
  ghost predicate OwnerOk(s: State) {
    match s.owner
    case Free => (s.reqCount == 0 && s.received == s.replied) || (s.reqCount == 1 && Open(s))
    case CheckList => s.reqCount == 0 && s.received == s.replied
    case WaitSender => s.reqCount == 0 && s.received == s.replied && (s.ep == RUNNING ==> s.list != [])
    case TakeFirst => s.reqCount == 0 && s.received == s.replied && s.list != []
    case CountUp(m) => s.reqCount == 0 && Open(s) && m == s.list[0]
    case Unlink(_) => s.reqCount == 1 && Open(s)
    case Finish(m, a) => s.reqCount == 1 && s.received == s.replied && LastReply(s, m, a)
    case Copy(m, a) => s.reqCount == 1 && s.received == s.replied && LastReply(s, m, a)
    case CountDown => s.reqCount == 1 && s.received == s.replied
  }

  /** The endpoint is marked waiting only while its owner waits on an empty list. */
  ghost predicate WaitingOk(s: State) {
    && (s.ep == WAITING ==> s.owner == WaitSender && s.list == [])
    && (s.ep == NONE ==> s.owner == Free && s.used == {})
  }

  ghost predicate ReceivedOk(s: State) {
    |s.received| <= |s.enqueued| && forall i :: 0 <= i < |s.received| ==> s.received[i] == s.enqueued[i]
  }

  /** What a node holds when its message is received: what was sent, or what was then copied over it. */
  function Base(s: State, m: int): Mess {
    if s.hit(m).Some? then s.hit(m).value else s.body(m)
  }

  ghost predicate GotOk(s: State) {
    |s.got| == |s.received| && forall i :: 0 <= i < |s.got| ==> s.got[i] == Base(s, s.received[i])
  }

  /** A sender is stranded exactly if its message came to look like a notification. */
  ghost predicate LostOk(s: State) {
    && (forall m :: m in s.lost <==> m in s.replied && !s.body(m).notify && Base(s, m).notify)
    && (s.damaged ==> s.lost != {})
  }

  /** What a sender returned that was not stranded. */
  ghost predicate ReturnedOk(s: State, t: int) {
    var p := s.sender(t);
    p.Returned? ==>
      p.msg in s.replied && (p.msg !in s.lost ==> p.answer == Base(s, p.msg) || AnsweredWith(s, p.msg, p.answer))
  }

  ghost predicate OrderOk(s: State) {
    ListOk(s) && OwnerOk(s) && WaitingOk(s) && ReceivedOk(s)
  }

  ghost predicate ListsInv(s: State) {
    OrderOk(s) && GotOk(s) && LostOk(s) && forall t :: ReturnedOk(s, t)
  }

  // --------------------------------------------------------- invariants of the nodes

  ghost predicate Owns(s: State, m: int) { s.holder(s.node(m)) == Some(m) }

  ghost predicate HolderOk(s: State, a: int) {
    s.holder(a).Some? ==> s.holder(a).value in s.used && s.node(s.holder(a).value) == a
  }

  predicate AboutToFinish(s: State, m: int) { s.owner.Finish? && s.owner.msg == m }

  predicate AboutToCopy(s: State, m: int) { s.owner.Copy? && s.owner.msg == m }

  /** What the node of m holds until m is answered. */
  function Landed(s: State, m: int): Mess {
    if Hitting(s, s.node(m), m).Some? then s.body(m) else Base(s, m)
  }

  /** The node of a message that is not yet replied to. */
  ghost predicate OpenNode(s: State, m: int) {
    m !in s.replied ==> Owns(s, m) && !s.finished(s.node(m)) && s.content(s.node(m)) == Landed(s, m)
  }

  /** The node of a message being replied to: the flag is set first, then the answer is copied. */
  ghost predicate ReplyNode(s: State, m: int) {
    && (AboutToFinish(s, m) ==> Owns(s, m) && !s.finished(s.node(m)) && s.content(s.node(m)) == Base(s, m))
    && (m in s.replied && !AboutToFinish(s, m) && Owns(s, m) && !s.body(m).notify ==>
          && s.finished(s.node(m))
          && (AboutToCopy(s, m) ==> s.content(s.node(m)) == Base(s, m))
          && (!AboutToCopy(s, m) ==> AnsweredWith(s, m, s.content(s.node(m)))))
  }

  /** If the owner is about to copy into the node of m for another message, that is the hit of m. */
  ghost predicate HitNode(s: State, m: int) {
    Owns(s, m) && Hitting(s, s.node(m), m).Some? ==> m !in s.replied && s.hit(m) == Hitting(s, s.node(m), m)
  }

  /** A reply frees exactly the nodes that then look like notifications; nobody frees a
      notification that no longer looks like one. */
  ghost predicate FreedNode(s: State, m: int) {
    m in s.replied ==>
      (Base(s, m).notify ==> !Owns(s, m)) && (s.body(m).notify && !Base(s, m).notify ==> Owns(s, m))
  }

  ghost predicate NodeOk(s: State, m: int) {
    m in s.used ==> OpenNode(s, m) && ReplyNode(s, m) && HitNode(s, m) && FreedNode(s, m)
  }

  ghost predicate SenderOk(s: State, t: int) {
    var p := s.sender(t);
    && (p.Filled? ==> p.msg in s.used && p.msg !in s.enqueued)
    && (InSend(p) ==> p.msg in s.enqueued && !s.body(p.msg).notify && (p.msg !in s.lost ==> Owns(s, p.msg)))
    && (p.Finished? && p.msg !in s.lost ==> p.msg in s.replied && !AboutToFinish(s, p.msg))
  }

  predicate HasMsg(p: Sender) { p.Filled? || InSend(p) }

  ghost predicate SendersApart(s: State, t: int, u: int) {
    t != u && HasMsg(s.sender(t)) && HasMsg(s.sender(u)) ==> s.sender(t).msg != s.sender(u).msg
  }

  ghost predicate NodesInv(s: State) {
    && (forall a :: HolderOk(s, a)) && (forall m :: NodeOk(s, m))
    && (forall t :: SenderOk(s, t)) && (forall t, u :: SendersApart(s, t, u))
  }

  ghost predicate Inv(s: State) {
    ListsInv(s) && (!s.damaged ==> NodesInv(s))
  }

  lemma InitInv(s: State)
    requires Init(s)
    ensures Inv(s)
  {
  }

  // -------------------------------------------------------------------------- frames

  /** Events so far are not taken back. */
  ghost predicate Later(s: State, s2: State) {
    && s.enqueued <= s2.enqueued && s.replied <= s2.replied && s.answered <= s2.answered && s.used <= s2.used
    && |s2.answered| == |s2.replied|
    && forall m :: m in s.used ==> s2.node(m) == s.node(m) && s2.body(m) == s.body(m) && s2.hit(m) == s.hit(m)
  }

  lemma AnsweredStays(s: State, s2: State, m: int, a: Mess)
    requires AnsweredWith(s, m, a) && s.replied <= s2.replied && s.answered <= s2.answered
    requires |s2.answered| == |s2.replied|
    ensures AnsweredWith(s2, m, a)
  {
    var i :| 0 <= i < |s.replied| && s.replied[i] == m && s.answered[i] == a;
    assert s2.replied[i] == m && s2.answered[i] == a;
  }

  /** Nothing about message m has changed. */
  ghost predicate SameNode(s: State, s2: State, m: int) {
    && (m in s2.replied <==> m in s.replied) && (Owns(s2, m) <==> Owns(s, m))
    && (Owns(s, m) ==> s2.content(s.node(m)) == s.content(s.node(m)) && s2.finished(s.node(m)) == s.finished(s.node(m)))
    && AboutToFinish(s2, m) == AboutToFinish(s, m) && AboutToCopy(s2, m) == AboutToCopy(s, m)
    && Hitting(s2, s.node(m), m) == Hitting(s, s.node(m), m)
  }

  lemma NodeKept(s: State, s2: State, m: int)
    requires NodeOk(s, m) && m in s.used && Later(s, s2) && SameNode(s, s2, m)
    ensures NodeOk(s2, m)
  {
    if AnsweredWith(s, m, s.content(s.node(m))) { AnsweredStays(s, s2, m, s.content(s.node(m))); }
  }

  lemma NodesKept(s: State, s2: State)
    requires (forall m :: NodeOk(s, m)) && Later(s, s2) && s2.used == s.used
    requires forall m :: m in s.used ==> SameNode(s, s2, m)
    ensures forall m :: NodeOk(s2, m)
  {
    forall m | m in s.used
      ensures NodeOk(s2, m)
    {
      assert NodeOk(s, m) && SameNode(s, s2, m);
      NodeKept(s, s2, m);
    }
  }

  /** A message is on the list or replied to, not both. */
  lemma Apart(s: State)
    requires ListOk(s)
    ensures forall m :: m in s.enqueued <==> m in s.list || m in s.replied
    ensures forall m :: m in s.list ==> m !in s.replied
  {
    assert forall i :: 0 <= i < |s.list| ==> s.enqueued[|s.replied| + i] == s.list[i];
    assert forall i :: 0 <= i < |s.replied| ==> s.enqueued[i] == s.replied[i];
  }

  lemma RepliedOnce(s: State)
    requires ListOk(s)
    ensures forall i, j :: 0 <= i < |s.replied| && 0 <= j < |s.replied| && s.replied[i] == s.replied[j] ==> i == j
  {
    assert forall i :: 0 <= i < |s.replied| ==> s.enqueued[i] == s.replied[i];
  }

  /** What a sender returned stays right. */
  lemma ReturnedKept(s: State, s2: State, t: int)
    requires ReturnedOk(s, t) && s2.sender(t) == s.sender(t) && ListOk(s) && Later(s, s2)
    requires forall m :: m in s.replied ==> (m in s2.lost <==> m in s.lost)
    ensures ReturnedOk(s2, t)
  {
    var p := s.sender(t);
    Apart(s);
    if p.Returned? && AnsweredWith(s, p.msg, p.answer) { AnsweredStays(s, s2, p.msg, p.answer); }
  }

  lemma AllReturnedKept(s: State, s2: State, t: int)
    requires (forall u :: ReturnedOk(s, u)) && ReturnedOk(s2, t) && (forall u :: u != t ==> s2.sender(u) == s.sender(u))
    requires ListOk(s) && Later(s, s2) && forall m :: m in s.replied ==> (m in s2.lost <==> m in s.lost)
    ensures forall u :: ReturnedOk(s2, u)
  {
    forall u
      ensures ReturnedOk(s2, u)
    {
      if u != t { ReturnedKept(s, s2, u); }
    }
  }

  /** A sender that has not moved, and whose node is still its own. */
  lemma SenderKept(s: State, s2: State, t: int)
    requires SenderOk(s, t) && s2.sender(t) == s.sender(t) && ListOk(s) && Later(s, s2)
    requires var p := s.sender(t);
      && (p.Filled? ==> p.msg !in s2.enqueued)
      && (InSend(p) && p.msg !in s2.lost ==> p.msg !in s.lost && (Owns(s, p.msg) ==> Owns(s2, p.msg)))
      && (p.Finished? && p.msg in s.replied && !AboutToFinish(s, p.msg) ==> !AboutToFinish(s2, p.msg))
    ensures SenderOk(s2, t)
  {
  }

  lemma AllReturnedSame(s: State, s2: State)
    requires (forall u :: ReturnedOk(s, u)) && (forall u :: s2.sender(u) == s.sender(u))
    requires ListOk(s) && Later(s, s2) && forall m :: m in s.replied ==> (m in s2.lost <==> m in s.lost)
    ensures forall u :: ReturnedOk(s2, u)
  {
    assert ReturnedOk(s, 0);
    ReturnedKept(s, s2, 0);
    AllReturnedKept(s, s2, 0);
  }

  /** What is recorded of earlier messages stays. */
  lemma HistoryKept(s: State, s2: State)
    requires ListOk(s) && ReceivedOk(s) && GotOk(s) && LostOk(s) && Later(s, s2)
    requires s2.received == s.received && s2.got == s.got && s2.replied == s.replied && s2.lost == s.lost
    requires s2.damaged ==> s2.lost != {}
    ensures GotOk(s2) && LostOk(s2)
  {
    Apart(s);
    assert forall i :: 0 <= i < |s.received| ==> s.received[i] in s.enqueued;
    assert forall m :: m in s.used ==> Base(s2, m) == Base(s, m);
  }

  // ------------------------------------------------------------------- filling a node

  lemma FillKeepsLists(s: State, e: Event)
    requires Inv(s) && Enabled(s, e) && e.Fill?
    ensures ListsInv(FillStep(s, e)) && Later(s, FillStep(s, e))
  {
    var s2 := FillStep(s, e);
    HistoryKept(s, s2);
    AllReturnedKept(s, s2, e.t);
  }

  lemma OwnerMessageUsed(s: State)
    requires ListOk(s) && OwnerOk(s) && (s.owner.Finish? || s.owner.Copy?)
    ensures s.owner.msg in s.replied && s.owner.msg in s.used
  {
    Apart(s);
    assert s.replied[|s.replied| - 1] == s.owner.msg;
  }

  lemma FillKeepsNode(s: State, e: Event, m: int)
    requires Inv(s) && Enabled(s, e) && e.Fill? && Later(s, FillStep(s, e))
    ensures NodeOk(FillStep(s, e), m)
  {
    var s2 := FillStep(s, e);
    Apart(s);
    assert NodeOk(s, m);
    if s.owner.Copy? || s.owner.Finish? { OwnerMessageUsed(s); }
    if m != e.msg && m in s.used { NodeKept(s, s2, m); }
  }

  lemma FillKeepsSender(s: State, e: Event, u: int)
    requires Inv(s) && Enabled(s, e) && e.Fill? && Later(s, FillStep(s, e)) && u != e.t
    ensures SenderOk(FillStep(s, e), u) && SendersApart(FillStep(s, e), u, e.t)
  {
    var s2 := FillStep(s, e);
    assert SenderOk(s, u);
    SenderKept(s, s2, u);
  }

  lemma FillKeeps(s: State, e: Event)
    requires Inv(s) && Enabled(s, e) && e.Fill?
    ensures Inv(FillStep(s, e))
  {
    var s2 := FillStep(s, e);
    FillKeepsLists(s, e);
    forall m { FillKeepsNode(s, e, m); }
    forall u | u != e.t { FillKeepsSender(s, e, u); }
    assert e.msg !in s.enqueued && SenderOk(s2, e.t);
    forall a
      ensures HolderOk(s2, a)
    {
      assert HolderOk(s, a);
    }
    forall t, u
      ensures SendersApart(s2, t, u)
    {
      assert SendersApart(s, t, u);
      if t == e.t && u != t { assert SendersApart(s2, u, t); }
    }
  }

  // ---------------------------------------------------------------- putting it on the list

  lemma PostKeepsOrder(s: State, t: int)
    requires OrderOk(s) && s.sender(t).Filled? && s.sender(t).msg in s.used && s.sender(t).msg !in s.enqueued
    ensures OrderOk(PostStep(s, t)) && Later(s, PostStep(s, t))
  {
    var s2 := PostStep(s, t);
    assert s2.enqueued == s2.replied + s2.list;
    assert forall i :: 0 <= i < |s.enqueued| ==> s.enqueued[i] in s.enqueued;
  }

  lemma PostKeepsLists(s: State, t: int)
    requires Inv(s) && Enabled(s, Post(t))
    ensures ListsInv(PostStep(s, t)) && Later(s, PostStep(s, t))
  {
    var s2 := PostStep(s, t);
    assert SenderOk(s, t);
    PostKeepsOrder(s, t);
    HistoryKept(s, s2);
    AllReturnedKept(s, s2, t);
  }

  lemma PostKeeps(s: State, t: int)
    requires Inv(s) && Enabled(s, Post(t))
    ensures Inv(PostStep(s, t))
  {
    var s2, m := PostStep(s, t), s.sender(t).msg;
    PostKeepsLists(s, t);
    NodesKept(s, s2);
    assert SenderOk(s, t) && NodeOk(s, m);
    Apart(s);
    forall u
      ensures SenderOk(s2, u)
    {
      assert SenderOk(s, u) && SendersApart(s, t, u);
      if u == t {
        assert s2.enqueued[|s.enqueued|] == m;
      } else {
        SenderKept(s, s2, u);
      }
    }
    forall a
      ensures HolderOk(s2, a)
    {
      assert HolderOk(s, a);
    }
    forall u, v
      ensures SendersApart(s2, u, v)
    {
      assert SendersApart(s, u, v);
    }
  }

  // -------------------------------------------------------------------- the sender returns

  /** A sender that was not stranded returns what its node held or the answer. */
  lemma ReturnsOwn(s: State, t: int)
    requires ListOk(s) && SenderOk(s, t) && s.sender(t).Finished? && NodeOk(s, s.sender(t).msg)
    requires LostOk(s) && s.sender(t).msg in s.replied
    ensures ReturnedOk(ReturnStep(s, t), t)
  {
    var s2, m := ReturnStep(s, t), s.sender(t).msg;
    var x := s.content(s.node(m));
    Apart(s);
    if AnsweredWith(s, m, x) { AnsweredStays(s, s2, m, x); }
  }

  lemma ReturnKeepsLists(s: State, t: int)
    requires ListsInv(s) && Enabled(s, Return(t)) && SenderOk(s, t) && NodeOk(s, s.sender(t).msg)
    requires Owns(s, s.sender(t).msg) <==> s.sender(t).msg !in s.lost
    ensures ListsInv(ReturnStep(s, t)) && Later(s, ReturnStep(s, t))
  {
    var s2 := ReturnStep(s, t);
    HistoryKept(s, s2);
    if s.sender(t).Finished? { ReturnsOwn(s, t); }
    AllReturnedKept(s, s2, t);
  }

  lemma ReturnKeepsNode(s: State, t: int, m: int)
    requires Inv(s) && Enabled(s, Return(t)) && !ReturnStep(s, t).damaged && Later(s, ReturnStep(s, t)) && m in s.used
    ensures NodeOk(ReturnStep(s, t), m)
  {
    var s2, m0 := ReturnStep(s, t), s.sender(t).msg;
    FreesOwn(s, t);
    assert SenderOk(s, t) && NodeOk(s, m) && NodeOk(s, m0);
    if m != m0 || !s.sender(t).Finished? {
      NodeKept(s, s2, m);
    }
  }

  lemma ReturnKeepsSender(s: State, t: int, u: int)
    requires Inv(s) && Enabled(s, Return(t)) && !ReturnStep(s, t).damaged && Later(s, ReturnStep(s, t))
    ensures SenderOk(ReturnStep(s, t), u)
  {
    var s2, m := ReturnStep(s, t), s.sender(t).msg;
    Apart(s);
    assert SenderOk(s, t) && SenderOk(s, u) && SendersApart(s, t, u) && NodeOk(s, m);
    if u != t { SenderKept(s, s2, u); }
  }

  lemma ReturnKeeps(s: State, t: int)
    requires Inv(s) && Enabled(s, Return(t))
    ensures Inv(ReturnStep(s, t))
  {
    var s2 := ReturnStep(s, t);
    FreesOwn(s, t);
    assert SenderOk(s, t) && NodeOk(s, s.sender(t).msg);
    ReturnKeepsLists(s, t);
    if !s2.damaged {
      forall m | m in s.used { ReturnKeepsNode(s, t, m); }
      forall u { ReturnKeepsSender(s, t, u); }
      forall a
        ensures HolderOk(s2, a)
      {
        assert HolderOk(s, a);
      }
      forall u, v
        ensures SendersApart(s2, u, v)
      {
        assert SendersApart(s, u, v);
      }
    }
  }

  // ------------------------------------------------------------------------- the owner

  /** While the owner is not about to copy, the first node holds what it will be received with. */
  lemma FirstNode(s: State)
    requires Inv(s) && !s.damaged && s.list != [] && !s.owner.Copy?
    ensures var m := s.list[0];
      && m in s.used && m in s.enqueued && m !in s.replied && Owns(s, m)
      && !s.finished(s.node(m)) && s.content(s.node(m)) == Base(s, m)
  {
    Apart(s);
    assert NodeOk(s, s.list[0]);
  }

  lemma UnlinkKeepsOrder(s: State, a: Mess)
    requires OrderOk(s) && s.owner == Unlink(a)
    ensures OrderOk(UnlinkStep(s, a)) && Later(s, UnlinkStep(s, a))
  {
    var s2 := UnlinkStep(s, a);
    assert s.list == [s.list[0]] + s.list[1..];
    assert s2.enqueued == s2.replied + s2.list;
  }

  lemma UnlinkReplies(s: State, a: Mess)
    requires s.list != []
    ensures forall k :: k in UnlinkStep(s, a).replied <==> k in s.replied || k == s.list[0]
  {
    var s2 := UnlinkStep(s, a);
    assert s2.replied[|s.replied|] == s.list[0];
    assert forall i :: 0 <= i < |s.replied| ==> s2.replied[i] == s.replied[i];
  }

  lemma UnlinkKeepsLists(s: State, a: Mess)
    requires Inv(s) && !s.damaged && s.owner == Unlink(a)
    ensures ListsInv(UnlinkStep(s, a)) && Later(s, UnlinkStep(s, a))
  {
    var s2 := UnlinkStep(s, a);
    FirstNode(s);
    UnlinkKeepsOrder(s, a);
    UnlinkReplies(s, a);
    assert forall k :: Base(s2, k) == Base(s, k);
    AllReturnedSame(s, s2);
  }

  lemma OwnerKeepsOrder(s: State)
    requires OrderOk(s) && s.owner != Free && !s.owner.Unlink?
    ensures OrderOk(OwnerStep(s)) && Later(s, OwnerStep(s))
  {
    if s.owner.TakeFirst? { assert s.enqueued[|s.replied|] == s.list[0]; }
  }

  lemma TakeKeepsLists(s: State)
    requires Inv(s) && !s.damaged && s.owner.TakeFirst?
    ensures ListsInv(OwnerStep(s)) && Later(s, OwnerStep(s))
  {
    var s2 := OwnerStep(s);
    FirstNode(s);
    OwnerKeepsOrder(s);
    assert forall k :: Base(s2, k) == Base(s, k);
    AllReturnedSame(s, s2);
  }

  lemma OwnerKeepsLists(s: State)
    requires Inv(s) && Enabled(s, Run)
    ensures ListsInv(OwnerStep(s)) && Later(s, OwnerStep(s))
  {
    if s.owner.Unlink? {
      UnlinkKeepsLists(s, s.owner.answer);
    } else if s.owner.TakeFirst? {
      TakeKeepsLists(s);
    } else {
      OwnerKeepsOrder(s);
      HistoryKept(s, OwnerStep(s));
      AllReturnedSame(s, OwnerStep(s));
    }
  }

  lemma UnlinkKeepsNode(s: State, m: int)
    requires Inv(s) && Enabled(s, Run) && s.owner.Unlink? && m in s.used && Later(s, OwnerStep(s))
    ensures NodeOk(OwnerStep(s), m)
  {
    var s2 := OwnerStep(s);
    FirstNode(s);
    assert NodeOk(s, m);
    if m == s.list[0] {
      assert s2.replied[|s.replied|] == m;
    } else {
      NodeKept(s, s2, m);
    }
  }

  lemma FinishKeepsNode(s: State, m: int)
    requires Inv(s) && Enabled(s, Run) && s.owner.Finish? && m in s.used && Later(s, OwnerStep(s))
    ensures NodeOk(OwnerStep(s), m)
  {
    var s2 := OwnerStep(s);
    OwnerMessageUsed(s);
    assert NodeOk(s, m) && NodeOk(s, s.owner.msg);
    if m != s.owner.msg && s.node(m) != s.node(s.owner.msg) { NodeKept(s, s2, m); }
  }

  /** The answer is copied into the node, whosever it has become. */
  lemma CopyKeepsNode(s: State, m: int)
    requires Inv(s) && Enabled(s, Run) && s.owner.Copy? && m in s.used && Later(s, OwnerStep(s))
    ensures NodeOk(OwnerStep(s), m)
  {
    var s2 := OwnerStep(s);
    OwnerMessageUsed(s);
    assert NodeOk(s, m) && NodeOk(s, s.owner.msg);
    if m == s.owner.msg {
      assert AnsweredWith(s2, m, s.owner.answer) by { assert s2.replied[|s.replied| - 1] == m; }
    } else if s.node(m) != s.node(s.owner.msg) {
      NodeKept(s, s2, m);
    }
  }

  lemma OwnerKeepsNodes(s: State)
    requires Inv(s) && Enabled(s, Run) && Later(s, OwnerStep(s))
    requires s.owner.Unlink? || s.owner.Finish? || s.owner.Copy?
    ensures forall m :: NodeOk(OwnerStep(s), m)
  {
    if s.owner.Unlink? {
      forall m | m in s.used { UnlinkKeepsNode(s, m); }
    } else if s.owner.Finish? {
      forall m | m in s.used { FinishKeepsNode(s, m); }
    } else {
      forall m | m in s.used { CopyKeepsNode(s, m); }
    }
  }

  lemma OwnerKeepsSender(s: State, t: int)
    requires Inv(s) && Enabled(s, Run) && Later(s, OwnerStep(s))
    requires s.owner.Unlink? || s.owner.Finish? || s.owner.Copy?
    ensures SenderOk(OwnerStep(s), t)
  {
    var s2 := OwnerStep(s);
    assert SenderOk(s, t);
    if s.owner.Unlink? {
      FirstNode(s);
      Apart(s);
    }
    SenderKept(s, s2, t);
  }

  /** A step that changes neither a node nor a sender, nor where the owner is in a reply. */
  lemma QuietKeeps(s: State, s2: State)
    requires NodesInv(s) && Later(s, s2) && ListOk(s) && !OfReply(s.owner) && !OfReply(s2.owner)
    requires s2.sender == s.sender && s2.holder == s.holder && s2.content == s.content && s2.finished == s.finished
    requires s2.used == s.used && s2.node == s.node && s2.enqueued == s.enqueued && s2.replied == s.replied
    requires s2.lost == s.lost
    ensures NodesInv(s2)
  {
    NodesKept(s, s2);
    forall t
      ensures SenderOk(s2, t)
    {
      assert SenderOk(s, t);
      SenderKept(s, s2, t);
    }
    forall a
      ensures HolderOk(s2, a)
    {
      assert HolderOk(s, a);
    }
    forall u, v
      ensures SendersApart(s2, u, v)
    {
      assert SendersApart(s, u, v);
    }
  }

  predicate OfReply(p: Owner) { p.Finish? || p.Copy? }

  lemma OwnerKeeps(s: State)
    requires Inv(s) && Enabled(s, Run)
    ensures Inv(OwnerStep(s))
  {
    var s2 := OwnerStep(s);
    OwnerKeepsLists(s);
    if s.owner.Unlink? || OfReply(s.owner) { ReplyKeeps(s); } else { QuietKeeps(s, s2); }
  }

  lemma ReplyKeeps(s: State)
    requires Inv(s) && Enabled(s, Run) && (s.owner.Unlink? || OfReply(s.owner)) && Later(s, OwnerStep(s))
    ensures NodesInv(OwnerStep(s))
  {
    var s2 := OwnerStep(s);
    OwnerKeepsNodes(s);
    forall t { OwnerKeepsSender(s, t); }
    forall a
      ensures HolderOk(s2, a)
    {
      assert HolderOk(s, a);
    }
    forall u, v
      ensures SendersApart(s2, u, v)
    {
      assert SendersApart(s, u, v);
    }
  }

  // -------------------------------------------------------------------------- all steps

  lemma CallKeeps(s: State, e: Event)
    requires Inv(s) && Enabled(s, e) && (e.Register? || e.Receive? || e.Reply?)
    ensures Inv(Step(s, e))
  {
    var s2 := Step(s, e);
    HistoryKept(s, s2);
    AllReturnedSame(s, s2);
    QuietKeeps(s, s2);
  }

  lemma StepKeepsInv(s: State, e: Event)
    requires Inv(s) && Enabled(s, e)
    ensures Inv(Step(s, e))
  {
    match e
    case Fill(_, _, _, _) => FillKeeps(s, e);
    case Post(t) => PostKeeps(s, t);
    case Return(t) => ReturnKeeps(s, t);
    case Run => OwnerKeeps(s);
    case _ => CallKeeps(s, e);
  }

  lemma {:induction false} RunKeepsInv(s: State, es: seq<Event>)
    requires Inv(s) && IsRun(s, es)
    ensures Inv(After(s, es))
    decreases |es|
  {
    if es != [] {
      StepKeepsInv(s, es[0]);
      RunKeepsInv(Step(s, es[0]), es[1..]);
    }
  }

  // ------------------------------------------------------------------------ all runs

  /** Messages are received and then removed by a reply, each once and in the order they were
      enqueued; never more than one is open.  What is received is what was sent exactly if no
      other answer was still to be copied into the node when it was filled, or an equal one. */
  lemma OnceInOrder(s0: State, es: seq<Event>)
    requires Init(s0) && IsRun(s0, es)
    ensures var s := After(s0, es);
      && NoDup(s.enqueued) && s.enqueued == s.replied + s.list
      && s.replied <= s.received <= s.enqueued && |s.received| <= |s.replied| + 1
      && (s.reqCount == 0 || s.reqCount == 1) && |s.got| == |s.received|
      && forall i :: 0 <= i < |s.got| ==>
           var m := s.received[i];
           && (s.got[i] == s.body(m) <==> s.hit(m) == None || s.hit(m) == Some(s.body(m)))
           && (s.hit(m).Some? ==> s.got[i] == s.hit(m).value)
  {
    InitInv(s0);
    RunKeepsInv(s0, es);
    var s := After(s0, es);
    assert s.received == s.enqueued[..|s.received|];
  }

  /** A reply removes the message that was received last, however many have arrived since. */
  lemma ReplyRemovesReceived(s0: State, es: seq<Event>)
    requires Init(s0) && IsRun(s0, es) && After(s0, es).owner.Unlink?
    ensures var s := After(s0, es);
      && s.received != [] && s.list != [] && s.received[|s.received| - 1] == s.list[0]
      && OwnerStep(s).replied == s.received
  {
    InitInv(s0);
    RunKeepsInv(s0, es);
  }

  /** A receiver that leaves its wait finds a message. */
  lemma WakeFindsMessage(s0: State, es: seq<Event>)
    requires Init(s0) && IsRun(s0, es)
    ensures var s := After(s0, es);
      && (s.owner.TakeFirst? ==> s.list != [])
      && (s.owner.WaitSender? ==> (s.ep == RUNNING <==> s.list != []))
  {
    InitInv(s0);
    RunKeepsInv(s0, es);
  }

  /** A sender returns only after its message has been removed by a reply, once; unless it was
      stranded, it returns the answer of that reply or what its message was received with. */
  lemma SenderReturnsAfterReply(s0: State, es: seq<Event>, t: int)
    requires Init(s0) && IsRun(s0, es) && After(s0, es).sender(t).Returned?
    ensures var s := After(s0, es);
      var r := s.sender(t);
      && |s.answered| == |s.replied| && r.msg in s.replied
      && forall i :: 0 <= i < |s.replied| && s.replied[i] == r.msg && r.msg !in s.lost ==>
           r.answer == s.answered[i] || r.answer == Base(s, r.msg)
  {
    InitInv(s0);
    RunKeepsInv(s0, es);
    var s := After(s0, es);
    assert ReturnedOk(s, t);
    RepliedOnce(s);
  }

  /** In every run, a sender that copies its own node out gets the answer of the reply that removed
      its message exactly if the owner is not about to copy that answer in, or if the answer is
      what the message was received with. */
  lemma AnswerReturnedExactly(s0: State, es: seq<Event>, t: int)
    requires Init(s0) && IsRun(s0, es) && Enabled(After(s0, es), Return(t))
    requires var s := After(s0, es); s.sender(t).Finished? && s.sender(t).msg !in s.lost
    ensures var s := After(s0, es);
      var m, r := s.sender(t).msg, ReturnStep(s, t).sender(t);
      && r.Returned? && r.msg == m && m in s.replied && |s.answered| == |s.replied|
      && forall i :: 0 <= i < |s.replied| && s.replied[i] == m ==>
           (r.answer == s.answered[i] <==>
              !(s.owner.Copy? && s.owner.msg == m)
              || s.answered[i] == if s.hit(m).Some? then s.hit(m).value else s.body(m))
  {
    InitInv(s0);
    RunKeepsInv(s0, es);
    var s := After(s0, es);
    var m := s.sender(t).msg;
    assert SenderOk(s, t) && NodeOk(s, m);
    RepliedOnce(s);
  }

  /** In every run, the senders stranded are exactly those that wait for a message whose node was
      overwritten with the notifier bit and that was then replied to: the reply freed the node and
      finished nothing.  A notification is freed by its reply exactly if it was not overwritten
      without the bit. */
  lemma StrandedExactly(s0: State, es: seq<Event>, m: int)
    requires Init(s0) && IsRun(s0, es)
    ensures var s := After(s0, es);
      var unmarked, marked := s.hit(m).Some? && !s.hit(m).value.notify, s.hit(m).Some? && s.hit(m).value.notify;
      && (m in s.lost <==> m in s.replied && !s.body(m).notify && marked)
      && (!s.damaged && m in s.replied && s.body(m).notify ==> (s.holder(s.node(m)) == Some(m) <==> unmarked))
  {
    InitInv(s0);
    RunKeepsInv(s0, es);
    var s := After(s0, es);
    Apart(s);
    assert !s.damaged ==> NodeOk(s, m);
  }

  /** In every run, a sender that returns frees its own node exactly if it is not stranded. */
  lemma FreesOwnNode(s0: State, es: seq<Event>, t: int)
    requires Init(s0) && IsRun(s0, es) && Enabled(After(s0, es), Return(t)) && After(s0, es).sender(t).Finished?
    ensures var s := After(s0, es);
      var m := s.sender(t).msg;
      (s.holder(s.node(m)) == Some(m) <==> m !in s.lost) && (ReturnStep(s, t).damaged <==> m in s.lost)
  {
    InitInv(s0);
    RunKeepsInv(s0, es);
    FreesOwn(After(s0, es), t);
  }

  lemma FreesOwn(s: State, t: int)
    requires Inv(s) && Enabled(s, Return(t))
    ensures Owns(s, s.sender(t).msg) <==> s.sender(t).msg !in s.lost
  {
    Apart(s);
    assert SenderOk(s, t) && NodeOk(s, s.sender(t).msg);
  }

  /** A sender waits for an unfinished message whose node is free. */
  ghost predicate OnFreeNode(s: State, t: int, m: int, a: int) {
    s.sender(t) == Waiting(m) && m in s.used && s.node(m) == a && s.holder(a) == None && !s.finished(a)
  }

  lemma Strands(s: State, t: int)
    requires Inv(s) && Enabled(s, Run) && InSend(s.sender(t))
    requires s.sender(t).msg !in s.lost && s.sender(t).msg in OwnerStep(s).lost
    ensures var m := s.sender(t).msg; OnFreeNode(OwnerStep(s), t, m, s.node(m))
  {
    assert SenderOk(s, t);
    FirstNode(s);
  }

  /** A free node is finished by nobody. */
  lemma FinishesAnother(s: State, a: int)
    requires Inv(s) && !s.damaged && s.owner.Finish? && s.holder(a) == None
    ensures s.node(s.owner.msg) != a
  {
    OwnerMessageUsed(s);
    assert NodeOk(s, s.owner.msg);
  }

  lemma StrandedStep(s: State, e: Event, t: int, m: int, a: int)
    requires Enabled(s, e) && OnFreeNode(s, t, m, a) && (e.Fill? ==> e.addr != a)
    requires s.owner.Finish? ==> s.node(s.owner.msg) != a
    ensures OnFreeNode(Step(s, e), t, m, a)
  {
  }

  lemma {:induction false} StrandedRun(s: State, es: seq<Event>, t: int, m: int, a: int)
    requires Inv(s) && IsRun(s, es) && OnFreeNode(s, t, m, a)
    requires forall i :: 0 <= i < |es| && es[i].Fill? ==> es[i].addr != a
    ensures OnFreeNode(After(s, es), t, m, a)
    decreases |es|
  {
    if es != [] {
      StepKeepsInv(s, es[0]);
      if s.owner.Finish? { FinishesAnother(s, a); }
      StrandedStep(s, es[0], t, m, a);
      assert forall i :: 0 <= i < |es[1..]| ==> es[1..][i] == es[i + 1];
      StrandedRun(Step(s, es[0]), es[1..], t, m, a);
    }
  }

  /** From the step that strands a sender on, it waits as long as no message is given its node. */
  lemma StrandedWaits(s0: State, es: seq<Event>, t: int, more: seq<Event>)
    requires Init(s0) && IsRun(s0, es) && Enabled(After(s0, es), Run) && InSend(After(s0, es).sender(t))
    requires var s := After(s0, es); s.sender(t).msg !in s.lost && s.sender(t).msg in OwnerStep(s).lost
    requires IsRun(OwnerStep(After(s0, es)), more)
    requires var s := After(s0, es);
      forall i :: 0 <= i < |more| && more[i].Fill? ==> more[i].addr != s.node(s.sender(t).msg)
    ensures After(OwnerStep(After(s0, es)), more).sender(t) == Waiting(After(s0, es).sender(t).msg)
  {
    InitInv(s0);
    RunKeepsInv(s0, es);
    var s := After(s0, es);
    Strands(s, t);
    StepKeepsInv(s, Run);
    StrandedRun(OwnerStep(s), more, t, s.sender(t).msg, s.node(s.sender(t).msg));
  }

  ghost predicate Unmarked(s: State) {
    && (forall m :: m in s.used && s.hit(m).Some? ==> !s.hit(m).value.notify)
    && (s.owner.Unlink? || OfReply(s.owner) ==> !s.owner.answer.notify)
  }

  /** If no reply is called with a message that has the notifier bit, no sender is ever stranded. */
  lemma NoneStranded(s0: State, es: seq<Event>)
    requires Init(s0) && IsRun(s0, es)
    requires forall i :: 0 <= i < |es| && es[i].Reply? ==> !es[i].answer.notify
    ensures After(s0, es).lost == {} && !After(s0, es).damaged
  {
    InitInv(s0);
    RunKeepsInv(s0, es);
    RunKeepsUnmarked(s0, es);
    var s := After(s0, es);
    Apart(s);
    HasElement(s.lost);
    assert forall m :: m in s.lost ==> m in s.used && Base(s, m).notify;
  }

  lemma {:induction false} RunKeepsUnmarked(s: State, es: seq<Event>)
    requires Unmarked(s) && IsRun(s, es) && forall i :: 0 <= i < |es| && es[i].Reply? ==> !es[i].answer.notify
    ensures Unmarked(After(s, es))
    decreases |es|
  {
    if es != [] {
      assert Unmarked(Step(s, es[0]));
      assert forall i :: 0 <= i < |es[1..]| ==> es[1..][i] == es[i + 1];
      RunKeepsUnmarked(Step(s, es[0]), es[1..]);
    }
  }

  // ---------------------------------------------------------------------- single runs

  /** One more step at the end of a run. */
  lemma Then(s0: State, es: seq<Event>, e: Event) returns (more: seq<Event>)
    requires IsRun(s0, es) && Enabled(After(s0, es), e)
    ensures more == es + [e] && IsRun(s0, more) && After(s0, more) == Step(After(s0, es), e)
  {
    more := es + [e];
    RunThen(s0, es, e);
  }

  lemma {:induction false} RunThen(s0: State, es: seq<Event>, e: Event)
    requires IsRun(s0, es) && Enabled(After(s0, es), e)
    ensures IsRun(s0, es + [e]) && After(s0, es + [e]) == Step(After(s0, es), e)
    decreases |es|
  {
    if es == [] {
      assert (es + [e])[1..] == [];
    } else {
      assert (es + [e])[1..] == es[1..] + [e];
      RunThen(Step(s0, es[0]), es[1..], e);
    }
  }

  /** The owner, with a message on the list, receives it, calls a reply and unlinks it. */
  lemma Served(s0: State, es: seq<Event>, a: Mess) returns (more: seq<Event>)
    requires IsRun(s0, es)
    requires var s := After(s0, es); !s.damaged && s.ep == RUNNING && s.owner == Free && s.reqCount == 0 && s.list != []
    ensures IsRun(s0, more)
    ensures var s := After(s0, es);
      After(s0, more) == UnlinkStep(s.(owner := Unlink(a), reqCount := 1, received := s.received + [s.list[0]],
                                       got := s.got + [s.content(s.node(s.list[0]))]), a)
  {
    more := es;
    more := Then(s0, more, Receive);
    more := Then(s0, more, Run);
    more := Then(s0, more, Run);
    more := Then(s0, more, Run);
    more := Then(s0, more, Reply(a));
    more := Then(s0, more, Run);
  }

  /** Sender 0 has returned from message 1, in node 0, with what it sent, and the owner has still
      to copy the answer. */
  ghost predicate ReturnedEarly(s: State, x: Mess, a: Mess) {
    && s.ep == RUNNING && s.owner == Copy(1, a) && s.reqCount == 1 && s.list == [] && s.used == {1} && s.enqueued == [1]
    && s.received == [1] && s.replied == [1] && s.answered == [a] && s.got == [x] && s.node(1) == 0
    && s.sender(0) == Returned(1, x) && s.sender(1) == Ready && s.sender(2) == Ready
    && s.holder(0) == None && s.lost == {} && !s.damaged
  }

  /** The flag is set before the answer is copied, so any request can come back as its own answer:
      the sender returns what it sent, whatever the reply was called with, and frees the node while
      the owner has still to write to it. */
  lemma RequestReturned(s0: State, x: Mess, a: Mess) returns (es: seq<Event>)
    requires Init(s0) && !x.notify
    ensures IsRun(s0, es) && ReturnedEarly(After(s0, es), x, a)
  {
    es := [];
    es := Then(s0, es, Register);
    es := Then(s0, es, Fill(0, 1, 0, x));
    es := Then(s0, es, Post(0));
    es := Served(s0, es, a);
    es := Then(s0, es, Run);
    es := Then(s0, es, Return(0));
    es := Then(s0, es, Return(0));
  }

  /** Message 2 is given node 0 and then overwritten with the answer to message 1. */
  ghost predicate FilledAgain(s: State, x: Mess, y: Mess, a: Mess) {
    && s.ep == RUNNING && s.owner == Free && s.reqCount == 0 && s.list == [2] && s.used == {1, 2}
    && s.replied == [1] && s.answered == [a] && s.got == [x] && s.node(2) == 0 && s.body(2) == y
    && s.content(0) == a && !s.finished(0) && s.sender(1) == Waiting(2) && s.sender(2) == Ready
    && s.holder(0) == Some(2) && s.lost == {} && !s.damaged
  }

  lemma FillAgain(s0: State, x: Mess, y: Mess, a: Mess) returns (es: seq<Event>)
    requires Init(s0) && !x.notify && !y.notify
    ensures IsRun(s0, es) && FilledAgain(After(s0, es), x, y, a)
  {
    es := RequestReturned(s0, x, a);
    es := Then(s0, es, Fill(1, 2, 0, y));
    es := Then(s0, es, Post(1));
    es := Then(s0, es, Run);
    es := Then(s0, es, Run);
  }

  /** The node freed early is used again while the owner has still to write to it: sender 1 sends y,
      but the owner receives a, its own answer to sender 0; and as sender 1 is quick too, it returns
      with a in place of its own answer b. */
  lemma AnswerToAnother(s0: State, x: Mess, y: Mess, a: Mess, b: Mess) returns (es: seq<Event>)
    requires Init(s0) && !x.notify && !y.notify && !a.notify
    ensures IsRun(s0, es)
    ensures var s := After(s0, es);
      && s.replied == [1, 2] && s.answered == [a, b] && s.body(2) == y
      && s.got == [x, a] && s.sender(1) == Returned(2, a)
  {
    es := FillAgain(s0, x, y, a);
    es := Served(s0, es, b);
    es := Then(s0, es, Run);
    es := Then(s0, es, Return(1));
    es := Then(s0, es, Return(1));
  }

  /** If the answer to sender 0 has the notifier bit, sender 1 is stranded on a node that is free
      again; a third message in it is finished, and sender 1 returns with the answer to that. */
  lemma StrandedReturns(s0: State, x: Mess, y: Mess, z: Mess, a: Mess, b: Mess, c: Mess) returns (es: seq<Event>)
    requires Init(s0) && !x.notify && !y.notify && !z.notify && a.notify
    ensures IsRun(s0, es)
    ensures var s := After(s0, es);
      && s.replied == [1, 2, 3] && s.answered == [a, b, c] && s.got == [x, a, z]
      && s.lost == {2} && s.sender(1) == Returned(2, c) && s.damaged
  {
    es := FillAgain(s0, x, y, a);
    es := Served(s0, es, b);
    es := Then(s0, es, Run);
    es := Then(s0, es, Fill(2, 3, 0, z));
    es := Then(s0, es, Post(2));
    es := Served(s0, es, c);
    es := Then(s0, es, Run);
    es := Then(s0, es, Run);
    es := Then(s0, es, Return(1));
    es := Then(s0, es, Return(1));
  }
}
