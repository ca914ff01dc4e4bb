/**
 What cross-CPU calls run (kernel/core/smp.c): every call that is posted or run is the function
 and argument with which its caller started it, on one of the CPUs it was started for.
 */
module SmpOrigin {
  import opened Wrappers
  import opened SmpCall
  import opened SmpProgress

  /** The calls of smp_call_function_single and smp_call_function_many in a run, in order. */
  function Starts(es: seq<Event>): seq<Event>
    decreases |es|
  {
    if es == [] then [] else (if es[0].Start? then [es[0]] else []) + Starts(es[1..])
  }

  predicate StartedBy(job: Job, e: Event, c: int) {
    && e.Start? && e.cpu == c && e.targets == job.targets && e.many == job.many && e.func == job.func
    && e.info == job.info && e.wait == job.wait
  }

  /** A call on t that belongs to the Start event with its number. */
  predicate CallFrom(call: Call, t: int, base: int, begun: seq<Event>) {
    && base <= call.job < base + |begun| && call.target == t
    && var e := begun[call.job - base];
      e.Start? && t in e.targets && call.func == e.func && call.info == e.info
  }

  ghost predicate PostedFrom(s: State, t: int, base: int, begun: seq<Event>) {
    forall j :: 0 <= j < |s.posted(t)| ==> CallFrom(s.posted(t)[j], t, base, begun)
  }

  /** A busy sender works on the last call that its CPU has started. */
  ghost predicate BusyFrom(s: State, c: int, base: int, begun: seq<Event>) {
    var p := s.sender(c);
    p.Busy? ==>
      && base <= p.job.id < base + |begun| && StartedBy(p.job, begun[p.job.id - base], c)
      && forall k :: p.job.id - base < k < |begun| ==> begun[k].Start? && begun[k].cpu != c
  }

  ghost predicate OriginOk(s: State, base: int, begun: seq<Event>) {
    && s.jobs == base + |begun| && (forall k :: 0 <= k < |begun| ==> begun[k].Start?)
    && (forall t :: PostedFrom(s, t, base, begun)) && (forall c :: BusyFrom(s, c, base, begun))
  }

  function Begun(begun: seq<Event>, e: Event): seq<Event> { if e.Start? then begun + [e] else begun }

  lemma StartKeepsOrigin(s: State, e: Event, base: int, begun: seq<Event>)
    requires OriginOk(s, base, begun) && Enabled(s, e) && e.Start?
    ensures OriginOk(StartStep(s, e), base, begun + [e])
  {
    var s2 := StartStep(s, e);
    forall t
      ensures PostedFrom(s2, t, base, begun + [e])
    {
      assert PostedFrom(s, t, base, begun);
    }
    forall c
      ensures BusyFrom(s2, c, base, begun + [e])
    {
      assert BusyFrom(s, c, base, begun);
    }
  }

  lemma RunKeepsPosted(s: State, c: int, t: int, base: int, begun: seq<Event>)
    requires SenderOk(s, c, s.sender(c)) && BusyFrom(s, c, base, begun) && PostedFrom(s, t, base, begun)
    requires Enabled(s, Run(c))
    ensures PostedFrom(SenderStep(s, c), t, base, begun)
  {
  }

  lemma RunKeepsBusy(s: State, c: int, d: int, base: int, begun: seq<Event>)
    requires BusyFrom(s, d, base, begun) && Enabled(s, Run(c))
    ensures BusyFrom(SenderStep(s, c), d, base, begun) && SenderStep(s, c).jobs == s.jobs
  {
  }

  lemma HandleKeepsOrigin(s: State, t: int, base: int, begun: seq<Event>)
    requires OriginOk(s, base, begun)
    ensures OriginOk(HandlerStep(s, t), base, begun)
  {
    var s2 := HandlerStep(s, t);
    forall u
      ensures PostedFrom(s2, u, base, begun) && BusyFrom(s2, u, base, begun)
    {
      assert PostedFrom(s, u, base, begun) && BusyFrom(s, u, base, begun);
    }
  }

  lemma StepKeepsOrigin(s: State, e: Event, base: int, begun: seq<Event>)
    requires Inv(s) && Enabled(s, e) && OriginOk(s, base, begun)
    ensures OriginOk(Step(s, e), base, Begun(begun, e))
  {
    match e
    case Start(_, _, _, _, _, _) => StartKeepsOrigin(s, e, base, begun);
    case Handle(t) => HandleKeepsOrigin(s, t, base, begun);
    case Run(c) =>
      assert SenderOk(s, c, s.sender(c)) && BusyFrom(s, c, base, begun);
      forall u
        ensures PostedFrom(Step(s, e), u, base, begun) && BusyFrom(Step(s, e), u, base, begun)
      {
        assert PostedFrom(s, u, base, begun) && BusyFrom(s, u, base, begun);
        RunKeepsPosted(s, c, u, base, begun);
        RunKeepsBusy(s, c, u, base, begun);
      }
  }

  lemma StartsOn(begun: seq<Event>, es: seq<Event>)
    ensures es == [] ==> begun + Starts(es) == begun
    ensures es != [] ==> Begun(begun, es[0]) + Starts(es[1..]) == begun + Starts(es)
  {
    if es != [] {
      var e, rest := es[0], Starts(es[1..]);
      if e.Start? { assert (begun + [e]) + rest == begun + ([e] + rest); } else { assert [] + rest == rest; }
    }
  }

  lemma {:induction false} RunKeepsOrigin(s: State, es: seq<Event>, base: int, begun: seq<Event>)
    requires Inv(s) && IsRun(s, es) && OriginOk(s, base, begun)
    ensures OriginOk(After(s, es), base, begun + Starts(es))
    decreases |es|
  {
    StartsOn(begun, es);
    if es != [] {
      StepKeepsInv(s, es[0]);
      StepKeepsOrigin(s, es[0], base, begun);
      RunKeepsOrigin(Step(s, es[0]), es[1..], base, Begun(begun, es[0]));
    }
  }

  lemma ReachedOrigin(s0: State, es: seq<Event>)
    requires Init(s0) && IsRun(s0, es)
    ensures Inv(After(s0, es)) && OriginOk(After(s0, es), s0.jobs, Starts(es))
  {
    InitInv(s0);
    RunKeepsInv(s0, es);
    RunKeepsOrigin(s0, es, s0.jobs, []);
    assert [] + Starts(es) == Starts(es);
  }

  /** The parts of it for one target and one sender. */
  lemma ReachedAt(s0: State, es: seq<Event>, t: int, c: int)
    requires Init(s0) && IsRun(s0, es)
    ensures var s := After(s0, es);
      && PostedFrom(s, t, s0.jobs, Starts(es)) && BusyFrom(s, c, s0.jobs, Starts(es))
      && TargetOk(s, t) && SenderOk(s, c, s.sender(c))
  {
    ReachedOrigin(s0, es);
  }

  /** In every run, every call posted to a CPU or run on it was started by an event of the run with
      that CPU among its targets, and is the function and argument given there. */
  lemma CallsAreStarted(s0: State, es: seq<Event>, t: int, call: Call)
    requires Init(s0) && IsRun(s0, es) && (call in After(s0, es).posted(t) || call in After(s0, es).ran(t))
    ensures s0.jobs <= call.job < s0.jobs + |Starts(es)|
    ensures var e := Starts(es)[call.job - s0.jobs];
      e.Start? && t in e.targets && call.target == t && call.func == e.func && call.info == e.info
  {
    ReachedAt(s0, es, t, 0);
    PostedOrRan(After(s0, es), t, call, s0.jobs, Starts(es));
  }

  lemma PostedOrRan(s: State, t: int, call: Call, base: int, begun: seq<Event>)
    requires OrderOk(s, t) && PostedFrom(s, t, base, begun) && (call in s.posted(t) || call in s.ran(t))
    ensures CallFrom(call, t, base, begun)
  {
    if j :| 0 <= j < |s.ran(t)| && s.ran(t)[j] == call {
      assert s.posted(t)[j] == call;
    } else {
      var j :| 0 <= j < |s.posted(t)| && s.posted(t)[j] == call;
    }
  }

  /** A call for t with that number, function and argument. */
  ghost predicate HasCall(q: seq<Call>, id: int, t: int, e: Event)
    requires e.Start?
  {
    exists call :: call in q && call.job == id && call.target == t && call.func == e.func && call.info == e.info
  }

  /** What a job has delivered was posted. */
  lemma DeliveredPosted(s: State, c: int, job: Job, k: int)
    requires 0 <= k < |job.targets| && TargetOk(s, job.targets[k]) && Delivered(s, c, job, k)
    ensures CallOf(job, k) in s.posted(job.targets[k])
  {
    var t, x := job.targets[k], SlotOf(c, job, k);
    if CallOf(job, k) !in s.ran(t) {
      RevIn(s, t, x);
      var j := PlaceInLine(s, t, x);
    }
  }

  lemma RevIn(s: State, t: int, x: Slot)
    requires x in Line(s, t)
    ensures Held(s, t, x)
  {
    Lists.RevHas(s.taken(t));
    Lists.RevHas(s.queue(t));
  }

  lemma ReturnPosts(s: State, c: int, t: int)
    requires SenderOk(s, c, s.sender(c)) && Enabled(s, Run(c)) && t in s.sender(c).job.targets && TargetOk(s, t)
    requires SenderStep(s, c).sender(c) == Idle
    ensures var job := s.sender(c).job;
      exists k :: 0 <= k < |job.targets| && job.targets[k] == t && CallOf(job, k) in SenderStep(s, c).posted(t)
  {
    var p := s.sender(c);
    var k :| 0 <= k < |p.job.targets| && p.job.targets[k] == t;
    if p.stage.AddCas? {
      assert SenderStep(s, c).posted(t)[|s.posted(t)|] == CallOf(p.job, k);
    } else {
      DeliveredPosted(s, c, p.job, k);
    }
  }

  /** The call of a job for one of its targets. */
  lemma JobHasCall(job: Job, k: int, e: Event, c: int, q: seq<Call>)
    requires 0 <= k < |job.targets| && StartedBy(job, e, c) && CallOf(job, k) in q
    ensures HasCall(q, job.id, job.targets[k], e)
  {
    var call := CallOf(job, k);
    assert call.job == job.id && call.target == job.targets[k] && call.func == job.func && call.info == job.info;
  }

  lemma ReturnHasCall(s: State, c: int, t: int, e: Event)
    requires SenderOk(s, c, s.sender(c)) && Enabled(s, Run(c)) && t in s.sender(c).job.targets && TargetOk(s, t)
    requires SenderStep(s, c).sender(c) == Idle && StartedBy(s.sender(c).job, e, c)
    ensures HasCall(SenderStep(s, c).posted(t), s.sender(c).job.id, t, e)
  {
    var job := s.sender(c).job;
    ReturnPosts(s, c, t);
    var k :| 0 <= k < |job.targets| && job.targets[k] == t && CallOf(job, k) in SenderStep(s, c).posted(t);
    JobHasCall(job, k, e, c, SenderStep(s, c).posted(t));
  }

  lemma WaitHasCall(s: State, c: int, t: int, e: Event)
    requires Inv(s) && Enabled(s, Run(c)) && t in s.sender(c).job.targets && s.sender(c).job.wait
    requires SenderStep(s, c).sender(c) == Idle && StartedBy(s.sender(c).job, e, c)
    ensures HasCall(s.ran(t), s.sender(c).job.id, t, e)
  {
    var job := s.sender(c).job;
    assert SenderOk(s, c, s.sender(c));
    WaitEnds(s, c);
    var k :| 0 <= k < |job.targets| && job.targets[k] == t;
    assert CallOf(job, k) in s.ran(job.targets[k]);
    JobHasCall(job, k, e, c, s.ran(t));
  }

  /** In every run, when a caller returns, its function has been posted with its argument to every CPU
      it was started for, and if it was to wait, has run there. */
  lemma CallerReturns(s0: State, es: seq<Event>, c: int, t: int)
    requires Init(s0) && IsRun(s0, es) && Enabled(After(s0, es), Run(c))
    requires Step(After(s0, es), Run(c)).sender(c) == Idle
    ensures var s, k := After(s0, es), After(s0, es).sender(c).job.id - s0.jobs;
      && 0 <= k < |Starts(es)| && Starts(es)[k].Start? && Starts(es)[k].cpu == c
      && (forall j :: k < j < |Starts(es)| ==> Starts(es)[j].Start? && Starts(es)[j].cpu != c)
      && (t in Starts(es)[k].targets ==>
            && HasCall(Step(s, Run(c)).posted(t), k + s0.jobs, t, Starts(es)[k])
            && (Starts(es)[k].wait ==> HasCall(s.ran(t), k + s0.jobs, t, Starts(es)[k])))
  {
    ReachedAt(s0, es, t, c);
    var s := After(s0, es);
    var e := Starts(es)[s.sender(c).job.id - s0.jobs];
    if t in e.targets {
      ReturnHasCall(s, c, t, e);
      if e.wait {
        InitInv(s0);
        RunKeepsInv(s0, es);
        WaitHasCall(s, c, t, e);
      }
    }
  }
}
