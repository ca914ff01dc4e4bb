/**
 The real-time run queue (kernel/core/sched/rt.c): one list per priority, a bitmap of the
 non-empty ones, and an iterator that survives the removal of the task it has returned.
 */
module RtSched {
  import opened Wrappers
  import opened Lists

  /** The order of the load balancer: from the best priority on, each list from its tail. */
  function Order(queues: seq<seq<int>>, i: nat): seq<int>
    decreases |queues| - i
  {
    if i >= |queues| then [] else Rev(queues[i]) + Order(queues, i + 1)
  }

  lemma {:induction false} RevSnoc(q: seq<int>, x: int)
    ensures Rev(q + [x]) == [x] + Rev(q)
  {
    if q == [] {
      assert q + [x] == [x];
      assert Rev([x]) == Rev([x][1..]) + [x];
    } else {
      assert (q + [x])[1..] == q[1..] + [x];
      RevSnoc(q[1..], x);
    }
  }

  /** Lists before i do not matter from i on. */
  lemma {:induction false} OrderSame(queues: seq<seq<int>>, queues2: seq<seq<int>>, i: nat)
    requires |queues| == |queues2| && forall k :: i <= k < |queues| ==> queues[k] == queues2[k]
    ensures Order(queues, i) == Order(queues2, i)
    decreases |queues| - i
  {
    if i < |queues| { OrderSame(queues, queues2, i + 1); }
  }

  lemma {:induction false} OrderSkips(queues: seq<seq<int>>, i: nat, j: nat)
    requires i <= j <= |queues| && forall k :: i <= k < j ==> queues[k] == []
    ensures Order(queues, i) == Order(queues, j)
    decreases j - i
  {
    if i < j { OrderSkips(queues, i + 1, j); }
  }

  /** Every queued task comes up in the order, and nothing else. */
  lemma {:induction false} OrderHas(queues: seq<seq<int>>, i: nat, t: int)
    ensures t in Order(queues, i) <==> exists k :: i <= k < |queues| && t in queues[k]
    decreases |queues| - i
  {
    if i < |queues| {
      RevHas(queues[i]);
      OrderHas(queues, i + 1, t);
    }
  }

  /** A task is on the list of its priority only, and once. */
  ghost predicate QueuesOk(queues: seq<seq<int>>, prio: map<int, int>) {
    && (forall i :: 0 <= i < |queues| ==> NoDup(queues[i]))
    && (forall i, k :: 0 <= i < |queues| && 0 <= k < |queues[i]| ==> queues[i][k] in prio && prio[queues[i][k]] == i)
  }

  /** t is the first task of list i, and all better lists are empty. */
  ghost predicate FirstOfBest(queues: seq<seq<int>>, i: int, t: int)
    requires 0 <= i < |queues|
  {
    queues[i] != [] && queues[i][0] == t && forall k :: 0 <= k < i ==> queues[k] == []
  }

  lemma {:induction false} RevNoDup(q: seq<int>)
    requires NoDup(q)
    ensures NoDup(Rev(q))
  {
    if q != [] {
      assert forall i, j :: 0 <= i < j < |q[1..]| ==> q[1..][i] == q[i + 1] && q[1..][j] == q[j + 1];
      RevNoDup(q[1..]);
      RevHas(q[1..]);
      assert forall k :: 0 <= k < |q[1..]| ==> q[1..][k] == q[k + 1];
      assert q[0] !in q[1..];
    }
  }

  lemma ConcatNoDup(a: seq<int>, b: seq<int>)
    requires NoDup(a) && NoDup(b) && forall x :: x in a ==> x !in b
    ensures NoDup(a + b)
  {
    forall i, j | 0 <= i < j < |a + b|
      ensures (a + b)[i] != (a + b)[j]
    {
      assert i < |a| ==> a[i] in a;
      assert j >= |a| ==> b[j - |a|] in b;
    }
  }

  lemma NotAhead(a: seq<int>, x: int, b: seq<int>)
    requires NoDup(a + [x] + b)
    ensures x !in a && x !in b
  {
    var l := a + [x] + b;
    assert l[|a|] == x;
    assert forall k :: 0 <= k < |a| ==> a[k] == l[k];
    assert forall k :: 0 <= k < |b| ==> b[k] == l[|a| + 1 + k];
  }

  /** No task comes up twice. */
  lemma {:induction false} OrderNoDup(queues: seq<seq<int>>, prio: map<int, int>, i: nat)
    requires QueuesOk(queues, prio)
    ensures NoDup(Order(queues, i))
    decreases |queues| - i
  {
    if i < |queues| {
      RevNoDup(queues[i]);
      OrderNoDup(queues, prio, i + 1);
      forall x | x in Rev(queues[i])
        ensures x !in Order(queues, i + 1)
      {
        RevHas(queues[i]);
        OrderHas(queues, i + 1, x);
        OnlyThere(queues, prio, i, x);
      }
      ConcatNoDup(Rev(queues[i]), Order(queues, i + 1));
    }
  }

  lemma OnlyThere(queues: seq<seq<int>>, prio: map<int, int>, i: nat, x: int)
    requires QueuesOk(queues, prio) && i < |queues| && x in queues[i]
    ensures x in prio && prio[x] == i && forall k :: 0 <= k < |queues| && x in queues[k] ==> k == i
  {
    forall k | 0 <= k < |queues| && x in queues[k]
      ensures x in prio && prio[x] == k
    {
      var j :| 0 <= j < |queues[k]| && queues[k][j] == x;
    }
  }

  /** What an iterator at position n of list i has still to visit. */
  function RestAt(queues: seq<seq<int>>, i: nat, n: nat): seq<int>
    requires i < |queues| && n <= |queues[i]|
  {
    Rev(queues[i][..n]) + Order(queues, i + 1)
  }

  lemma RestStep(queues: seq<seq<int>>, i: nat, n: nat)
    requires i < |queues| && 0 < n <= |queues[i]|
    ensures RestAt(queues, i, n) == [queues[i][n - 1]] + RestAt(queues, i, n - 1)
  {
    assert queues[i][..n] == queues[i][..n - 1] + [queues[i][n - 1]];
    RevSnoc(queues[i][..n - 1], queues[i][n - 1]);
  }

  lemma NextList(queues: seq<seq<int>>, i: nat, j: nat)
    requires i < j <= |queues| && forall k :: i < k < j ==> queues[k] == []
    ensures RestAt(queues, i, 0) == if j < |queues| then RestAt(queues, j, |queues[j]|) else []
  {
    assert queues[i][..0] == [];
    OrderSkips(queues, i + 1, j);
    if j < |queues| { assert queues[j][..|queues[j]|] == queues[j]; }
  }

  /** Removing a task that the iterator has behind it changes nothing of what lies ahead. */
  lemma RemovalKeepsRest(queues: seq<seq<int>>, prio: map<int, int>, i: nat, n: nat, p: nat, t: int)
    requires QueuesOk(queues, prio) && i < |queues| && n <= |queues[i]| && p < |queues| && t in queues[p]
    requires t !in RestAt(queues, i, n)
    ensures var queues2 := queues[p := Without(queues[p], t)];
      n <= |queues2[i]| && RestAt(queues2, i, n) == RestAt(queues, i, n)
  {
    var queues2 := queues[p := Without(queues[p], t)];
    RevHas(queues[i][..n]);
    OrderHas(queues, i + 1, t);
    if p == i {
      WithoutPrefix(queues[i], t, n);
    }
    assert p <= i;
    OrderSame(queues, queues2, i + 1);
  }

  /** Removing a task leaves the part of the list before it alone. */
  lemma {:induction false} WithoutPrefix(q: seq<int>, t: int, k: nat)
    requires k <= |q| && t !in q[..k]
    ensures k <= |Without(q, t)| && Without(q, t)[..k] == q[..k]
    decreases k
  {
    if k > 0 {
      assert q[..k][0] == q[0];
      assert q[1..][..k - 1] == q[..k][1..];
      WithoutPrefix(q[1..], t, k - 1);
      assert ([q[0]] + Without(q[1..], t))[..k] == [q[0]] + Without(q[1..], t)[..k - 1];
      assert q[..k] == [q[0]] + q[1..][..k - 1];
    }
  }

  // ------------------------------------------------------------- what balancing leaves

  /** The tasks of a list that are not gone, in order. */
  ghost function Left(q: seq<int>, gone: set<int>): seq<int> {
    if q == [] then [] else (if q[0] in gone then [] else [q[0]]) + Left(q[1..], gone)
  }

  ghost predicate OnlyLeft(before: seq<seq<int>>, after: seq<seq<int>>, gone: set<int>) {
    |after| == |before| && forall i :: 0 <= i < |before| ==> after[i] == Left(before[i], gone)
  }

  ghost function Taken(visited: seq<int>, takes: int -> bool): set<int> { set t | t in visited && takes(t) }

  lemma TakenMore(visited: seq<int>, t: int, takes: int -> bool)
    ensures takes(t) ==> Taken(visited + [t], takes) == Taken(visited, takes) + {t}
    ensures !takes(t) ==> Taken(visited + [t], takes) == Taken(visited, takes)
  {
  }

  lemma {:induction false} LeftAll(q: seq<int>)
    ensures Left(q, {}) == q
  {
    if q != [] { LeftAll(q[1..]); }
  }

  lemma NoneLeft(queues: seq<seq<int>>, takes: int -> bool)
    ensures OnlyLeft(queues, queues, Taken([], takes))
  {
    assert Taken([], takes) == {};
    forall i | 0 <= i < |queues| { LeftAll(queues[i]); }
  }

  lemma {:induction false} LeftWithout(q: seq<int>, gone: set<int>, t: int)
    requires NoDup(q) && t !in gone
    ensures Left(q, gone + {t}) == Without(Left(q, gone), t)
    ensures t !in q ==> Left(q, gone + {t}) == Left(q, gone)
  {
    if q != [] {
      LeftWithout(q[1..], gone, t);
      var rest := Left(q[1..], gone);
      assert q[0] == t ==> t !in q[1..];
      if q[0] !in gone {
        assert Left(q, gone) == [q[0]] + rest && ([q[0]] + rest)[1..] == rest;
      } else {
        assert Left(q, gone) == rest;
      }
    }
  }

  lemma OneLessLeft(before: seq<seq<int>>, now: seq<seq<int>>, prio: map<int, int>, gone: set<int>, t: int)
    requires QueuesOk(before, prio) && OnlyLeft(before, now, gone) && t !in gone
    requires t in prio && 0 <= prio[t] < |now| && t in now[prio[t]]
    ensures OnlyLeft(before, now[prio[t] := Without(now[prio[t]], t)], gone + {t})
  {
    forall i | 0 <= i < |before|
      ensures now[prio[t] := Without(now[prio[t]], t)][i] == Left(before[i], gone + {t})
    {
      LeftWithout(before[i], gone, t);
    }
  }

  /** One less, as an unsigned int. */
  function OneLess(x: nat): nat { if x == 0 then 0xffff_ffff else x - 1 }

  class RtRq {
    var queues: seq<seq<int>>
    var bitmap: seq<bool>
    var prio: map<int, int>
    var timeSlice: map<int, nat>
    /** rt_load_balance_idx, and rt_load_balance_curr as a position: one past the task that comes
        next, 0 when it has arrived at the head. */
    var lbIdx: nat
    var lbCurr: nat

    /** A bit is set exactly if its list is not empty; the delimiter bit is always set. */
    ghost predicate Valid()
      reads this
    {
      && |bitmap| == |queues| + 1 && bitmap[|queues|] && QueuesOk(queues, prio)
      && (forall i :: 0 <= i < |queues| ==> (bitmap[i] <==> queues[i] != []))
    }

    ghost predicate Queued(t: int)
      reads this
    {
      t in prio && 0 <= prio[t] < |queues| && t in queues[prio[t]]
    }

    constructor (maxRtPrio: nat)
      ensures Valid() && |queues| == maxRtPrio && (forall i :: 0 <= i < |queues| ==> queues[i] == []) && prio == map[]
    {
      queues := seq(maxRtPrio, _ => []);
      bitmap := seq(maxRtPrio + 1, i => i == maxRtPrio);
      prio, timeSlice, lbIdx, lbCurr := map[], map[], 0, 0;
    }

    /** find_next_bit, up to the delimiter. */
    method FindNextBit(from: nat) returns (idx: nat)
      requires Valid() && from <= |queues|
      ensures from <= idx <= |queues| && (forall k :: from <= k < idx ==> queues[k] == [])
      ensures idx < |queues| ==> queues[idx] != []
    {
      idx := from;
      while !bitmap[idx]
        invariant from <= idx <= |queues| && forall k :: from <= k < idx ==> queues[k] == []
        decreases |queues| - idx
      {
        idx := idx + 1;
      }
    }

    /** enqueue_task_rt */
    method Enqueue(t: int, p: nat)
      requires Valid() && p < |queues| && (forall i :: 0 <= i < |queues| ==> t !in queues[i])
      modifies this`queues, this`bitmap, this`prio
      ensures Valid() && queues == old(queues)[p := old(queues)[p] + [t]] && prio == old(prio)[t := p]
    {
      prio := prio[t := p];
      queues := queues[p := queues[p] + [t]];
      bitmap := bitmap[p := true];
    }

    /** dequeue_task_rt */
    method Dequeue(t: int)
      requires Valid() && Queued(t)
      modifies this`queues, this`bitmap
      ensures Valid() && queues == old(queues)[prio[t] := Without(old(queues)[prio[t]], t)]
    {
      var p := prio[t];
      WithoutProps(queues[p], t);
      queues := queues[p := Without(queues[p], t)];
      assert forall k :: 0 <= k < |queues[p]| ==> queues[p][k] in queues[p];
      if queues[p] == [] {
        bitmap := bitmap[p := false];
      }
    }

    /** requeue_task_rt */
    method Requeue(t: int)
      requires Valid() && Queued(t)
      modifies this`queues
      ensures Valid() && queues == old(queues)[prio[t] := Without(old(queues)[prio[t]], t) + [t]]
    {
      var p := prio[t];
      WithoutProps(queues[p], t);
      var w := Without(queues[p], t);
      assert forall k :: 0 <= k < |w| ==> w[k] in w;
      queues := queues[p := w + [t]];
    }

    /** pick_next_task_rt: the first task of the best priority that has any. */
    method PickNext() returns (next: Option<int>)
      requires Valid()
      ensures next == None <==> forall i :: 0 <= i < |queues| ==> queues[i] == []
      ensures next.Some? ==> exists i :: 0 <= i < |queues| && FirstOfBest(queues, i, next.value)
    {
      var idx := FindNextBit(0);
      if idx >= |queues| {
        return None;
      }
      assert FirstOfBest(queues, idx, queues[idx][0]);
      return Some(queues[idx][0]);
    }

    /** task_tick_rt; `roundRobin` tells whether the task's policy is SCHED_RR, and `resched` asks for
        another task to be picked. */
    method TaskTick(t: int, roundRobin: bool, rrTimeslice: nat) returns (resched: bool)
      requires Valid() && Queued(t) && t in timeSlice
      modifies this`queues, this`timeSlice
      ensures Valid()
      ensures !roundRobin ==> timeSlice == old(timeSlice)
      ensures roundRobin ==>
        var slice := old(timeSlice)[t];
        timeSlice == old(timeSlice)[t :=
          if slice == 1 then rrTimeslice else if slice == 0 then 0xffff_ffff else slice - 1]
      ensures resched == (roundRobin && old(timeSlice)[t] == 1 && |old(queues)[prio[t]]| > 1)
      ensures queues == if resched then old(queues)[prio[t] := Without(old(queues)[prio[t]], t) + [t]] else old(queues)
    {
      if !roundRobin {
        return false;
      }
      timeSlice := timeSlice[t := OneLess(timeSlice[t])];
      if timeSlice[t] != 0 {
        return false;
      }
      timeSlice := timeSlice[t := rrTimeslice];
      if |queues[prio[t]]| > 1 {
        Requeue(t);
        return true;
      }
      return false;
    }

    ghost predicate Iterating()
      reads this
    {
      lbIdx < |queues| && lbCurr <= |queues[lbIdx]|
    }

    /** What the iterator has still to visit. */
    ghost function Rest(): seq<int>
      requires Iterating()
      reads this
    {
      RestAt(queues, lbIdx, lbCurr)
    }

    /** Returning the task at the iterator's position, having moved on from it first. */
    method TakeBack() returns (t: int)
      requires Valid() && Iterating() && lbCurr > 0
      modifies this`lbCurr
      ensures Iterating() && Queued(t) && old(Rest()) == [t] + Rest()
    {
      RestStep(queues, lbIdx, lbCurr);
      t := queues[lbIdx][lbCurr - 1];
      assert t in queues[lbIdx];
      lbCurr := lbCurr - 1;
    }

    /** load_balance_start_rt */
    method LoadBalanceStart() returns (p: Option<int>)
      requires Valid()
      modifies this`lbIdx, this`lbCurr
      ensures p == None ==> Order(queues, 0) == []
      ensures p.Some? ==> Iterating() && Queued(p.value) && Order(queues, 0) == [p.value] + Rest()
    {
      var idx := FindNextBit(0);
      OrderSkips(queues, 0, idx);
      if idx >= |queues| {
        return None;
      }
      lbIdx, lbCurr := idx, |queues[idx]|;
      assert queues[idx][..lbCurr] == queues[idx];
      var t := TakeBack();
      p := Some(t);
    }

    /** load_balance_next_rt */
    method LoadBalanceNext() returns (p: Option<int>)
      requires Valid() && Iterating()
      modifies this`lbIdx, this`lbCurr
      ensures Iterating()
      ensures p == None ==> old(Rest()) == []
      ensures p.Some? ==> Queued(p.value) && old(Rest()) == [p.value] + Rest()
    {
      if lbCurr == 0 {
        var nextIdx := FindNextBit(lbIdx + 1);
        NextList(queues, lbIdx, nextIdx);
        if nextIdx >= |queues| {
          return None;
        }
        lbIdx, lbCurr := nextIdx, |queues[nextIdx]|;
      }
      var t := TakeBack();
      p := Some(t);
    }

    /** Removing the task that the iterator has just returned. */
    method DequeueReturned(t: int)
      requires Valid() && Iterating() && Queued(t) && t !in Rest()
      modifies this`queues, this`bitmap
      ensures Valid() && Iterating() && Rest() == old(Rest())
      ensures queues == old(queues)[prio[t] := Without(old(queues)[prio[t]], t)]
    {
      RemovalKeepsRest(queues, prio, lbIdx, lbCurr, prio[t], t);
      Dequeue(t);
    }

    /** One task that the iterator has returned is taken away, or not. */
    method TakeIfWanted(t: int, takes: int -> bool, ghost visited: seq<int>, ghost before: seq<seq<int>>)
      requires Valid() && Iterating() && Queued(t) && t !in Rest() && t !in visited
      requires QueuesOk(before, prio) && OnlyLeft(before, queues, Taken(visited, takes))
      modifies this`queues, this`bitmap
      ensures Valid() && Iterating() && Rest() == old(Rest())
      ensures OnlyLeft(before, queues, Taken(visited + [t], takes))
    {
      TakenMore(visited, t, takes);
      if takes(t) {
        OneLessLeft(before, queues, prio, Taken(visited, takes), t);
        DequeueReturned(t);
      }
    }

    /** `all` is what has been visited, the task p returned last, and what is still to come. */
    ghost predicate InProgress(all: seq<int>, visited: seq<int>, p: Option<int>)
      reads this
    {
      if p.Some? then Iterating() && Queued(p.value) && all == visited + [p.value] + Rest() else all == visited
    }

    /** One turn of balancing. */
    method Turn(t: int, takes: int -> bool, ghost all: seq<int>, ghost visited: seq<int>, ghost before: seq<seq<int>>)
      returns (p: Option<int>)
      requires Valid() && NoDup(all) && InProgress(all, visited, Some(t))
      requires QueuesOk(before, prio) && OnlyLeft(before, queues, Taken(visited, takes))
      modifies this`lbIdx, this`lbCurr, this`queues, this`bitmap
      ensures Valid() && InProgress(all, visited + [t], p) && OnlyLeft(before, queues, Taken(visited + [t], takes))
    {
      NotAhead(visited, t, Rest());
      TakeIfWanted(t, takes, visited, before);
      p := LoadBalanceNext();
    }

    /** Load balancing takes away some of the tasks it is given, each before asking for the next:
        all the same it is given every queued task exactly once.  The others stay, in order. */
    method BalanceAll(takes: int -> bool) returns (visited: seq<int>)
      requires Valid()
      modifies this`lbIdx, this`lbCurr, this`queues, this`bitmap
      ensures Valid() && visited == Order(old(queues), 0)
      ensures OnlyLeft(old(queues), queues, Taken(visited, takes))
    {
      ghost var all, before := Order(queues, 0), queues;
      OrderNoDup(queues, prio, 0);
      NoneLeft(queues, takes);
      var p := LoadBalanceStart();
      visited := [];
      while p.Some?
        invariant Valid() && InProgress(all, visited, p) && OnlyLeft(before, queues, Taken(visited, takes))
        decreases if p.Some? then |all| - |visited| else 0
      {
        var t := p.value;
        p := Turn(t, takes, all, visited, before);
        visited := visited + [t];
      }
    }
  }
}
