/**
 The CFS run queue (kernel/core/sched/fair.c): entities ordered by virtual runtimes that wrap
 around at 64 bits.  The red-black tree is the sequence of its entities in tree order.
 */
module Cfs {
  import opened Wrappers
  import opened Lists

  const U64: int := 0x1_0000_0000_0000_0000
  const HALF: int := 0x8000_0000_0000_0000

  // ------------------------------------------------------------- wrapping arithmetic

  predicate U(v: int) { 0 <= v < U64 }

  function Add(a: int, b: int): int { (a + b) % U64 }

  /** (s64)(a - b) */
  function Diff(a: int, b: int): int {
    var d := (a - b) % U64;
    if d < HALF then d else d - U64
  }

  /** It is the one value from -2^63 up to 2^63 that a is ahead of b, modulo 2^64. */
  lemma DiffExact(a: int, b: int, d: int)
    ensures d == Diff(a, b) <==> -HALF <= d < HALF && (b + d) % U64 == a % U64
  {
    var e, k := Diff(a, b), (a - b) / U64;
    ModShift(b + e, a, if (a - b) % U64 < HALF then k else k + 1);
    if -HALF <= d < HALF && (b + d) % U64 == a % U64 {
      var i, j := (b + d) / U64, (b + e) / U64;
      assert d - e == (i - j) * U64;
    }
  }

  /** A virtual runtime that is charged a time below 2^63 is ahead of what it was by just that. */
  lemma ChargedAhead(v: int, delta: int)
    requires U(v) && 0 <= delta < HALF
    ensures U(Add(v, delta)) && Diff(Add(v, delta), v) == delta
  {
    DiffExact(Add(v, delta), v, delta);
  }

  lemma ModShift(x: int, y: int, k: int)
    requires y == x + k * U64
    ensures x % U64 == y % U64
  {
  }

  function MaxVruntime(min: int, v: int): int { if Diff(v, min) > 0 then v else min }

  function MinVruntime(min: int, v: int): int { if Diff(v, min) < 0 then v else min }

  /** entity_key */
  function Key(min: int, v: int): int { Diff(v, min) }

  /** v lies in the half of the range that begins at base. */
  predicate Near(base: int, v: int) { U(v) && (v - base) % U64 < HALF }

  /** Within a half of the range, signed differences are those of the offsets. */
  lemma NearDiff(base: int, a: int, b: int)
    requires Near(base, a) && Near(base, b)
    ensures Diff(a, b) == (a - base) % U64 - (b - base) % U64
  {
    var x, y := (a - base) % U64, (b - base) % U64;
    var i, j := (a - base) / U64, (b - base) / U64;
    assert a - b == (x - y) + (i - j) * U64;
    if x >= y {
      assert (a - b) % U64 == x - y;
    } else {
      assert (a - b) % U64 == x - y + U64;
    }
  }

  /** The signed difference of two values is that of their keys, brought back into range. */
  lemma KeyDiff(min: int, a: int, b: int)
    ensures var d := Key(min, a) - Key(min, b);
      Diff(a, b) == if d < -HALF then d + U64 else if d < HALF then d else d - U64
  {
    var i, j := (a - min) / U64, (b - min) / U64;
    var x, y := (a - min) % U64, (b - min) % U64;
    assert a - b == (x - y) + (i - j) * U64;
    ModIs(a - b, x - y, i - j);
  }

  lemma ModIs(z: int, d: int, k: int)
    requires z == d + k * U64 && -U64 < d < U64
    ensures z % U64 == if d >= 0 then d else d + U64
  {
  }

  /** The two keys are no more than half the range apart. */
  predicate KeysClose(min: int, a: int, b: int) { -HALF <= Key(min, a) - Key(min, b) < HALF }

  /** Comparing keys is comparing virtual runtimes exactly when the keys are close. */
  lemma KeyOrderExact(min: int, a: int, b: int)
    ensures (Key(min, a) < Key(min, b) <==> Diff(a, b) < 0) <==> KeysClose(min, a, b)
  {
    KeyDiff(min, a, b);
  }

  /** So min_vruntime can move without changing their order exactly when that changes nothing
      about their being close. */
  lemma KeyOrderStable(min: int, min2: int, a: int, b: int)
    ensures (Key(min, a) < Key(min, b) <==> Key(min2, a) < Key(min2, b)) <==>
            (KeysClose(min, a, b) <==> KeysClose(min2, a, b))
  {
    KeyOrderExact(min, a, b);
    KeyOrderExact(min2, a, b);
  }

  /** It is enough that all values lie in one half of the range. */
  lemma KeyOrderInWindow(base: int, min: int, a: int, b: int)
    requires Near(base, min) && Near(base, a) && Near(base, b)
    ensures KeysClose(min, a, b) && KeysClose(min, b, a)
    ensures Key(min, a) < Key(min, b) <==> Diff(a, b) < 0
    ensures Key(min, a) <= Key(min, b) <==> Diff(a, b) <= 0
  {
    NearDiff(base, a, min);
    NearDiff(base, b, min);
    NearDiff(base, a, b);
  }

  /** Two entities half the range apart swap as min_vruntime goes from 0 to 1. */
  lemma KeyOrderFlips()
    ensures Key(0, HALF) < Key(0, 0) && Key(1, 0) < Key(1, HALF)
  {
  }

  /** Nor is it enough that values are pairwise near: three of them can go round in a circle. */
  lemma PairwiseNotEnough()
    ensures var b, c := 0x5555_5555_5555_5555, 0xAAAA_AAAA_AAAA_AAAA; Diff(0, b) < 0 && Diff(b, c) < 0 && Diff(c, 0) < 0
  {
  }

  // ------------------------------------------------------------------ the timeline

  predicate Keyed(vr: map<int, int>, q: seq<int>) { forall i :: 0 <= i < |q| ==> q[i] in vr }

  /** No entity comes before one with a smaller virtual runtime. */
  predicate Sorted(vr: map<int, int>, q: seq<int>)
    requires Keyed(vr, q)
  {
    forall i, j :: 0 <= i < j < |q| ==> Diff(vr[q[i]], vr[q[j]]) <= 0
  }

  /** The order in which the tree was built while min_vruntime was `min`. */
  predicate KeySorted(min: int, vr: map<int, int>, q: seq<int>)
    requires Keyed(vr, q)
  {
    forall i, j :: 0 <= i < j < |q| ==> Key(min, vr[q[i]]) <= Key(min, vr[q[j]])
  }

  /** It is the order of the virtual runtimes exactly when no more than half the range lies between
      the first key and the last. */
  lemma TimelineExact(min: int, vr: map<int, int>, q: seq<int>)
    requires Keyed(vr, q) && KeySorted(min, vr, q)
    ensures Sorted(vr, q) <==> q == [] || Key(min, vr[q[|q| - 1]]) - Key(min, vr[q[0]]) <= HALF
  {
    forall i, j | 0 <= i < j < |q|
      ensures Diff(vr[q[i]], vr[q[j]]) <= 0 <==> Key(min, vr[q[j]]) - Key(min, vr[q[i]]) <= HALF
      ensures Key(min, vr[q[j]]) - Key(min, vr[q[i]]) <= Key(min, vr[q[|q| - 1]]) - Key(min, vr[q[0]])
    {
      KeyDiff(min, vr[q[i]], vr[q[j]]);
    }
    if |q| > 1 { assert Sorted(vr, q) ==> Diff(vr[q[0]], vr[q[|q| - 1]]) <= 0; }
  }

  ghost predicate QueueNear(base: int, vr: map<int, int>, q: seq<int>) {
    forall i :: 0 <= i < |q| ==> q[i] in vr && Near(base, vr[q[i]])
  }

  function Insert(q: seq<int>, k: nat, se: int): seq<int>
    requires k <= |q|
  {
    q[..k] + [se] + q[k..]
  }

  lemma InsertHas(q: seq<int>, k: nat, se: int)
    requires k <= |q|
    ensures forall e :: e in Insert(q, k, se) <==> e in q || e == se
    ensures NoDup(q) && se !in q ==> NoDup(Insert(q, k, se))
  {
    assert q == q[..k] + q[k..];
  }

  /** Within the window, the order of signed differences is transitive. */
  lemma Transitive(base: int, a: int, b: int, c: int)
    requires Near(base, a) && Near(base, b) && Near(base, c) && Diff(a, b) <= 0 && Diff(b, c) <= 0
    ensures Diff(a, c) <= 0 && (Diff(a, b) < 0 ==> Diff(a, c) < 0)
  {
    NearDiff(base, a, b);
    NearDiff(base, b, c);
    NearDiff(base, a, c);
  }

  /** And min_vruntime the earlier. */
  lemma SmallerOfTwo(base: int, a: int, b: int)
    requires Near(base, a) && Near(base, b)
    ensures var m := MinVruntime(a, b);
      (m == a || m == b) && Near(base, m) && Diff(m, a) <= 0 && Diff(m, b) <= 0
  {
    NearDiff(base, a, b);
    NearDiff(base, b, a);
  }

  /** Within the window, max_vruntime is the later of its two arguments. */
  lemma LaterOfTwo(base: int, min: int, v: int)
    requires Near(base, min) && Near(base, v)
    ensures var m := MaxVruntime(min, v);
      (m == min || m == v) && Near(base, m) && Diff(m, min) >= 0 && Diff(m, v) >= 0
  {
    NearDiff(base, v, min);
    NearDiff(base, min, v);
    NearDiff(base, v, v);
    NearDiff(base, min, min);
  }

  /** se belongs between q[k - 1] and q[k], and after its equals. */
  ghost predicate Fits(vr: map<int, int>, q: seq<int>, se: int, k: nat)
    requires Keyed(vr, q) && se in vr
  {
    k <= |q| && (k > 0 ==> Diff(vr[q[k - 1]], vr[se]) <= 0) && (k < |q| ==> Diff(vr[se], vr[q[k]]) < 0)
  }

  lemma FitsAll(base: int, vr: map<int, int>, q: seq<int>, se: int, k: nat, i: nat)
    requires QueueNear(base, vr, q) && se in vr && Near(base, vr[se]) && Sorted(vr, q) && Fits(vr, q, se, k) && i < |q|
    ensures if i < k then Diff(vr[q[i]], vr[se]) <= 0 else Diff(vr[se], vr[q[i]]) < 0
  {
    if i < k - 1 { Transitive(base, vr[q[i]], vr[q[k - 1]], vr[se]); }
    if i > k { Transitive(base, vr[se], vr[q[k]], vr[q[i]]); }
  }

  /** Position k is after every entity with at most se's virtual runtime and before all the others. */
  ghost predicate AfterEquals(vr: map<int, int>, q: seq<int>, se: int, k: nat)
    requires Keyed(vr, q) && se in vr
  {
    && k <= |q| && (forall i :: 0 <= i < k ==> Diff(vr[q[i]], vr[se]) <= 0)
    && (forall i :: k <= i < |q| ==> Diff(vr[se], vr[q[i]]) < 0)
  }

  lemma FitsEverywhere(base: int, vr: map<int, int>, q: seq<int>, se: int, k: nat)
    requires QueueNear(base, vr, q) && se in vr && Near(base, vr[se]) && Sorted(vr, q) && Fits(vr, q, se, k)
    ensures AfterEquals(vr, q, se, k)
  {
    forall i: nat | i < |q|
      ensures if i < k then Diff(vr[q[i]], vr[se]) <= 0 else Diff(vr[se], vr[q[i]]) < 0
    {
      FitsAll(base, vr, q, se, k, i);
    }
  }

  lemma InsertSorted(base: int, vr: map<int, int>, q: seq<int>, se: int, k: nat)
    requires QueueNear(base, vr, q) && se in vr && Near(base, vr[se]) && Sorted(vr, q) && Fits(vr, q, se, k)
    ensures Keyed(vr, Insert(q, k, se)) && Sorted(vr, Insert(q, k, se))
  {
    var w := Insert(q, k, se);
    assert forall i :: 0 <= i < |w| ==> w[i] == if i < k then q[i] else if i == k then se else q[i - 1];
    forall i, j | 0 <= i < j < |w|
      ensures Diff(vr[w[i]], vr[w[j]]) <= 0
    {
      if i == k { FitsAll(base, vr, q, se, k, j - 1); }
      if j == k { FitsAll(base, vr, q, se, k, i); }
    }
  }

  function Remove(q: seq<int>, k: nat): seq<int>
    requires k < |q|
  {
    q[..k] + q[k + 1..]
  }

  /** Taking one entity out of the tree. */
  lemma Removed(vr: map<int, int>, q: seq<int>, k: nat)
    requires Keyed(vr, q) && NoDup(q) && Sorted(vr, q) && k < |q|
    ensures var w := Remove(q, k);
      Keyed(vr, w) && NoDup(w) && Sorted(vr, w) && forall e :: e in w <==> e in q && e != q[k]
    ensures Remove(q, k) != [] ==> Remove(q, k)[0] == if k == 0 then q[1] else q[0]
  {
    var w := Remove(q, k);
    assert q == q[..k] + [q[k]] + q[k + 1..];
    assert forall i :: 0 <= i < |w| ==> w[i] == if i < k then q[i] else q[i + 1];
  }

  /** The virtual runtimes once the running entity has been charged. */
  function Charged(vr: map<int, int>, curr: Option<int>, delta: int): map<int, int> {
    if curr.Some? && curr.value in vr then vr[curr.value := Add(vr[curr.value], delta)] else vr
  }

  // ------------------------------------------------------------------------- load

  /** The sum of the weights of a set of entities. */
  ghost function Load(w: map<int, int>, ids: set<int>): int
    requires forall e :: e in ids ==> e in w
  {
    HasElement(ids);
    if ids == {} then 0 else var e :| e in ids; w[e] + Load(w, ids - {e})
  }

  lemma {:induction false} LoadWithout(w: map<int, int>, ids: set<int>, e: int)
    requires (forall x :: x in ids ==> x in w) && e in ids
    ensures Load(w, ids) == w[e] + Load(w, ids - {e})
    decreases |ids|
  {
    var c :| c in ids && Load(w, ids) == w[c] + Load(w, ids - {c});
    if c != e {
      LoadWithout(w, ids - {c}, e);
      LoadWithout(w, ids - {e}, c);
      assert ids - {c} - {e} == ids - {e} - {c};
    }
  }

  class CfsRq {
    var vruntime: map<int, int>
    var weight: map<int, int>
    var onRq: set<int>
    var curr: Option<int>
    var timeline: seq<int>
    var leftmost: Option<int>
    var nrRunning: int
    var load: int
    var minVruntime: int

    /** Queued, or running. */
    ghost predicate Member(e: int)
      reads this
    {
      e in onRq || curr == Some(e)
    }

    /** The entities known to the queue. */
    ghost predicate Known(e: int)
      reads this
    {
      e in vruntime && U(vruntime[e]) && e in weight
    }

    /** The tree and its cached leftmost entry. */
    ghost predicate TreeOk()
      reads this
    {
      && Keyed(vruntime, timeline) && NoDup(timeline) && Sorted(vruntime, timeline)
      && leftmost == if timeline == [] then None else Some(timeline[0])
    }

    /** The tree holds exactly the queued entities other than the current one, and the counters
        are those of the queued entities. */
    ghost predicate Valid()
      reads this
    {
      && TreeOk() && U(minVruntime)
      && (forall e :: e in onRq ==> Known(e)) && (curr.Some? ==> Known(curr.value))
      && (forall e :: e in timeline <==> e in onRq && curr != Some(e))
      && Counts()
    }

    ghost predicate Counts()
      reads this
    {
      (forall e :: e in onRq ==> e in weight) && nrRunning == |onRq| && load == Load(weight, onRq)
    }

    /** All virtual runtimes in use lie within half the range, from base on. */
    ghost predicate InWindow(base: int)
      reads this
    {
      Near(base, minVruntime) && forall e :: Member(e) ==> e in vruntime && Near(base, vruntime[e])
    }

    constructor ()
      ensures Valid() && onRq == {} && curr == None && minVruntime == 0
    {
      vruntime, weight, onRq, curr, timeline, leftmost := map[], map[], {}, None, [], None;
      nrRunning, load, minVruntime := 0, 0, 0;
    }

    /** __enqueue_entity */
    method EnqueueTree(se: int, ghost base: int)
      requires TreeOk() && se in vruntime && Near(base, vruntime[se]) && Near(base, minVruntime) && se !in timeline
      requires QueueNear(base, vruntime, timeline)
      modifies this`timeline, this`leftmost
      ensures TreeOk() && (forall e :: e in timeline <==> e in old(timeline) || e == se)
      ensures exists k: nat :: AfterEquals(vruntime, old(timeline), se, k) && timeline == Insert(old(timeline), k, se)
    {
      var key := Key(minVruntime, vruntime[se]);
      var k: nat, isLeftmost := 0, true;
      while k < |timeline| && key >= Key(minVruntime, vruntime[timeline[k]])
        invariant k <= |timeline| && isLeftmost == (k == 0)
        invariant k > 0 ==> key >= Key(minVruntime, vruntime[timeline[k - 1]])
      {
        k, isLeftmost := k + 1, false;
      }
      if k > 0 { KeyOrderInWindow(base, minVruntime, vruntime[timeline[k - 1]], vruntime[se]); }
      if k < |timeline| { KeyOrderInWindow(base, minVruntime, vruntime[se], vruntime[timeline[k]]); }
      InsertSorted(base, vruntime, timeline, se, k);
      FitsEverywhere(base, vruntime, timeline, se, k);
      InsertHas(timeline, k, se);
      if isLeftmost {
        leftmost := Some(se);
      }
      timeline := Insert(timeline, k, se);
    }

    /** __dequeue_entity */
    method DequeueTree(se: int)
      requires TreeOk() && se in timeline
      modifies this`timeline, this`leftmost
      ensures TreeOk() && (forall e :: e in timeline <==> e in old(timeline) && e != se)
      ensures exists k: nat :: k < |old(timeline)| && old(timeline)[k] == se && timeline == Remove(old(timeline), k)
    {
      var k: nat :| k < |timeline| && timeline[k] == se;
      Removed(vruntime, timeline, k);
      if leftmost == Some(se) {
        leftmost := if k + 1 < |timeline| then Some(timeline[k + 1]) else None;
      }
      timeline := Remove(timeline, k);
    }

    /** rb_leftmost is the true minimum of the tree. */
    lemma LeftmostIsMin(e: int)
      requires TreeOk() && e in timeline
      ensures leftmost.Some? && leftmost.value in timeline && Diff(vruntime[leftmost.value], vruntime[e]) <= 0
    {
      var i :| 0 <= i < |timeline| && timeline[i] == e;
      assert i > 0 ==> Diff(vruntime[timeline[0]], vruntime[timeline[i]]) <= 0;
    }

    /** v is the smallest virtual runtime in use. */
    ghost predicate Smallest(v: int)
      reads this
    {
      && (exists e :: Member(e) && e in vruntime && vruntime[e] == v)
      && (forall e :: Member(e) && e in vruntime ==> Diff(v, vruntime[e]) <= 0)
    }

    /** The smallest is that of the current entity or that of the leftmost one. */
    lemma SmallestOfTwo(base: int)
      requires TreeOk() && InWindow(base) && curr.Some? && curr.value in vruntime
      requires forall e :: e in timeline <==> e in onRq && curr != Some(e)
      ensures leftmost.Some? ==> leftmost.value in vruntime && Member(leftmost.value)
      ensures var c := vruntime[curr.value];
        Smallest(if leftmost.Some? then MinVruntime(c, vruntime[leftmost.value]) else c)
    {
      var c := vruntime[curr.value];
      assert Member(curr.value);
      if leftmost.Some? {
        var l := leftmost.value;
        assert l == timeline[0] && l in timeline && Member(l);
        SmallerOfTwo(base, c, vruntime[l]);
        forall e | Member(e) && e in vruntime
          ensures Diff(MinVruntime(c, vruntime[l]), vruntime[e]) <= 0
        {
          if e != curr.value {
            LeftmostIsMin(e);
            Transitive(base, MinVruntime(c, vruntime[l]), vruntime[l], vruntime[e]);
          }
        }
      }
    }

    /** __update_curr with the weighted execution time: min_vruntime never goes back, and only ever
        moves to the smallest virtual runtime in use. */
    method UpdateCurr(delta: int, ghost base: int)
      requires Valid() && InWindow(base)
      requires curr.Some? ==> Near(base, Add(vruntime[curr.value], delta))
      modifies this`vruntime, this`minVruntime
      ensures Valid() && InWindow(base)
      ensures curr == None ==> vruntime == old(vruntime) && minVruntime == old(minVruntime)
      ensures curr.Some? ==> vruntime == old(vruntime)[curr.value := Add(old(vruntime)[curr.value], delta)]
      ensures Diff(minVruntime, old(minVruntime)) >= 0
      ensures curr.Some? ==> exists v :: Smallest(v) && minVruntime == MaxVruntime(old(minVruntime), v)
    {
      if curr == None {
        LaterOfTwo(base, minVruntime, minVruntime);
        return;
      }
      Charge(delta, base);
      AdvanceMin(base);
    }

    /** The running entity's virtual runtime; it is not in the tree. */
    method Charge(delta: int, ghost base: int)
      requires Valid() && InWindow(base) && curr.Some? && Near(base, Add(vruntime[curr.value], delta))
      modifies this`vruntime
      ensures Valid() && InWindow(base)
      ensures vruntime == old(vruntime)[curr.value := Add(old(vruntime)[curr.value], delta)]
    {
      var c := curr.value;
      vruntime := vruntime[c := Add(vruntime[c], delta)];
      assert TreeOk();
    }

    /** The new min_vruntime: the later of the old one and the smallest virtual runtime in use. */
    method AdvanceMin(ghost base: int)
      requires Valid() && InWindow(base) && curr.Some?
      modifies this`minVruntime
      ensures Valid() && InWindow(base) && Diff(minVruntime, old(minVruntime)) >= 0
      ensures exists v :: Smallest(v) && minVruntime == MaxVruntime(old(minVruntime), v)
    {
      SmallestOfTwo(base);
      var v := vruntime[curr.value];
      if leftmost.Some? {
        v := MinVruntime(v, vruntime[leftmost.value]);
      }
      assert Smallest(v);
      LaterOfTwo(base, minVruntime, v);
      minVruntime := MaxVruntime(minVruntime, v);
      assert Smallest(v);
    }

    /** account_entity_enqueue */
    method AccountEnqueue(se: int)
      requires Counts() && se in weight && se !in onRq
      modifies this`load, this`nrRunning, this`onRq
      ensures Counts() && onRq == old(onRq) + {se}
    {
      load := load + weight[se];
      nrRunning := nrRunning + 1;
      onRq := onRq + {se};
      LoadWithout(weight, onRq, se);
      assert onRq - {se} == old(onRq);
    }

    /** account_entity_dequeue */
    method AccountDequeue(se: int)
      requires Counts() && se in onRq
      modifies this`load, this`nrRunning, this`onRq
      ensures Counts() && onRq == old(onRq) - {se}
    {
      LoadWithout(weight, onRq, se);
      load := load - weight[se];
      nrRunning := nrRunning - 1;
      onRq := onRq - {se};
    }

    /** The end of place_entity for a woken entity: never placed backwards. */
    method Place(se: int, place: int, ghost base: int)
      requires Valid() && InWindow(base) && Known(se) && Near(base, vruntime[se]) && Near(base, place) && se !in onRq
      modifies this`vruntime
      ensures Valid() && InWindow(base) && vruntime == old(vruntime)[se := MaxVruntime(old(vruntime)[se], place)]
      ensures Known(se) && Near(base, vruntime[se]) && Diff(old(vruntime)[se], vruntime[se]) <= 0
    {
      NearDiff(base, vruntime[se], place);
      NearDiff(base, place, vruntime[se]);
      vruntime := vruntime[se := MaxVruntime(vruntime[se], place)];
      assert TreeOk();
    }

    /** enqueue_entity; a woken entity is placed first, and the running one does not enter the tree. */
    method EnqueueEntity(se: int, wakeup: bool, place: int, delta: int, ghost base: int)
      requires Valid() && InWindow(base) && Known(se) && se !in onRq
      requires curr.Some? ==> Near(base, Add(vruntime[curr.value], delta))
      requires Near(base, vruntime[se]) && (wakeup ==> Near(base, place))
      modifies this
      ensures Valid() && InWindow(base) && onRq == old(onRq) + {se} && curr == old(curr) && weight == old(weight)
      ensures Diff(minVruntime, old(minVruntime)) >= 0
      ensures var vr := Charged(old(vruntime), curr, delta);
        vruntime == if wakeup then vr[se := MaxVruntime(vr[se], place)] else vr
    {
      UpdateCurr(delta, base);
      if wakeup {
        Place(se, place, base);
      }
      Join(se, base);
    }

    /** The end of enqueue_entity. */
    method Join(se: int, ghost base: int)
      requires Valid() && InWindow(base) && Known(se) && Near(base, vruntime[se]) && se !in onRq
      modifies this`timeline, this`leftmost, this`load, this`nrRunning, this`onRq
      ensures Valid() && InWindow(base) && onRq == old(onRq) + {se}
    {
      if curr != Some(se) {
        assert forall i :: 0 <= i < |timeline| ==> timeline[i] in timeline && Member(timeline[i]);
        EnqueueTree(se, base);
      }
      AccountEnqueue(se);
    }

    /** dequeue_entity */
    method DequeueEntity(se: int, delta: int, ghost base: int)
      requires Valid() && InWindow(base) && se in onRq
      requires curr.Some? ==> Near(base, Add(vruntime[curr.value], delta))
      modifies this
      ensures Valid() && InWindow(base) && onRq == old(onRq) - {se} && curr == old(curr) && weight == old(weight)
      ensures Diff(minVruntime, old(minVruntime)) >= 0 && vruntime == Charged(old(vruntime), curr, delta)
    {
      UpdateCurr(delta, base);
      Leave(se, base);
    }

    /** The end of dequeue_entity. */
    method Leave(se: int, ghost base: int)
      requires Valid() && InWindow(base) && se in onRq
      modifies this`timeline, this`leftmost, this`load, this`nrRunning, this`onRq
      ensures Valid() && InWindow(base) && onRq == old(onRq) - {se}
    {
      if curr != Some(se) {
        DequeueTree(se);
      }
      AccountDequeue(se);
    }

    /** set_next_entity: the entity to run leaves the tree. */
    method SetNextEntity(se: int, ghost base: int)
      requires Valid() && InWindow(base) && curr == None && Known(se) && Near(base, vruntime[se])
      modifies this`timeline, this`leftmost, this`curr
      ensures Valid() && InWindow(base) && curr == Some(se)
    {
      if se in onRq {
        DequeueTree(se);
      }
      curr := Some(se);
    }

    /** pick_next_entity: the entity with the smallest virtual runtime, if any is queued. */
    method PickNextEntity(ghost base: int) returns (se: Option<int>)
      requires Valid() && InWindow(base) && curr == None
      modifies this`timeline, this`leftmost, this`curr
      ensures Valid() && InWindow(base) && curr == se
      ensures se == None <==> onRq == {}
      ensures se.Some? ==> se.value in onRq && forall e :: e in onRq ==> Diff(vruntime[se.value], vruntime[e]) <= 0
    {
      se := leftmost;
      if se.Some? {
        assert se.value == timeline[0] && timeline[0] in timeline;
        forall e | e in onRq
          ensures Diff(vruntime[se.value], vruntime[e]) <= 0
        {
          LeftmostIsMin(e);
        }
        SetNextEntity(se.value, base);
      } else {
        HasElement(onRq);
      }
    }

    /** put_prev_entity: if it is still queued, the entity returns to the tree. */
    method PutPrevEntity(delta: int, ghost base: int)
      requires Valid() && InWindow(base) && curr.Some? && Near(base, Add(vruntime[curr.value], delta))
      modifies this
      ensures Valid() && InWindow(base) && curr == None && onRq == old(onRq) && weight == old(weight)
      ensures Diff(minVruntime, old(minVruntime)) >= 0
      ensures vruntime == if old(curr).value in onRq then Charged(old(vruntime), old(curr), delta) else old(vruntime)
    {
      if curr.value in onRq {
        UpdateCurr(delta, base);
        ReturnToTree(base);
      }
      curr := None;
    }

    method ReturnToTree(ghost base: int)
      requires Valid() && InWindow(base) && curr.Some? && curr.value in onRq
      modifies this`timeline, this`leftmost
      ensures TreeOk() && (forall e :: e in timeline <==> e in onRq)
    {
      assert forall i :: 0 <= i < |timeline| ==> timeline[i] in timeline && Member(timeline[i]);
      EnqueueTree(curr.value, base);
    }
  }
}
