/**
 sched_clock (kernel/core/time/sched_clock.c): the latch that readers go through without
 locking, as a step machine, and the accuracy of the time it yields.
 */
module SchedClockLatch {
  import opened Wrappers
  import opened Lists

  /** The fields of struct clock_read_data, and a record as the values of its fields. */
  const FIELDS: set<int> := {0, 1, 2, 3, 4, 5}
  type Record = int -> int

  /** The sequence counter is an unsigned int. */
  const SEQ: int := 0x1_0000_0000

  /** update_clock_read_data: which copy is being stored to, with which fields done. */
  datatype Writer = Rest | Storing(copy: int, rd: Record, done: set<int>)

  /** sched_clock: the loop body with the values it has loaded so far. */
  datatype Reader = Out | Reading(start: int, got: map<int, int>)

  /** Who called sched_clock, the counts the call began and ended at, and what it computed its result from. */
  datatype Return = Return(reader: int, start: int, end: int, got: map<int, int>)

  /** `count` is the sequence counter without its wrap-around; `published` records every
      record that readers were steered to. */
  datatype State = State(
    count: int, data: int -> Record, writer: Writer, reader: int -> Reader,
    published: seq<Record>, returned: seq<Return>)

  datatype Event = Update(rd: Record) | Store(f: int) | Latch | Begin(r: int) | Load(r: int, f: int) | Check(r: int)

  /** The copy a reader uses that has read the counter as n. */
  function Copy(n: int): int { n % 2 }

  predicate Enabled(s: State, e: Event) {
    match e
    case Update(_) => s.writer.Rest?
    case Store(f) => s.writer.Storing? && f in FIELDS && f !in s.writer.done
    case Latch => s.writer.Storing? && s.writer.done == FIELDS
    case Begin(r) => s.reader(r).Out?
    case Load(r, f) => s.reader(r).Reading? && f in FIELDS
    case Check(r) => s.reader(r).Reading? && s.reader(r).got.Keys == FIELDS
  }

  function Step(s: State, e: Event): State
    requires Enabled(s, e)
  {
    match e
    case Update(rd) => s.(writer := Storing(1, rd, {}))
    case Store(f) =>
      var w := s.writer;
      s.(writer := w.(done := w.done + {f}), data := Set(s.data, w.copy, Set(s.data(w.copy), f, w.rd(f))))
    case Latch =>
      if s.writer.copy == 1
      then s.(count := s.count + 1, writer := Storing(0, s.writer.rd, {}), published := s.published + [s.writer.rd])
      else s.(count := s.count + 1, writer := Rest)
    case Begin(r) => s.(reader := Set(s.reader, r, Reading(s.count, map[])))
    case Load(r, f) =>
      var p := s.reader(r);
      s.(reader := Set(s.reader, r, p.(got := p.got[f := s.data(Copy(p.start))(f)])))
    case Check(r) =>
      var p := s.reader(r);
      if s.count % SEQ == p.start % SEQ
      then s.(reader := Set(s.reader, r, Out), returned := s.returned + [Return(r, p.start, s.count, p.got)])
      else s.(reader := Set(s.reader, r, Reading(s.count, map[])))
  }

  /** The even copy holds a record and nobody is reading. */
  ghost predicate Init(s: State) {
    && s.count == 0 && s.writer == Rest && s.returned == [] && (forall r: int :: s.reader(r) == Out)
    && |s.published| == 1 && forall f :: f in FIELDS ==> s.data(0)(f) == s.published[0](f)
  }

  ghost predicate IsRun(s: State, es: seq<Event>)
    decreases |es|
  {
    es == [] || (Enabled(s, es[0]) && IsRun(Step(s, es[0]), es[1..]))
  }

  ghost function After(s: State, es: seq<Event>): State
    requires IsRun(s, es)
    decreases |es|
  {
    if es == [] then s else After(Step(s, es[0]), es[1..])
  }

  /** The record that readers are steered to at count n. */
  function Current(n: int): int { (n + 1) / 2 }

  ghost predicate Holds(s: State, copy: int, k: int) {
    0 <= k < |s.published| && forall f :: f in FIELDS ==> s.data(copy)(f) == s.published[k](f)
  }

  /** The copy readers are steered to is complete; the writer is at work on the other one. */
  ghost predicate WriterOk(s: State) {
    && s.count >= 0 && |s.published| == Current(s.count) + 1 && Holds(s, Copy(s.count), Current(s.count))
    && match s.writer
       case Rest => s.count % 2 == 0
       case Storing(copy, rd, done) =>
         && copy == 1 - s.count % 2
         && (forall f :: f in done ==> s.data(copy)(f) == rd(f))
         && (copy == 0 ==> s.published[Current(s.count)] == rd)
  }

  /** Everything loaded is from record k. */
  ghost predicate From(published: seq<Record>, k: int, got: map<int, int>) {
    0 <= k < |published| && forall f :: f in got ==> got[f] == published[k](f)
  }

  /** As long as the count stands where the reader began, all it has is from the current record. */
  ghost predicate ReaderOk(s: State, p: Reader) {
    p.Reading? ==>
      && 0 <= p.start <= s.count && p.got.Keys <= FIELDS
      && (p.start == s.count ==> From(s.published, Current(p.start), p.got))
  }

  /** A result stems from one published record, unless the counter came round in between. */
  ghost predicate ReturnOk(s: State, t: Return) {
    && 0 <= t.start <= t.end <= s.count && t.got.Keys == FIELDS && t.end % SEQ == t.start % SEQ
    && (t.end - t.start < SEQ ==> t.end == t.start && From(s.published, Current(t.start), t.got))
  }

  ghost predicate Inv(s: State) {
    && WriterOk(s)
    && (forall r :: ReaderOk(s, s.reader(r)))
    && (forall i :: 0 <= i < |s.returned| ==> ReturnOk(s, s.returned[i]))
  }

  lemma WriterKeeps(s: State, e: Event)
    requires WriterOk(s) && Enabled(s, e)
    ensures WriterOk(Step(s, e))
  {
  }

  /** Other steps do not disturb a reader that has not seen the count move. */
  lemma ReadersKeep(s: State, e: Event, r: int)
    requires WriterOk(s) && Enabled(s, e) && ReaderOk(s, s.reader(r))
    ensures ReaderOk(Step(s, e), Step(s, e).reader(r))
  {
  }

  lemma SameRemainder(a: int, b: int)
    requires a <= b < a + SEQ && a % SEQ == b % SEQ
    ensures a == b
  {
  }

  lemma ReturnsKeep(s: State, e: Event, t: Return)
    requires ReturnOk(s, t) && Enabled(s, e)
    ensures ReturnOk(Step(s, e), t)
  {
  }

  lemma StepKeepsInv(s: State, e: Event)
    requires Inv(s) && Enabled(s, e)
    ensures Inv(Step(s, e))
  {
    var s2 := Step(s, e);
    WriterKeeps(s, e);
    forall r
      ensures ReaderOk(s2, s2.reader(r))
    {
      assert ReaderOk(s, s.reader(r));
      ReadersKeep(s, e, r);
    }
    forall i | 0 <= i < |s2.returned|
      ensures ReturnOk(s2, s2.returned[i])
    {
      if i < |s.returned| {
        assert ReturnOk(s, s.returned[i]);
        ReturnsKeep(s, e, s.returned[i]);
      } else {
        var p := s.reader(e.r);
        assert ReaderOk(s, p);
        if s.count - p.start < SEQ { SameRemainder(p.start, s.count); }
      }
    }
  }

  lemma {:induction false} RunKeepsInv(s: State, es: seq<Event>)
    requires Inv(s) && IsRun(s, es)
    ensures Inv(After(s, es))
    decreases |es|
  {
    if es != [] {
      StepKeepsInv(s, es[0]);
      RunKeepsInv(Step(s, es[0]), es[1..]);
    }
  }

  /** A sched_clock that returns has used one published record, never a mix, as long as fewer
      than 2^32 latch steps fell between its first and its last read of the counter. */
  lemma NeverAMix(s0: State, es: seq<Event>, i: int)
    requires Init(s0) && IsRun(s0, es)
    requires var s := After(s0, es); 0 <= i < |s.returned| && s.returned[i].end - s.returned[i].start < SEQ
    ensures var s, t := After(s0, es), After(s0, es).returned[i];
      t.got.Keys == FIELDS && From(s.published, Current(t.start), t.got)
  {
    RunKeepsInv(s0, es);
    assert ReturnOk(After(s0, es), After(s0, es).returned[i]);
  }

  // ---------------------------------------------------------------- calls and updates

  /** How often a reader calls sched_clock, and how often it returns. */
  function BeginsOf(es: seq<Event>, r: int): nat
    decreases |es|
  {
    if es == [] then 0 else (if es[0] == Begin(r) then 1 else 0) + BeginsOf(es[1..], r)
  }

  function ReturnsOf(q: seq<Return>, r: int): nat {
    if q == [] then 0 else ReturnsOf(q[..|q| - 1], r) + if q[|q| - 1].reader == r then 1 else 0
  }

  function Open(s: State, r: int): nat { if s.reader(r).Reading? then 1 else 0 }

  lemma StepCalls(s: State, e: Event, r: int)
    requires Enabled(s, e)
    ensures ReturnsOf(Step(s, e).returned, r) + Open(Step(s, e), r) ==
            ReturnsOf(s.returned, r) + Open(s, r) + if e == Begin(r) then 1 else 0
  {
    var q := Step(s, e).returned;
    assert q != s.returned ==> q[..|q| - 1] == s.returned;
  }

  /** In every run, a reader returns once for each call, and is in at most one. */
  lemma {:induction false} ReturnsOnce(s: State, es: seq<Event>, r: int)
    requires IsRun(s, es)
    ensures ReturnsOf(After(s, es).returned, r) + Open(After(s, es), r) ==
            ReturnsOf(s.returned, r) + Open(s, r) + BeginsOf(es, r)
    decreases |es|
  {
    if es != [] {
      StepCalls(s, es[0], r);
      ReturnsOnce(Step(s, es[0]), es[1..], r);
    }
  }

  /** The records given to update_clock_read_data, in order. */
  function Updates(es: seq<Event>): seq<Record>
    decreases |es|
  {
    if es == [] then [] else (if es[0].Update? then [es[0].rd] else []) + Updates(es[1..])
  }

  /** A record that is being stored and that readers are not yet steered to. */
  function Pending(s: State): seq<Record> {
    if s.writer.Storing? && s.writer.copy == 1 then [s.writer.rd] else []
  }

  lemma StepPublishes(s: State, e: Event)
    requires Enabled(s, e) && (s.writer.Storing? ==> s.writer.copy == 0 || s.writer.copy == 1)
    ensures var s2 := Step(s, e);
      && s2.published + Pending(s2) == s.published + Pending(s) + (if e.Update? then [e.rd] else [])
      && (s2.writer.Storing? ==> s2.writer.copy == 0 || s2.writer.copy == 1)
  {
  }

  lemma Associative(a: seq<Record>, b: seq<Record>, c: seq<Record>)
    ensures a + b + c == a + (b + c)
  {
  }

  /** In every run, the records that readers are steered to are those given to the updates, in that
      order; all but the one that is just being stored. */
  lemma {:induction false} PublishedInOrder(s: State, es: seq<Event>)
    requires IsRun(s, es) && (s.writer.Storing? ==> s.writer.copy == 0 || s.writer.copy == 1)
    ensures After(s, es).published + Pending(After(s, es)) == s.published + Pending(s) + Updates(es)
    decreases |es|
  {
    if es != [] {
      var s2, first := Step(s, es[0]), if es[0].Update? then [es[0].rd] else [];
      StepPublishes(s, es[0]);
      PublishedInOrder(s2, es[1..]);
      Associative(s.published + Pending(s), first, Updates(es[1..]));
    }
  }

  // ------------------------------------------------------- when the counter comes round

  lemma {:induction false} Extend(s: State, es: seq<Event>, e: Event)
    requires IsRun(s, es) && Enabled(After(s, es), e)
    ensures IsRun(s, es + [e]) && After(s, es + [e]) == Step(After(s, es), e)
    decreases |es|
  {
    if es == [] {
      assert es + [e] == [e];
      assert [e][1..] == [];
    } else {
      Extend(Step(s, es[0]), es[1..], e);
      assert (es + [e])[1..] == es[1..] + [e];
    }
  }

  function Ones(): Record { f => 1 }

  /** A run to a state in which a reader has loaded field 0 from before, and only field 0, and
      n updates to all ones have gone by since. */
  ghost predicate Waiting(s: State, n: int) {
    && n >= 0 && s.count == 2 * n && s.writer == Rest && s.reader(0) == Reading(0, map[0 := 0]) && s.returned == []
    && (n > 0 ==> forall f :: f in FIELDS ==> s.data(0)(f) == 1)
    && |s.published| == n + 1 && (forall k :: 0 < k <= n ==> s.published[k] == Ones())
    && (forall f :: f in FIELDS ==> s.published[0](f) == 0)
  }

  ghost predicate Stored(s: State, s2: State, copy: int, done: set<int>) {
    && s2.writer == Storing(copy, Ones(), done) && (forall f :: f in done ==> s2.data(copy)(f) == 1)
    && s2.count == s.count && s2.reader == s.reader && s2.published == s.published && s2.returned == s.returned
  }

  lemma StoreAll(s0: State, es0: seq<Event>, copy: int) returns (es: seq<Event>)
    requires IsRun(s0, es0) && After(s0, es0).writer == Storing(copy, Ones(), {})
    ensures IsRun(s0, es) && Stored(After(s0, es0), After(s0, es), copy, FIELDS)
  {
    es := es0;
    var done: set<int> := {};
    for f := 0 to 6
      invariant done == set x | x in FIELDS && x < f
      invariant IsRun(s0, es) && Stored(After(s0, es0), After(s0, es), copy, done)
    {
      Extend(s0, es, Store(f));
      es, done := es + [Store(f)], done + {f};
    }
    assert done == FIELDS;
  }

  lemma OneUpdate(s0: State, es0: seq<Event>, n: int) returns (es: seq<Event>)
    requires IsRun(s0, es0) && n >= 0 && Waiting(After(s0, es0), n)
    ensures IsRun(s0, es) && Waiting(After(s0, es), n + 1)
  {
    Extend(s0, es0, Update(Ones()));
    es := StoreAll(s0, es0 + [Update(Ones())], 1);
    Extend(s0, es, Latch);
    es := StoreAll(s0, es + [Latch], 0);
    Extend(s0, es, Latch);
    es := es + [Latch];
  }

  lemma ManyUpdates(s0: State, es0: seq<Event>, n: nat) returns (es: seq<Event>)
    requires IsRun(s0, es0) && Waiting(After(s0, es0), 0)
    ensures IsRun(s0, es) && Waiting(After(s0, es), n)
  {
    es := es0;
    for k := 0 to n
      invariant IsRun(s0, es) && Waiting(After(s0, es), k)
    {
      es := OneUpdate(s0, es, k);
    }
  }

  /** The reader goes on to load the other fields. */
  lemma LoadRest(s0: State, es0: seq<Event>, n: int) returns (es: seq<Event>, got: map<int, int>)
    requires IsRun(s0, es0) && n > 0 && Waiting(After(s0, es0), n)
    ensures IsRun(s0, es) && After(s0, es) == After(s0, es0).(reader := After(s0, es).reader)
    ensures After(s0, es).reader(0) == Reading(0, got) && got.Keys == FIELDS && got[0] == 0 && got[1] == 1
  {
    es, got := es0, map[0 := 0];
    for f := 1 to 6
      invariant IsRun(s0, es) && After(s0, es) == After(s0, es0).(reader := After(s0, es).reader)
      invariant After(s0, es).reader(0) == Reading(0, got)
      invariant got.Keys == (set x | x in FIELDS && x < f) && got[0] == 0 && (f > 1 ==> got[1] == 1)
    {
      Extend(s0, es, Load(0, f));
      es, got := es + [Load(0, f)], got[f := 1];
    }
    assert got.Keys == FIELDS;
  }

  /** The bound is sharp: when exactly 2^32 latch steps go by, a reader can return a mix. */
  lemma MixAfterWrap(s0: State) returns (es: seq<Event>)
    requires Init(s0) && forall f :: f in FIELDS ==> s0.published[0](f) == 0
    ensures IsRun(s0, es)
    ensures var s := After(s0, es);
      && |s.returned| == 1 && s.returned[0].end - s.returned[0].start == SEQ
      && forall k :: !From(s.published, k, s.returned[0].got)
  {
    es := [];
    Extend(s0, es, Begin(0));
    es := es + [Begin(0)];
    Extend(s0, es, Load(0, 0));
    es := es + [Load(0, 0)];
    var m := SEQ / 2;
    es := ManyUpdates(s0, es, m);
    var s1 := After(s0, es);
    var got;
    es, got := LoadRest(s0, es, m);
    Extend(s0, es, Check(0));
    es := es + [Check(0)];
    assert After(s0, es).returned[0] == Return(0, 0, SEQ, got);
    assert 0 in got && 1 in got;
  }
}

/** The time that sched_clock yields, against the exact conversion of the cycle count. */
module SchedClockTime {
  import opened Bits
  import opened Clocks

  /** A counter of `bits` bits, and the conversion factors. */
  datatype Source = Source(bits: nat, mult: nat, shift: nat)

  predicate SourceOk(p: Source) { 0 < p.bits <= 64 && 0 < p.mult < U32 && p.shift <= 32 }

  function Rem(c: nat, d: nat): (r: nat)
    requires d > 0
    ensures r < d && c == Quot(c, d) * d + r
  {
    QuotBounds(c, d);
    c - Quot(c, d) * d
  }

  /** What the hardware shows when its true count is c. */
  function Counter(p: Source, c: nat): nat { Rem(c, Pow2(p.bits)) }

  /** The cycles since the epoch: subtraction in 64 bits, then the counter's mask. */
  function Elapsed(p: Source, now: nat, epoch: nat): nat {
    And((Counter(p, now) - Counter(p, epoch)) % U64, Pow2(p.bits) - 1)
  }

  /** What sched_clock returns at true count `now` for an epoch at true count `epoch`. */
  function ReadAt(p: Source, ns: nat, epoch: nat, now: nat): nat {
    Wrap64(ns + Cyc2Ns(Elapsed(p, now, epoch), p.mult, p.shift))
  }

  /** The true count at the last update. */
  function LastEpoch(c0: nat, ups: seq<nat>): nat {
    if ups == [] then c0 else ups[|ups| - 1]
  }

  /** The epoch_ns that update_sched_clock has arrived at after updates at these counts. */
  function EpochNs(p: Source, ns0: nat, c0: nat, ups: seq<nat>): nat
    decreases |ups|
  {
    if ups == [] then ns0
    else
      var before := ups[..|ups| - 1];
      ReadAt(p, EpochNs(p, ns0, c0, before), LastEpoch(c0, before), ups[|ups| - 1])
  }

  /** The scaled nanoseconds from one count to a later one. */
  function Ticks(p: Source, a: nat, b: nat): nat
    requires a <= b
  {
    MulLe(0, b - a, p.mult);
    (b - a) * p.mult
  }

  lemma TicksAdd(p: Source, a: nat, b: nat, c: nat)
    requires a <= b <= c
    ensures Ticks(p, a, c) == Ticks(p, a, b) + Ticks(p, b, c)
  {
  }

  /** The counter has not wrapped since the epoch, and the product fits in 64 bits. */
  predicate GapOk(p: Source, epoch: nat, now: nat) {
    epoch <= now && now - epoch < Pow2(p.bits) && Ticks(p, epoch, now) < U64
  }

  predicate Paced(p: Source, c0: nat, ups: seq<nat>)
    decreases |ups|
  {
    ups == [] ||
    (var before := ups[..|ups| - 1]; Paced(p, c0, before) && GapOk(p, LastEpoch(c0, before), ups[|ups| - 1]))
  }

  // ------------------------------------------------------------ masked subtraction

  /** Masking with 2^k - 1 keeps the remainder by 2^k. */
  lemma {:induction false} MaskKeeps(x: nat, k: nat, q: nat, r: nat)
    requires r < Pow2(k) && x == q * Pow2(k) + r
    ensures And(x, Pow2(k) - 1) == r
    decreases k
  {
    if k > 0 {
      var h := Pow2(k - 1);
      assert q * (2 * h) == 2 * (q * h);
      var qh := q * h;
      assert x / 2 == qh + r / 2 && x % 2 == r % 2;
      MaskKeeps(x / 2, k - 1, q, r / 2);
      assert (2 * h - 1) / 2 == h - 1 && (2 * h - 1) % 2 == 1;
    }
  }

  lemma NextBlock(qa: nat, qb: nat, m: nat)
    ensures qb == qa ==> qb * m == qa * m
    ensures qb == qa + 1 ==> qb * m == qa * m + m
  {
  }

  lemma SameBlock(qa: nat, ra: nat, qb: nat, rb: nat, m: nat)
    requires ra < m && rb < m && qa * m + ra <= qb * m + rb < qa * m + ra + m
    ensures if ra <= rb then qb == qa else qb == qa + 1
  {
    if qb < qa { MulMono(qb, qa, m); }
    if qa < qb { MulMono(qa, qb, m); }
    assert (qa + 1) * m == qa * m + m;
    if qa + 1 < qb { MulMono(qa + 1, qb, m); }
  }

  lemma WholeRanges(bits: nat)
    requires bits <= 64
    ensures Pow2(64 - bits) * Pow2(bits) == U64
  {
    WordSizes();
    Pow2Add(64 - bits, bits);
  }

  lemma RangeFits(bits: nat)
    requires bits <= 64
    ensures Pow2(bits) <= U64
  {
    WordSizes();
    Pow2Mono(bits, 64);
  }

  lemma Sub64(x: nat, y: nat)
    requires x < U64 && y < U64
    ensures (x - y) % U64 == if y <= x then x - y else U64 + x - y
  {
  }

  /** A difference below zero, in a word that holds k times the counter's range, and masked. */
  lemma MaskedBelowZero(x: nat, bits: nat, k: nat, word: nat)
    requires 0 < x < Pow2(bits) <= word && word == k * Pow2(bits)
    ensures And(word - x, Pow2(bits) - 1) == Pow2(bits) - x
  {
    var m := Pow2(bits);
    assert (k - 1) * m == k * m - m;
    MaskKeeps(word - x, bits, k - 1, m - x);
  }

  /** Subtracting in 64 bits and masking is subtracting modulo the counter's range. */
  lemma MaskedDifference(ra: nat, rb: nat, bits: nat)
    requires bits <= 64 && ra < Pow2(bits) && rb < Pow2(bits)
    ensures And((rb - ra) % U64, Pow2(bits) - 1) == if ra <= rb then rb - ra else Pow2(bits) + rb - ra
  {
    var m := Pow2(bits);
    RangeFits(bits);
    Sub64(rb, ra);
    if ra <= rb {
      MaskKeeps(rb - ra, bits, 0, rb - ra);
    } else {
      WholeRanges(bits);
      MaskedBelowZero(ra - rb, bits, Pow2(64 - bits), U64);
    }
  }

  /** The masked difference of what the counter showed is the true difference. */
  lemma ElapsedExact(p: Source, epoch: nat, now: nat)
    requires SourceOk(p) && epoch <= now < epoch + Pow2(p.bits)
    ensures Elapsed(p, now, epoch) == now - epoch
  {
    var m := Pow2(p.bits);
    var qa, qb, ra, rb := Quot(epoch, m), Quot(now, m), Counter(p, epoch), Counter(p, now);
    SameBlock(qa, ra, qb, rb, m);
    MaskedDifference(ra, rb, p.bits);
    NextBlock(qa, qb, m);
  }

  // ----------------------------------------------------------------------- accuracy

  lemma ReadExact(p: Source, ns: nat, epoch: nat, now: nat)
    requires SourceOk(p) && GapOk(p, epoch, now) && ns + Shr(Ticks(p, epoch, now), p.shift) < U64
    ensures ReadAt(p, ns, epoch, now) == ns + Shr(Ticks(p, epoch, now), p.shift)
  {
    ElapsedExact(p, epoch, now);
    Wrap64Same(Ticks(p, epoch, now));
    Wrap64Same(ns + Shr(Ticks(p, epoch, now), p.shift));
  }

  /** t trails the exact time of count `now` by less than k nanoseconds and does not lead it. */
  predicate Trails(p: Source, ns0: nat, c0: nat, now: nat, t: nat, k: nat) {
    c0 <= now && ns0 <= t && (t - ns0) * Pow2(p.shift) <= Ticks(p, c0, now) &&
    (k > 0 ==> Ticks(p, c0, now) < (t - ns0 + k) * Pow2(p.shift)) &&
    (k == 0 ==> Ticks(p, c0, now) == (t - ns0) * Pow2(p.shift))
  }

  /** The 64-bit nanosecond count has not overflowed by then. */
  predicate NsFits(p: Source, ns0: nat, c0: nat, now: nat) {
    c0 <= now && ns0 + Shr(Ticks(p, c0, now), p.shift) < U64
  }

  /** A time that does not lead has not overflowed either. */
  lemma TrailsFits(p: Source, ns0: nat, c0: nat, now: nat, t: nat)
    requires NsFits(p, ns0, c0, now) && ns0 <= t && (t - ns0) * Pow2(p.shift) <= Ticks(p, c0, now)
    ensures t < U64
  {
    var x, d := Ticks(p, c0, now), Pow2(p.shift);
    QuotIs((t - ns0) * d, d, t - ns0);
    QuotMono((t - ns0) * d, x, d);
  }

  lemma SumBounds(u: nat, q: nat, k: nat, d: nat, x0: nat, x: nat)
    requires u * d <= x0 && (if k == 0 then x0 == u * d else x0 < (u + k) * d) && q * d <= x < q * d + d
    ensures (u + q) * d <= x0 + x < (u + q + k + 1) * d
  {
    assert (u + q) * d == u * d + q * d;
    assert (u + q + k + 1) * d == (u + k) * d + q * d + d;
  }

  /** One more conversion from an epoch that trails by less than k trails by less than k + 1. */
  lemma OneMore(p: Source, ns0: nat, c0: nat, epoch: nat, ns: nat, k: nat, now: nat)
    requires SourceOk(p) && Trails(p, ns0, c0, epoch, ns, k) && GapOk(p, epoch, now) && NsFits(p, ns0, c0, now)
    ensures Trails(p, ns0, c0, now, ReadAt(p, ns, epoch, now), k + 1)
  {
    var d, x := Pow2(p.shift), Ticks(p, epoch, now);
    QuotBounds(x, d);
    TicksAdd(p, c0, epoch, now);
    SumBounds(ns - ns0, Quot(x, d), k, d, Ticks(p, c0, epoch), x);
    TrailsFits(p, ns0, c0, now, ns + Quot(x, d));
    ReadExact(p, ns, epoch, now);
  }

  lemma FitsEarlier(p: Source, ns0: nat, c0: nat, c: nat, now: nat)
    requires NsFits(p, ns0, c0, now) && c0 <= c <= now
    ensures NsFits(p, ns0, c0, c)
  {
    MulLe(c - c0, now - c0, p.mult);
    QuotMono(Ticks(p, c0, c), Ticks(p, c0, now), Pow2(p.shift));
  }

  lemma {:induction false} EpochTrails(p: Source, ns0: nat, c0: nat, ups: seq<nat>)
    requires SourceOk(p) && Paced(p, c0, ups) && NsFits(p, ns0, c0, LastEpoch(c0, ups))
    ensures Trails(p, ns0, c0, LastEpoch(c0, ups), EpochNs(p, ns0, c0, ups), |ups|)
    decreases |ups|
  {
    if ups != [] {
      var before, last := ups[..|ups| - 1], ups[|ups| - 1];
      PacedGrows(p, c0, before);
      FitsEarlier(p, ns0, c0, LastEpoch(c0, before), last);
      EpochTrails(p, ns0, c0, before);
      OneMore(p, ns0, c0, LastEpoch(c0, before), EpochNs(p, ns0, c0, before), |before|, last);
    }
  }

  lemma {:induction false} PacedGrows(p: Source, c0: nat, ups: seq<nat>)
    requires Paced(p, c0, ups)
    ensures c0 <= LastEpoch(c0, ups)
    decreases |ups|
  {
    if ups != [] { PacedGrows(p, c0, ups[..|ups| - 1]); }
  }

  /** After k updates, none of them a counter wrap late, sched_clock trails the exact
      conversion by less than k + 1 nanoseconds and never leads it. */
  lemma Accuracy(p: Source, ns0: nat, c0: nat, ups: seq<nat>, now: nat)
    requires SourceOk(p) && Paced(p, c0, ups) && GapOk(p, LastEpoch(c0, ups), now) && NsFits(p, ns0, c0, now)
    ensures var t := ReadAt(p, EpochNs(p, ns0, c0, ups), LastEpoch(c0, ups), now);
      && ns0 <= t && (t - ns0) * Pow2(p.shift) <= Ticks(p, c0, now)
      && Ticks(p, c0, now) < (t - ns0 + |ups| + 1) * Pow2(p.shift)
  {
    ReadTrails(p, ns0, c0, ups, now);
  }

  lemma ReadTrails(p: Source, ns0: nat, c0: nat, ups: seq<nat>, now: nat)
    requires SourceOk(p) && Paced(p, c0, ups) && GapOk(p, LastEpoch(c0, ups), now) && NsFits(p, ns0, c0, now)
    ensures Trails(p, ns0, c0, now, ReadAt(p, EpochNs(p, ns0, c0, ups), LastEpoch(c0, ups), now), |ups| + 1)
  {
    PacedGrows(p, c0, ups);
    FitsEarlier(p, ns0, c0, LastEpoch(c0, ups), now);
    EpochTrails(p, ns0, c0, ups);
    OneMore(p, ns0, c0, LastEpoch(c0, ups), EpochNs(p, ns0, c0, ups), |ups|, now);
  }

  /** `now` is at most twice the update period after the epoch, by the converted time. */
  predicate InTime(p: Source, epoch: nat, now: nat, period: nat) {
    epoch <= now && Ticks(p, epoch, now) <= 2 * period * Pow2(p.shift)
  }

  lemma TwiceHalf(x: nat)
    ensures 2 * Shr(x, 1) <= x
  {
    assert Pow2(1) == 2;
    QuotBounds(x, 2);
  }

  lemma CancelMult(a: nat, b: nat, m: nat)
    requires m > 0 && a * m <= b * m
    ensures a <= b
  {
    if b < a { MulMono(b, a, m); }
  }

  /** The period that sched_clock_register sets, the maximum deferment, leaves room for an update
      that comes a whole period late: the counter has not wrapped and nothing overflows. */
  lemma PeriodKeepsRange(p: Source, epoch: nat, now: nat, period: nat, maxCycles: nat)
    requires SourceOk(p) && Deferment(p.mult, p.shift, 0, Pow2(p.bits) - 1, period, maxCycles)
    requires InTime(p, epoch, now, period)
    ensures GapOk(p, epoch, now)
  {
    Wrap32Same(p.mult);
    PeriodInCycles(maxCycles, p.mult, p.shift, period);
    CancelMult(now - epoch, maxCycles, p.mult);
  }

  lemma PeriodInCycles(cycles: nat, mult: nat, shift: nat, period: nat)
    requires cycles * mult < U64 && period == Shr(Cyc2Ns(cycles, mult, shift), 1)
    ensures 2 * period * Pow2(shift) <= cycles * mult
  {
    var x, d := cycles * mult, Pow2(shift);
    Wrap64Same(x);
    TwiceHalf(Quot(x, d));
    MulLe(2 * period, Quot(x, d), d);
    QuotBounds(x, d);
  }

  predicate UpdatesInTime(p: Source, c0: nat, ups: seq<nat>, period: nat)
    decreases |ups|
  {
    ups == [] ||
    (var before := ups[..|ups| - 1];
     UpdatesInTime(p, c0, before, period) && InTime(p, LastEpoch(c0, before), ups[|ups| - 1], period))
  }

  lemma {:induction false} PeriodKeepsPace(p: Source, c0: nat, ups: seq<nat>, period: nat, maxCycles: nat)
    requires SourceOk(p) && Deferment(p.mult, p.shift, 0, Pow2(p.bits) - 1, period, maxCycles)
    requires UpdatesInTime(p, c0, ups, period)
    ensures Paced(p, c0, ups)
    decreases |ups|
  {
    if ups != [] {
      var before := ups[..|ups| - 1];
      PeriodKeepsPace(p, c0, before, period, maxCycles);
      PeriodKeepsRange(p, LastEpoch(c0, before), ups[|ups| - 1], period, maxCycles);
    }
  }

  /** So the accuracy holds for every run whose updates, due every period, are less than a period late. */
  lemma RegisteredAccuracy(p: Source, ns0: nat, c0: nat, ups: seq<nat>, now: nat, period: nat, maxCycles: nat)
    requires SourceOk(p) && Deferment(p.mult, p.shift, 0, Pow2(p.bits) - 1, period, maxCycles)
    requires UpdatesInTime(p, c0, ups, period) && InTime(p, LastEpoch(c0, ups), now, period) && NsFits(p, ns0, c0, now)
    ensures var t := ReadAt(p, EpochNs(p, ns0, c0, ups), LastEpoch(c0, ups), now);
      && ns0 <= t && (t - ns0) * Pow2(p.shift) <= Ticks(p, c0, now)
      && Ticks(p, c0, now) < (t - ns0 + |ups| + 1) * Pow2(p.shift)
  {
    PeriodKeepsPace(p, c0, ups, period, maxCycles);
    PeriodKeepsRange(p, LastEpoch(c0, ups), now, period, maxCycles);
    Accuracy(p, ns0, c0, ups, now);
  }

  // -------------------------------------------------------------------- monotonicity

  /** A reading taken no later than the update, from the old epoch, is never ahead of one taken
      no earlier than the update, from the new epoch. */
  lemma MonotoneAcrossUpdate(p: Source, ns: nat, epoch: nat, up: nat, early: nat, late: nat)
    requires SourceOk(p) && epoch <= early <= up <= late && GapOk(p, epoch, up) && GapOk(p, up, late)
    requires ns + Shr(Ticks(p, epoch, up), p.shift) + Shr(Ticks(p, up, late), p.shift) < U64
    ensures ReadAt(p, ns, epoch, early) <= ReadAt(p, ReadAt(p, ns, epoch, up), up, late)
  {
    MulLe(early - epoch, up - epoch, p.mult);
    QuotMono(Ticks(p, epoch, early), Ticks(p, epoch, up), Pow2(p.shift));
    ReadExact(p, ns, epoch, early);
    ReadExact(p, ns, epoch, up);
    ReadExact(p, ReadAt(p, ns, epoch, up), up, late);
  }

  function Fraction(x: nat, d: nat): int
    requires d > 0
  {
    x - Quot(x, d) * d
  }

  lemma QuotSum(x: nat, y: nat, d: nat)
    requires d > 0
    ensures Quot(x + y, d) == Quot(x, d) + Quot(y, d) + if Fraction(x, d) + Fraction(y, d) >= d then 1 else 0
  {
    QuotBounds(x, d);
    QuotBounds(y, d);
    var q := Quot(x, d) + Quot(y, d);
    assert q * d == Quot(x, d) * d + Quot(y, d) * d;
    assert (q + 1) * d == q * d + d;
    QuotIs(x + y, d, q);
    QuotIs(x + y, d, q + 1);
  }

  /** Two readings at the same count after an update, one still from the old epoch: the new one
      is behind by one nanosecond exactly when the two cut-off fractions add up to a whole one. */
  lemma NewEpochBehind(p: Source, ns: nat, epoch: nat, up: nat, now: nat)
    requires SourceOk(p) && epoch <= up <= now && GapOk(p, epoch, now)
    requires ns + Shr(Ticks(p, epoch, now), p.shift) < U64
    ensures ReadAt(p, ReadAt(p, ns, epoch, up), up, now) == ReadAt(p, ns, epoch, now) -
      if Fraction(Ticks(p, epoch, up), Pow2(p.shift)) + Fraction(Ticks(p, up, now), Pow2(p.shift)) >= Pow2(p.shift)
      then 1 else 0
  {
    var x, y := Ticks(p, epoch, up), Ticks(p, up, now);
    TicksAdd(p, epoch, up, now);
    QuotSum(x, y, Pow2(p.shift));
    ReadExact(p, ns, epoch, up);
    ReadExact(p, ns, epoch, now);
    ReadExact(p, ReadAt(p, ns, epoch, up), up, now);
  }

  /** So time can step back: a 2 GHz counter, an update at count 1, and two readings at count 2,
      the first still from the old epoch. */
  lemma StepsBack(p: Source)
    requires SourceOk(p) && p.bits >= 2 && MultShift(2_000_000_000, 1_000_000_000, 3600, p.mult, p.shift)
    ensures ReadAt(p, 0, 0, 2) == 1 && ReadAt(p, ReadAt(p, 0, 0, 1), 1, 2) == 0
  {
    TwoGigahertz(p.mult, p.shift);
    HalfStepsBack(p);
  }

  lemma HalfStepsBack(p: Source)
    requires SourceOk(p) && p.bits >= 2 && p.shift > 0 && p.mult == Pow2(p.shift - 1)
    ensures ReadAt(p, 0, 0, 2) == 1 && ReadAt(p, ReadAt(p, 0, 0, 1), 1, 2) == 0
  {
    var d := Pow2(p.shift);
    assert Pow2(p.bits) == 2 * Pow2(p.bits - 1) && Pow2(p.bits - 1) == 2 * Pow2(p.bits - 2);
    QuotIs(d, d, 1);
    QuotIs(p.mult, d, 0);
    ReadExact(p, 0, 0, 1);
    ReadExact(p, 0, 0, 2);
    ReadExact(p, 0, 1, 2);
  }
}
