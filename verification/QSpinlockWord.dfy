/**
 The 32-bit layout of the queued spinlock word (kernel/include/asm-generic/qspinlock_types.h,
 fewer than 16K CPUs): byte 0 is the lock byte, byte 1 the pending byte, and the upper half
 the tail, whose low two bits are the node index and whose other bits are the CPU plus one.
 Each primitive of qspinlock.c on the packed word is shown to be the field update that
 `QSpinlock` makes.  Sub-word stores and masks are written as arithmetic on the word's bytes.
 */
module QSpinlockWord {
  import opened Wrappers
  import opened QSpinlock
  import Bits

  const Q_LOCKED_VAL: nat := 1
  const Q_PENDING_VAL: nat := 0x100
  const Q_TAIL_OFFSET: nat := 0x1_0000        // 1 << _Q_TAIL_IDX_OFFSET
  const Q_TAIL_CPU_OFFSET: nat := 0x4_0000    // 1 << _Q_TAIL_CPU_OFFSET

  /** CPU numbers the layout can encode: NR_CPUS < 2^14. */
  predicate ValidCpu(cpu: int) { 0 <= cpu < 0x3fff }

  function LockedByte(v: nat): nat { v % 0x100 }
  function PendingByte(v: nat): nat { v / 0x100 % 0x100 }
  function TailHalf(v: nat): nat { v / Q_TAIL_OFFSET }

  function EncodeTail(cpu: nat, idx: nat): (tail: nat) {
    (cpu + 1) * Q_TAIL_CPU_OFFSET + idx * Q_TAIL_OFFSET
  }

  function DecodeTail(tail: nat): (n: NodeId) {
    NodeId(tail / Q_TAIL_CPU_OFFSET - 1, tail / Q_TAIL_OFFSET % 4)
  }

  /** A word that the primitives below can produce from an unlocked one. */
  predicate Canonical(v: nat) {
    && v < 0x1_0000_0000
    && LockedByte(v) <= 1 && PendingByte(v) <= 1
    && (TailHalf(v) == 0 || TailHalf(v) >= 4)
  }

  /** The fields of a packed word. */
  function View(v: nat): Word {
    Word(if TailHalf(v) == 0 then None else Some(DecodeTail(TailHalf(v) * Q_TAIL_OFFSET)),
         PendingByte(v) != 0, LockedByte(v) != 0)
  }

  /** The word with these bytes and this tail half. */
  function Pack(l: nat, p: nat, t: nat): nat { l + p * 0x100 + t * Q_TAIL_OFFSET }

  function StorePending(v: nat, b: nat): nat { Pack(LockedByte(v), b, TailHalf(v)) }
  function StoreLocked(v: nat, b: nat): nat { Pack(b, PendingByte(v), TailHalf(v)) }
  function StoreLockedPending(v: nat, h: nat): nat { h + TailHalf(v) * Q_TAIL_OFFSET }

  /** fetch_or of PENDING_VAL: sets bit 8 if it is clear. */
  function OrPending(v: nat): nat { if v / 0x100 % 2 == 0 then v + Q_PENDING_VAL else v }

  /** The 16-bit xchg of the tail half. */
  function StoreTail(v: nat, tail: nat): nat { v % Q_TAIL_OFFSET + tail / Q_TAIL_OFFSET * Q_TAIL_OFFSET }

  /** The word that the cmpxchg loop form of `xchg_tail` installs: (val & LOCKED_PENDING_MASK) | tail. */
  function CmpxchgTail(v: nat, tail: nat): nat { LockedByte(v) + PendingByte(v) * 0x100 + tail }

  lemma TailQuotients(cpu: nat, idx: nat)
    requires idx < 4
    ensures var tail := EncodeTail(cpu, idx);
      && tail / Q_TAIL_CPU_OFFSET == cpu + 1 && tail / Q_TAIL_OFFSET == 4 * (cpu + 1) + idx
      && tail % Q_TAIL_OFFSET == 0 && (4 * (cpu + 1) + idx) % 4 == idx
  {
    var tail := EncodeTail(cpu, idx);
    Bits.ModUnique(tail, Q_TAIL_CPU_OFFSET, cpu + 1, idx * Q_TAIL_OFFSET);
    Bits.ModUnique(tail, Q_TAIL_OFFSET, 4 * (cpu + 1) + idx, 0);
    Bits.ModUnique(4 * (cpu + 1) + idx, 4, cpu + 1, idx);
  }

  /** `decode_tail` inverts `encode_tail`, which fits in the word, is never 0 and stays out of the low half. */
  lemma TailRoundTrip(cpu: nat, idx: nat)
    requires ValidCpu(cpu) && idx < 4
    ensures DecodeTail(EncodeTail(cpu, idx)) == NodeId(cpu, idx)
    ensures 0 < EncodeTail(cpu, idx) < 0x1_0000_0000 && EncodeTail(cpu, idx) % Q_TAIL_OFFSET == 0
    ensures EncodeTail(cpu, idx) / Q_TAIL_OFFSET >= 4
  {
    TailQuotients(cpu, idx);
  }

  /** Every non-zero tail of a canonical word decodes to a node, and encoding that node gives the tail back. */
  lemma TailDecodes(v: nat)
    requires Canonical(v) && TailHalf(v) != 0
    ensures var n := DecodeTail(TailHalf(v) * Q_TAIL_OFFSET);
      0 <= n.cpu && n.idx < 4 && EncodeTail(n.cpu, n.idx) == TailHalf(v) * Q_TAIL_OFFSET
  {
    HalfDecodes(TailHalf(v));
  }

  lemma HalfDecodes(t: nat)
    requires t >= 4
    ensures DecodeTail(t * Q_TAIL_OFFSET) == NodeId(t / 4 - 1, t % 4)
    ensures EncodeTail(t / 4 - 1, t % 4) == t * Q_TAIL_OFFSET
  {
    Bits.ModUnique(t * Q_TAIL_OFFSET, Q_TAIL_OFFSET, t, 0);
    Bits.ModUnique(t * Q_TAIL_OFFSET, Q_TAIL_CPU_OFFSET, t / 4, t % 4 * Q_TAIL_OFFSET);
  }

  /** A word put together from three fields has those fields. */
  lemma FieldsOfWord(l: nat, p: nat, t: nat)
    requires l < 0x100 && p < 0x100
    ensures var v := Pack(l, p, t);
      LockedByte(v) == l && PendingByte(v) == p && TailHalf(v) == t && v % Q_TAIL_OFFSET == l + p * 0x100
    ensures Pack(l, p, t) / 0x100 == p + t * 0x100
  {
    var v := Pack(l, p, t);
    Bits.ModUnique(v, 0x100, p + t * 0x100, l);
    Bits.ModUnique(p + t * 0x100, 0x100, t, p);
    Bits.ModUnique(v, Q_TAIL_OFFSET, t, l + p * 0x100);
  }

  /** Every word is put together from its fields. */
  lemma Unpack(v: nat)
    ensures v == Pack(LockedByte(v), PendingByte(v), TailHalf(v))
    ensures LockedByte(v) < 0x100 && PendingByte(v) < 0x100
  {
    var h := v / 0x100;
    Bits.ModUnique(v, Q_TAIL_OFFSET, h / 0x100, v % 0x100 + h % 0x100 * 0x100);
  }

  lemma PackView(l: nat, p: nat, t: nat)
    requires l <= 1 && p <= 1 && t < Q_TAIL_OFFSET && (t == 0 || t >= 4)
    ensures Canonical(Pack(l, p, t))
    ensures View(Pack(l, p, t)) == Word(if t == 0 then None else Some(DecodeTail(t * Q_TAIL_OFFSET)), p != 0, l != 0)
  {
    FieldsOfWord(l, p, t);
  }

  /** The tail half of a word fits in 16 bits. */
  lemma HalfFits(v: nat)
    requires v < 0x1_0000_0000
    ensures TailHalf(v) < Q_TAIL_OFFSET
  {
  }

  lemma OrPendingSets(v: nat)
    requires Canonical(v)
    ensures OrPending(v) == Pack(LockedByte(v), 1, TailHalf(v))
  {
    Unpack(v);
    var p, t := PendingByte(v), TailHalf(v);
    FieldsOfWord(LockedByte(v), p, t);
    Bits.ModUnique(p + t * 0x100, 2, t * 0x80, p);
  }

  /** `clear_pending`, `clear_pending_set_locked` and the fetch-or of PENDING are the machine's field updates. */
  lemma PendingStoresRefine(v: nat)
    requires Canonical(v)
    ensures Canonical(StorePending(v, 0)) && View(StorePending(v, 0)) == View(v).(pending := false)
    ensures Canonical(StoreLockedPending(v, Q_LOCKED_VAL))
    ensures View(StoreLockedPending(v, Q_LOCKED_VAL)) == View(v).(pending := false, locked := true)
    ensures Canonical(OrPending(v)) && View(OrPending(v)) == View(v).(pending := true)
  {
    HalfFits(v);
    PackView(LockedByte(v), 0, TailHalf(v));
    PackView(1, 0, TailHalf(v));
    PackView(LockedByte(v), 1, TailHalf(v));
    OrPendingSets(v);
  }

  /** `set_locked` and `queued_spin_unlock` store the lock byte alone. */
  lemma LockedStoresRefine(v: nat)
    requires Canonical(v)
    ensures Canonical(StoreLocked(v, 1)) && View(StoreLocked(v, 1)) == View(v).(locked := true)
    ensures Canonical(StoreLocked(v, 0)) && View(StoreLocked(v, 0)) == View(v).(locked := false)
  {
    HalfFits(v);
    PackView(1, PendingByte(v), TailHalf(v));
    PackView(0, PendingByte(v), TailHalf(v));
  }

  /** Both forms of `xchg_tail` install the same word: the new node as tail, the other fields kept. */
  lemma XchgTailRefines(v: nat, cpu: nat, idx: nat)
    requires Canonical(v) && ValidCpu(cpu) && idx < 4
    ensures StoreTail(v, EncodeTail(cpu, idx)) == CmpxchgTail(v, EncodeTail(cpu, idx))
    ensures Canonical(StoreTail(v, EncodeTail(cpu, idx)))
    ensures View(StoreTail(v, EncodeTail(cpu, idx))) == View(v).(tail := Some(NodeId(cpu, idx)))
  {
    var l, p, t := LockedByte(v), PendingByte(v), 4 * (cpu + 1) + idx;
    TailRoundTrip(cpu, idx);
    TailQuotients(cpu, idx);
    StoreTailIs(v, cpu, idx);
    PackView(l, p, t);
  }

  lemma StoreTailIs(v: nat, cpu: nat, idx: nat)
    requires idx < 4
    ensures EncodeTail(cpu, idx) == (4 * (cpu + 1) + idx) * Q_TAIL_OFFSET
    ensures StoreTail(v, EncodeTail(cpu, idx)) == Pack(LockedByte(v), PendingByte(v), 4 * (cpu + 1) + idx)
  {
    TailQuotients(cpu, idx);
    Unpack(v);
    FieldsOfWord(LockedByte(v), PendingByte(v), TailHalf(v));
  }

  /** The slow path's tests read the fields, and a cmpxchg of packed words compares the fields. */
  lemma TestsRefine(v: nat, w: nat)
    requires Canonical(v) && Canonical(w)
    ensures v / 0x100 != 0 <==> View(v).tail.Some? || View(v).pending
    ensures v % Q_TAIL_OFFSET == 0 <==> !View(v).locked && !View(v).pending
    ensures v == 0 <==> View(v) == FREE
    ensures v == Q_PENDING_VAL <==> View(v) == PENDING_VAL
    ensures View(Q_LOCKED_VAL) == LOCKED_VAL
    ensures View(v) == View(w) <==> v == w
  {
    Unpack(v);
    FieldsOfWord(LockedByte(v), PendingByte(v), TailHalf(v));
    PackView(1, 0, 0);
    SameView(v, w);
  }

  lemma SameView(v: nat, w: nat)
    requires Canonical(v) && Canonical(w)
    ensures View(v) == View(w) ==> v == w
  {
    Unpack(v);
    Unpack(w);
    if View(v) == View(w) && View(v).tail.Some? {
      TailDecodes(v);
      TailDecodes(w);
    }
  }
}
