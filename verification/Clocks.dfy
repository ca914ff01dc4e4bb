/**
 Scaled arithmetic between clock cycles and nanoseconds (kernel/core/time/clocksource.c,
 kernel/core/time/clockevents.c).  u32 and u64 values are naturals below U32 and U64.
 */
module Clocks {
  import opened Bits

  const U32: nat := 0x1_0000_0000
  const U64: nat := 0x1_0000_0000_0000_0000
  const HALF64: nat := 0x8000_0000_0000_0000

  // -------------------------------------------------------------------- arithmetic

  lemma {:induction false} Pow2Add(a: nat, b: nat)
    ensures Pow2(a + b) == Pow2(a) * Pow2(b)
  {
    if a > 0 { Pow2Add(a - 1, b); }
  }

  lemma WordSizes()
    ensures Pow2(32) == U32 && Pow2(64) == U64
  {
    assert Pow2(8) == 256;
    Pow2Add(8, 8);
    Pow2Add(16, 16);
    Pow2Add(32, 32);
  }

  lemma MulLe(a: nat, b: nat, d: nat)
    requires a <= b
    ensures a * d <= b * d
  {
    assert (b - a) * d >= 0;
    assert b * d == a * d + (b - a) * d;
  }

  /** Unsigned division, by repeated subtraction. */
  function Quot(a: nat, d: nat): nat
    requires d > 0
    decreases a
  {
    if a < d then 0 else 1 + Quot(a - d, d)
  }

  /** It is the quotient that brackets the dividend. */
  lemma {:induction false} QuotBounds(a: nat, d: nat)
    requires d > 0
    ensures Quot(a, d) * d <= a < Quot(a, d) * d + d
    decreases a
  {
    if a >= d {
      QuotBounds(a - d, d);
      assert Quot(a, d) * d == Quot(a - d, d) * d + d;
    }
  }

  lemma QuotIs(a: nat, d: nat, q: nat)
    requires d > 0
    ensures Quot(a, d) == q <==> q * d <= a < q * d + d
  {
    QuotBounds(a, d);
    if q < Quot(a, d) { MulMono(q, Quot(a, d), d); }
    if Quot(a, d) < q { MulMono(Quot(a, d), q, d); }
  }

  lemma QuotIsDiv(a: nat, d: nat)
    requires d > 0
    ensures Quot(a, d) == a / d
  {
    QuotBounds(a, d);
    ModUnique(a, d, Quot(a, d), a - Quot(a, d) * d);
  }

  lemma QuotMono(a: nat, b: nat, d: nat)
    requires d > 0 && a <= b
    ensures Quot(a, d) <= Quot(b, d)
  {
    QuotBounds(a, d);
    QuotBounds(b, d);
    if Quot(b, d) < Quot(a, d) { MulMono(Quot(b, d), Quot(a, d), d); }
  }

  function BitLength(x: nat): nat {
    if x == 0 then 0 else 1 + BitLength(x / 2)
  }

  lemma {:induction false} BitLengthBounds(x: nat, k: nat)
    ensures x < Pow2(BitLength(x))
    ensures x < Pow2(k) ==> BitLength(x) <= k
    decreases x
  {
    if x > 0 && k > 0 { BitLengthBounds(x / 2, k - 1); } else if x > 0 { BitLengthBounds(x / 2, 0); }
  }

  /** Reduction to 64 bits, and shifts. */
  function Wrap64(x: nat): nat { x % U64 }

  function Wrap32(x: nat): (r: nat)
    ensures r < U32
  {
    x % U32
  }

  lemma Wrap64Same(x: nat)
    requires x < U64
    ensures Wrap64(x) == x
  {
  }

  lemma Wrap32Same(x: nat)
    requires x < U32
    ensures Wrap32(x) == x
  {
  }

  function Shl(x: nat, k: nat): nat { x * Pow2(k) }

  function Shr(x: nat, k: nat): nat { Quot(x, Pow2(k)) }

  lemma WithinLimit(c: nat, limit: nat, m: nat, top: nat)
    requires c <= limit && m <= top
    ensures c * m <= limit * top
  {
    MulLe(c, limit, m);
    MulLe(m, top, limit);
  }

  lemma QuotLe(x: nat, d: nat)
    requires d > 0
    ensures Quot(x, d) <= x
  {
    QuotBounds(x, d);
    MulLe(1, d, Quot(x, d));
  }

  // -------------------------------------------------------- clocks_calc_mult_shift

  /** `to / from` scaled by 2^sft, rounded to nearest. */
  function Scaled(from: nat, to: nat, sft: nat): nat
    requires from > 0
  {
    Quot(Shl(to, sft) + from / 2, from)
  }

  /** How many bits are left for the multiplier if products with maxsec seconds' worth of
      cycles are to fit in 64 bits. */
  function Room(from: nat, maxsec: nat): int {
    32 - BitLength(maxsec * from / U32)
  }

  predicate U32Args(from: nat, to: nat, maxsec: nat) {
    0 < from < U32 && to < U32 && maxsec < U32
  }

  lemma RoomBounds(from: nat, to: nat, maxsec: nat)
    requires U32Args(from, to, maxsec)
    ensures 0 <= Room(from, maxsec) <= 32
    ensures maxsec * from < Pow2(64 - Room(from, maxsec))
  {
    WordSizes();
    MulLe(maxsec, U32 - 1, from);
    var hi := maxsec * from / U32;
    BitLengthBounds(hi, 32);
    assert hi < U32;
    var b := BitLength(hi);
    Pow2Add(b, 32);
    MulMono(hi, Pow2(b), U32);
  }

  /** The closer the scale, the larger the multiplier. */
  lemma ScaledMono(from: nat, to: nat, a: nat, b: nat)
    requires from > 0 && a <= b
    ensures Scaled(from, to, a) <= Scaled(from, to, b)
  {
    Pow2Mono(a, b);
    MulLe(Pow2(a), Pow2(b), to);
    QuotMono(Shl(to, a) + from / 2, Shl(to, b) + from / 2, from);
  }

  lemma ShiftAtMost32(sft: nat)
    requires sft <= 32
    ensures Pow2(sft) <= U32
  {
    WordSizes();
    Pow2Mono(sft, 32);
  }

  lemma ScaleFits(to: nat, sft: nat)
    requires to < U32 && sft <= 32
    ensures Shl(to, sft) + U32 <= U64
  {
    ShiftAtMost32(sft);
    WithinLimit(to, U32 - 1, Pow2(sft), U32);
  }

  /** One scaling in the search; nothing overflows. */
  method Scale(from: nat, to: nat, sft: nat) returns (tmp: nat)
    requires 0 < from < U32 && to < U32 && sft <= 32
    ensures tmp == Scaled(from, to, sft) && tmp < U64
  {
    ScaleFits(to, sft);
    Wrap64Same(Shl(to, sft));
    tmp := Wrap64(Shl(to, sft));
    Wrap64Same(tmp + from / 2);
    tmp := Wrap64(tmp + from / 2);
    QuotLe(tmp, from);
    tmp := Quot(tmp, from);
  }

  /** Up to that many cycles, the product with mult fits in 64 bits. */
  ghost predicate NeverOverflows(range: nat, mult: nat) {
    forall cycles: nat :: cycles <= range ==> cycles * mult < U64
  }

  /** Whether the search for a shift succeeds. */
  predicate Breaks(from: nat, to: nat, maxsec: nat)
    requires from > 0
  {
    !TooLarge(from, to, 1, Room(from, maxsec))
  }

  predicate TooLarge(from: nat, to: nat, sft: nat, room: int)
    requires from > 0
  {
    room < 0 || Scaled(from, to, sft) >= Pow2(room)
  }

  /** The first loop of clocks_calc_mult_shift. */
  method CalcRoom(from: nat, maxsec: nat) returns (sftacc: int)
    ensures sftacc == Room(from, maxsec)
  {
    var tmp: nat := maxsec * from / U32;
    sftacc := 32;
    while tmp != 0
      invariant sftacc - BitLength(tmp) == Room(from, maxsec)
    {
      tmp := tmp / 2;
      sftacc := sftacc - 1;
    }
  }

  lemma Found(from: nat, to: nat, maxsec: nat, sft: nat)
    requires U32Args(from, to, maxsec) && 0 < sft && !TooLarge(from, to, sft, Room(from, maxsec))
    ensures Breaks(from, to, maxsec) && Scaled(from, to, sft) < U32
    ensures NeverOverflows(maxsec * from, Scaled(from, to, sft))
  {
    FoundFits(from, to, maxsec, Scaled(from, to, sft));
    ScaledMono(from, to, 1, sft);
  }

  /** The second loop: the largest shift in 1..32 whose multiplier fits, or 0 if there is none. */
  method SearchShift(from: nat, to: nat, room: nat) returns (tmp: nat, sft: nat)
    requires 0 < from < U32 && to < U32
    ensures sft <= 32 && forall s :: sft < s <= 32 ==> TooLarge(from, to, s, room)
    ensures sft > 0 ==> !TooLarge(from, to, sft, room) && tmp == Scaled(from, to, sft)
    ensures sft == 0 ==> tmp == Scaled(from, to, 1)
  {
    tmp, sft := 0, 32;
    while sft > 0
      invariant sft <= 32
      invariant sft < 32 ==> tmp == Scaled(from, to, sft + 1)
      invariant forall s :: sft < s <= 32 ==> TooLarge(from, to, s, room)
    {
      tmp := Scale(from, to, sft);
      QuotIs(tmp, Pow2(room), 0);
      if Shr(tmp, room) == 0 {
        return;
      }
      sft := sft - 1;
    }
  }

  /** What clocks_calc_mult_shift returns: the largest shift whose multiplier fits, with that
      multiplier; if none fits, shift 0 with the multiplier of shift 1. */
  ghost predicate MultShift(from: nat, to: nat, maxsec: nat, mult: nat, shift: nat)
    requires from > 0
  {
    && shift <= 32 && (forall s :: shift < s <= 32 ==> TooLarge(from, to, s, Room(from, maxsec)))
    && (shift > 0 ==> !TooLarge(from, to, shift, Room(from, maxsec)) && mult == Scaled(from, to, shift))
    && (shift == 0 ==> mult == Wrap32(Scaled(from, to, 1)))
  }

  /** clocks_calc_mult_shift.  `found` tells whether the search ended by its break. */
  method CalcMultShift(from: nat, to: nat, maxsec: nat) returns (mult: nat, shift: nat, found: bool)
    requires U32Args(from, to, maxsec)
    ensures found == Breaks(from, to, maxsec) == (shift > 0)
    ensures mult < U32 && MultShift(from, to, maxsec, mult, shift)
    ensures found ==> NeverOverflows(maxsec * from, mult)
  {
    RoomBounds(from, to, maxsec);
    var room := CalcRoom(from, maxsec);
    var tmp, sft := SearchShift(from, to, room);
    mult, shift, found := Wrap32(tmp), sft, sft > 0;
    if found {
      Found(from, to, maxsec, sft);
      Wrap32Same(tmp);
    } else {
      assert TooLarge(from, to, 1, room);
    }
  }

  lemma ScaledHalf(from: nat, to: nat, sft: nat)
    requires from == 2 * to > 0 && sft > 0
    ensures Scaled(from, to, sft) == Pow2(sft - 1)
  {
    var q := Pow2(sft - 1);
    assert to * (2 * q) == q * from;
    QuotIs(to * (2 * q) + to, from, q);
  }

  /** The factors of a 2 GHz counter over an hour: half a nanosecond is 2^20 / 2^21. */
  lemma TwoGigahertz(mult: nat, shift: nat)
    requires MultShift(2_000_000_000, 1_000_000_000, 3600, mult, shift)
    ensures U32Args(2_000_000_000, 1_000_000_000, 3600)
    ensures shift == 21 && mult == Pow2(shift - 1)
  {
    TwoGigahertzRoom();
    HalfShift(2_000_000_000, 1_000_000_000, 3600, mult, shift);
  }

  lemma TwoGigahertzRoom()
    ensures Room(2_000_000_000, 3600) == 21
  {
    ModUnique(7_200_000_000_000, U32, 1676, 1634811904);
    assert BitLength(1676) == 11;
  }

  lemma HalfShift(from: nat, to: nat, maxsec: nat, mult: nat, shift: nat)
    requires from == 2 * to > 0 && 0 < Room(from, maxsec) <= 32 && MultShift(from, to, maxsec, mult, shift)
    ensures shift == Room(from, maxsec) && mult == Pow2(shift - 1)
  {
    var room := Room(from, maxsec);
    ScaledHalf(from, to, room);
    assert !TooLarge(from, to, room, room);
    if shift > 0 { ScaledHalf(from, to, shift); }
    if shift > room { Pow2Mono(room, shift - 1); }
  }

  /** A multiplier below 2^Room does not overflow within the conversion range. */
  lemma FoundFits(from: nat, to: nat, maxsec: nat, mult: nat)
    requires U32Args(from, to, maxsec) && 0 <= Room(from, maxsec) && mult < Pow2(Room(from, maxsec))
    ensures mult < U32 && NeverOverflows(maxsec * from, mult)
  {
    RoomBounds(from, to, maxsec);
    WordSizes();
    var room := Room(from, maxsec);
    Pow2Mono(room, 32);
    Pow2Add(64 - room, room);
    var top := Pow2(64 - room);
    forall cycles: nat | cycles <= maxsec * from
      ensures cycles * mult < U64
    {
      MulMono(cycles, top, Pow2(room));
      MulLe(mult, Pow2(room), cycles);
    }
  }

  /** The multiplier is the nearest one to the exact ratio. */
  lemma NearestRatio(from: nat, to: nat, sft: nat)
    requires from > 0
    ensures -(from as int) <= 2 * (Scaled(from, to, sft) * from - to * Pow2(sft)) <= from
  {
    QuotBounds(Shl(to, sft) + from / 2, from);
  }

  lemma {:induction false} BitLengthLow(x: nat)
    requires x > 0
    ensures Pow2(BitLength(x) - 1) <= x
  {
    if x > 1 { BitLengthLow(x / 2); }
  }

  /** The search breaks as long as the conversion range does not take up almost all of 64 bits. */
  lemma BreaksWhen(from: nat, to: nat, maxsec: nat)
    requires U32Args(from, to, maxsec)
    requires 2 * to + from / 2 < U32 * from && maxsec * (2 * to + from / 2) < HALF64
    ensures Breaks(from, to, maxsec)
  {
    var x := 2 * to + from / 2;
    var room, q := Room(from, maxsec), Quot(x, from);
    RoomBounds(from, to, maxsec);
    assert Shl(to, 1) == 2 * to by { assert Pow2(1) == 2; }
    QuotBounds(x, from);
    if q >= Pow2(room) {
      MulLe(Pow2(room), q, from);
      RoomFilled(from, maxsec, x, room);
    }
  }

  lemma RoomFilled(from: nat, maxsec: nat, x: nat, room: nat)
    requires from > 0 && room == Room(from, maxsec) && Pow2(room) * from <= x < U32 * from
    ensures maxsec * x >= HALF64
  {
    var hi := maxsec * from / U32;
    var b := BitLength(hi);
    WordSizes();
    assert hi == 0 ==> room == 32;
    assert hi > 0;
    BitLengthLow(hi);
    MulLe(Pow2(b - 1), hi, U32);
    FullProduct(room, b);
    ProductFills(Pow2(room), Pow2(b - 1), from, maxsec, x, HALF64);
  }

  lemma FullProduct(room: nat, b: nat)
    requires b > 0 && room + b == 32
    ensures Pow2(room) * Pow2(b - 1) * U32 == HALF64
  {
    Pow2Add(room, b - 1);
    Pow2Of31();
  }

  lemma ProductFills(p: nat, q: nat, from: nat, maxsec: nat, x: nat, full: nat)
    requires p * from <= x && q * U32 <= maxsec * from && p * q * U32 == full
    ensures maxsec * x >= full
  {
    MulLe(p * from, x, maxsec);
    MulLe(q * U32, maxsec * from, p);
    MulAssoc(p, from, maxsec);
    MulAssoc(p, q, U32);
  }

  lemma MulAssoc(a: nat, b: nat, c: nat)
    ensures a * b * c == a * (b * c) == (b * c) * a && a * b * c == c * (a * b) && b * c == c * b
  {
  }

  lemma Pow2Of31()
    ensures Pow2(31) * U32 == HALF64
  {
    WordSizes();
    assert Pow2(32) == 2 * Pow2(31);
  }

  /** So it does for every caller in the kernel: the registration of a sched_clock, whose 64-bit rate
      the call cuts to 32 bits (a multiple of 2^32 arrives as 0, and is divided by), */
  lemma SchedClockBreaks(rate: nat)
    requires rate < U64 && rate % U32 != 0
    ensures Breaks(rate % U32, 1_000_000_000, 3600)
  {
    BreaksWhen(rate % U32, 1_000_000_000, 3600);
  }

  /** the configuration of a clock event device that counts up to `ticks`, */
  lemma ClockEventBreaks(freq: nat, ticks: nat)
    requires 0 < freq < U32 && ticks < U64
    ensures MaxSeconds(ticks, freq) < U32 && Breaks(1_000_000_000, freq, MaxSeconds(ticks, freq))
  {
    var sec, x := MaxSeconds(ticks, freq), 2 * freq + 500_000_000;
    if ticks / freq > 600 && ticks < U32 {
      assert sec * freq <= ticks;
      assert sec <= sec * freq by { MulLe(1, freq, sec); }
      assert sec * x == 2 * (sec * freq) + sec * 500_000_000;
    } else {
      MulLe(sec, 600, x);
    }
    BreaksWhen(1_000_000_000, freq, sec);
  }

  /** and the registration of a clock source, in Hz or in kHz. */
  lemma ClockSourceBreaks(freq: nat, scale: nat, mask: nat)
    requires 0 < freq < U32 && (scale == 1 || scale == 1000) && mask < U64
    ensures var maxsec := SourceSeconds(mask, freq, scale) * scale;
      maxsec < U32 && Breaks(freq, 1_000_000_000 / scale, maxsec)
  {
    var sec, to := SourceSeconds(mask, freq, scale), 1_000_000_000 / scale;
    if mask / freq / scale > 600 && mask < U32 {
      LongRange(mask, freq, scale);
      LongRangeFits(sec * scale, to, freq);
    } else {
      assert sec <= 600;
      ShortRangeFits(sec * scale, to, freq);
    }
    BreaksWhen(freq, to, sec * scale);
  }

  lemma LongRange(mask: nat, freq: nat, scale: nat)
    requires freq > 0 && (scale == 1 || scale == 1000) && mask < U32
    ensures var s := mask / freq / scale * scale; s < U32 && s * freq < U32
  {
    var d, s := mask / freq, mask / freq / scale * scale;
    assert s <= d;
    assert d * freq <= mask;
    MulLe(s, d, freq);
    MulLe(1, freq, s);
  }

  lemma LongRangeFits(s: nat, to: nat, freq: nat)
    requires s < U32 && s * freq < U32 && to <= 1_000_000_000
    ensures s * (2 * to + freq / 2) < HALF64
  {
    MulLe(freq / 2, freq, s);
    MulLe(to, 1_000_000_000, s);
    assert s * (2 * to + freq / 2) == 2 * (to * s) + (freq / 2) * s;
  }

  lemma ShortRangeFits(s: nat, to: nat, freq: nat)
    requires s <= 600_000 && to <= 1_000_000_000 && freq < U32
    ensures s * (2 * to + freq / 2) < HALF64
  {
    MulLe(s, 600_000, 2 * to + freq / 2);
  }

  /** How long __clocksource_update_freq_scale makes the conversion range. */
  function SourceSeconds(mask: nat, freq: nat, scale: nat): nat
    requires freq > 0 && scale > 0
  {
    var sec := mask / freq / scale;
    if sec == 0 then 1 else if sec > 600 && mask >= U32 then 600 else sec
  }

  /** It is the longest whole number of seconds that the counter counts; but at least one, and at most
      600 for a counter of more than 32 bits. */
  lemma RangeExact(mask: nat, freq: nat, scale: nat)
    requires freq > 0 && scale > 0
    ensures var sec := SourceSeconds(mask, freq, scale);
      && 1 <= sec && (sec == 1 || sec * (freq * scale) <= mask) && (mask >= U32 ==> sec <= 600)
      && (mask < U32 || sec < 600 ==> mask < (sec + 1) * (freq * scale))
  {
    var d: nat := mask / freq;
    var q: nat := d / scale;
    DivBounds(mask, freq, d);
    DivBounds(d, scale, q);
    TwoSteps(mask, d, q, freq, scale);
    RangeOf(mask, q, freq * scale, SourceSeconds(mask, freq, scale));
  }

  lemma RangeOf(mask: nat, q: nat, n: nat, sec: nat)
    requires q * n <= mask < (q + 1) * n
    requires sec == if q == 0 then 1 else if q > 600 && mask >= U32 then 600 else q
    ensures sec == 1 || sec * n <= mask
    ensures mask < U32 || sec < 600 ==> mask < (sec + 1) * n
  {
    if sec < q { MulLe(sec, q, n); }
    if q < sec { MulLe(q + 1, sec + 1, n); }
  }

  /** The quotient of a division, as a name for it. */
  lemma DivBounds(x: nat, n: nat, q: nat)
    requires n > 0 && q == x / n
    ensures q * n <= x < (q + 1) * n
  {
  }

  lemma TwoSteps(mask: nat, d: nat, q: nat, freq: nat, scale: nat)
    requires q * scale <= d < (q + 1) * scale && d * freq <= mask < (d + 1) * freq
    ensures q * (freq * scale) <= mask < (q + 1) * (freq * scale)
  {
    MulLe(q * scale, d, freq);
    MulLe(d + 1, (q + 1) * scale, freq);
    MulSwap(q, scale, freq);
    MulSwap(q + 1, scale, freq);
  }

  lemma MulSwap(a: nat, b: nat, c: nat)
    ensures a * b * c == a * (c * b)
  {
  }

  /** A clock event device has the same rule. */
  lemma SameRange(ticks: nat, freq: nat)
    requires freq > 0
    ensures MaxSeconds(ticks, freq) == SourceSeconds(ticks, freq, 1)
  {
  }

  /** A zero multiplier is taken for 1. */
  lemma ZeroMult(latch: nat, shift: nat, ismax: bool)
    ensures Delta2Ns(latch, 0, shift, ismax) == Delta2Ns(latch, 1, shift, ismax)
  {
  }

  /** Without a break, the multiplier belongs to shift 1 although shift 0 is returned:
      here 2^32 - 1 nanoseconds a cycle come out as 2^32 - 2. */
  lemma NoBreakExample()
    ensures U32Args(1, U32 - 1, 1) && !Breaks(1, U32 - 1, 1) && Wrap32(Scaled(1, U32 - 1, 1)) == U32 - 2
  {
    WordSizes();
    assert BitLength(0) == 0;
    assert Room(1, 1) == 32;
    QuotIs(Shl(U32 - 1, 1), 1, 2 * (U32 - 1));
  }

  // ---------------------------------------------- adjustment and maximum deferment

  function MaxAdj(mult: nat): (r: nat)
    ensures 100 * r <= 11 * mult
  {
    mult * 11 / 100
  }

  /** The two 32-bit comparisons that end the loop below. */
  predicate AdjustWraps(mult: nat, maxadj: nat) {
    (mult + maxadj) % U32 < mult || (mult - maxadj) % U32 > mult
  }

  lemma AdjustWrapsIs(mult: nat, maxadj: nat)
    requires maxadj <= mult < U32
    ensures AdjustWraps(mult, maxadj) <==> mult + maxadj >= U32
  {
    ModUnique(mult - maxadj, U32, 0, mult - maxadj);
    if mult + maxadj < U32 {
      ModUnique(mult + maxadj, U32, 0, mult + maxadj);
    } else {
      ModUnique(mult + maxadj, U32, 1, mult + maxadj - U32);
    }
  }

  /** The loop of __clocksource_update_freq_scale that makes room for adjusting mult; a clock source
      without a frequency keeps the factors it came with.  The shift is unsigned. */
  method LimitMult(mult0: nat, shift0: nat, freq: nat) returns (mult: nat, shift: nat, maxadj: nat)
    requires mult0 < U32 && shift0 < U32
    ensures maxadj == MaxAdj(mult) && maxadj <= mult && (freq != 0 ==> mult + maxadj < U32)
    ensures if freq != 0 && mult0 + MaxAdj(mult0) >= U32
            then mult == mult0 / 2 && shift == (if shift0 > 0 then shift0 - 1 else U32 - 1)
            else mult == mult0 && shift == shift0
  {
    mult, shift, maxadj := mult0, shift0, MaxAdj(mult0);
    ghost var wraps := freq != 0 && mult0 + MaxAdj(mult0) >= U32;
    while freq != 0 && AdjustWraps(mult, maxadj)
      invariant mult < U32 && maxadj == MaxAdj(mult)
      invariant (mult == mult0 && shift == shift0) || (wraps && mult == mult0 / 2 && shift == Before(shift0))
      decreases mult
    {
      AdjustWrapsIs(mult, maxadj);
      mult, shift := mult / 2, Before(shift);
      maxadj := MaxAdj(mult);
    }
    AdjustWrapsIs(mult, maxadj);
  }

  /** One less, in 32 bits. */
  function Before(shift: nat): nat {
    if shift > 0 then shift - 1 else U32 - 1
  }

  lemma LimitIsTight(top: nat)
    requires top > 0
    ensures var limit := Quot(U64 - 1, top); limit * top < U64 <= (limit + 1) * top
  {
    var limit := Quot(U64 - 1, top);
    QuotBounds(U64 - 1, top);
    assert (limit + 1) * top == limit * top + top;
  }

  /** Up to that many cycles, no multiplier up to `top` overflows 64 bits. */
  ghost predicate SafeCycles(maxCycles: nat, top: nat) {
    forall c: nat, m: nat :: c <= maxCycles && m <= top ==> c * m < U64
  }

  lemma LimitIsSafe(top: nat, maxCycles: nat)
    requires top > 0 && maxCycles <= Quot(U64 - 1, top)
    ensures SafeCycles(maxCycles, top)
  {
    LimitIsTight(top);
    forall c: nat, m: nat | c <= maxCycles && m <= top
      ensures c * m < U64
    {
      WithinLimit(c, Quot(U64 - 1, top), m, top);
    }
  }

  /** clocksource_cyc2ns. */
  function Cyc2Ns(cycles: nat, mult: nat, shift: nat): nat { Shr(Wrap64(cycles * mult), shift) }

  /** The result of clocks_calc_max_nsecs: the largest cycle count up to the mask that the largest
      adjusted multiplier, a 32-bit sum, does not take beyond 64 bits; and half the time that the
      smallest adjusted multiplier gives those cycles. */
  ghost predicate Deferment(mult: nat, shift: nat, maxadj: nat, mask: nat, maxNsecs: nat, maxCycles: nat)
    requires maxadj <= mult
  {
    var top := Wrap32(mult + maxadj);
    && maxCycles <= mask && SafeCycles(maxCycles, top)
    && (maxCycles == mask || !SafeCycles(maxCycles + 1, top))
    && maxNsecs == Shr(Cyc2Ns(maxCycles, mult - maxadj, shift), 1)
  }

  /** clocks_calc_max_nsecs divides by the 32-bit sum; the 50% margin is the last shift. */
  method CalcMaxNsecs(mult: nat, shift: nat, maxadj: nat, mask: nat) returns (maxNsecs: nat, maxCycles: nat)
    requires mult < U32 && maxadj <= mult && mask < U64 && Wrap32(mult + maxadj) != 0
    ensures Deferment(mult, shift, maxadj, mask, maxNsecs, maxCycles)
  {
    var top := Wrap32(mult + maxadj);
    var limit := Quot(U64 - 1, top);
    LimitExact(top, limit);
    maxCycles := if mask < limit then mask else limit;
    SafeBelow(limit, maxCycles, top);
    maxNsecs := Shr(Cyc2Ns(maxCycles, mult - maxadj, shift), 1);
  }

  lemma LimitExact(top: nat, limit: nat)
    requires top > 0 && limit == Quot(U64 - 1, top)
    ensures SafeCycles(limit, top) && !SafeCycles(limit + 1, top)
  {
    LimitIsTight(top);
    LimitIsSafe(top, limit);
  }

  lemma SafeBelow(limit: nat, maxCycles: nat, top: nat)
    requires SafeCycles(limit, top) && maxCycles <= limit
    ensures SafeCycles(maxCycles, top)
  {
  }

  lemma SafeIs(cycles: nat, top: nat)
    ensures SafeCycles(cycles, top) <==> cycles * top < U64
  {
    if cycles * top < U64 {
      forall c: nat, m: nat | c <= cycles && m <= top ensures c * m < U64 {
        WithinLimit(c, cycles, m, top);
      }
    }
  }

  /** A sum that wrapped is a limit taken too high. */
  lemma WrappedLimit(top: nat, sum: nat, maxCycles: nat)
    requires sum == top + U32 && top < U32 && !SafeCycles(maxCycles + 1, top)
    ensures maxCycles * sum >= U64
  {
    SafeIs(maxCycles + 1, top);
    if maxCycles < U32 {
      WithinLimit(maxCycles + 1, U32, top, U32 - 1);
      assert false;
    }
    WithinLimit(U32, maxCycles, U32, sum);
  }

  /**
   The cycles are safe for every adjusted multiplier exactly when the sum of the multiplier and
   its adjustment fits in 32 bits, or when even the whole counter is safe.
   */
  lemma DefermentSafe(mult: nat, shift: nat, maxadj: nat, mask: nat, maxNsecs: nat, maxCycles: nat)
    requires mult < U32 && maxadj <= mult && mask < U64 && Wrap32(mult + maxadj) != 0
    requires Deferment(mult, shift, maxadj, mask, maxNsecs, maxCycles)
    ensures SafeCycles(maxCycles, mult + maxadj) <==> mult + maxadj < U32 || mask * (mult + maxadj) < U64
  {
    var sum := mult + maxadj;
    if sum < U32 {
      Wrap32Same(sum);
    } else {
      assert Wrap32(sum) == sum - U32;
      SafeIs(maxCycles, sum);
      if maxCycles != mask {
        WrappedLimit(sum - U32, sum, maxCycles);
        MulLe(maxCycles, mask, sum);
      }
    }
  }

  /** A self-defined clock source with the largest multiplier: its limit is not safe. */
  lemma DefermentExample(shift: nat, maxNsecs: nat, maxCycles: nat)
    requires Deferment(U32 - 1, shift, MaxAdj(U32 - 1), U64 - 1, maxNsecs, maxCycles)
    ensures !SafeCycles(maxCycles, U32 - 1 + MaxAdj(U32 - 1))
  {
    var sum := U32 - 1 + MaxAdj(U32 - 1);
    assert U32 < sum < 2 * U32;
    ModUnique(sum, U32, 1, sum - U32);
    DefermentSafe(U32 - 1, shift, MaxAdj(U32 - 1), U64 - 1, maxNsecs, maxCycles);
    MulLe(2, U64 - 1, sum);
    MulLe(2, sum, U64 - 1);
  }

  // ------------------------------------------------------------------- cev_delta2ns

  /** latch << shift, saturated when the shift loses bits. */
  function ShiftedLatch(latch: nat, shift: nat): nat {
    var clc := Wrap64(Shl(latch, shift));
    if Shr(clc, shift) != latch then U64 - 1 else clc
  }

  /** Whether mult - 1 is added before dividing. */
  predicate RoundsUp(latch: nat, mult: nat, shift: nat, ismax: bool) {
    U64 - 1 - ShiftedLatch(latch, shift) > mult - 1 && (!ismax || mult <= Pow2(shift))
  }

  function RawNs(latch: nat, mult: nat, shift: nat, ismax: bool): nat
    requires mult > 0
  {
    Quot(ShiftedLatch(latch, shift) + (if RoundsUp(latch, mult, shift, ismax) then mult - 1 else 0), mult)
  }

  /** cev_delta2ns; a zero mult is repaired to 1. */
  function Delta2Ns(latch: nat, mult0: nat, shift: nat, ismax: bool): nat {
    var mult := if mult0 == 0 then 1 else mult0;
    var clc := RawNs(latch, mult, shift, ismax);
    if clc > 1000 then clc else 1000
  }

  /** The conversion back, as clockevents_program_event does it. */
  function Ns2Delta(ns: nat, mult: nat, shift: nat): nat {
    Shr(Wrap64(ns * mult), shift)
  }

  /** How long clockevents_config makes the conversion range, in seconds. */
  function MaxSeconds(ticks: nat, freq: nat): nat
    requires freq > 0
  {
    var sec := ticks / freq;
    if sec == 0 then 1 else if sec > 600 && ticks >= U32 then 600 else sec
  }

  predicate Device(latch: nat, mult: nat, shift: nat) {
    latch < U64 && 0 < mult < U32 && shift < 64
  }

  lemma ShiftedExact(latch: nat, shift: nat)
    requires latch < U64 && shift < 64
    ensures latch * Pow2(shift) < U64 ==> ShiftedLatch(latch, shift) == latch * Pow2(shift)
    ensures latch * Pow2(shift) >= U64 ==> ShiftedLatch(latch, shift) == U64 - 1 && Shr(U64 - 1, shift) < latch
  {
    var p := Pow2(shift);
    var clc := Wrap64(Shl(latch, shift));
    QuotIs(clc, p, latch);
    QuotBounds(U64 - 1, p);
    if Shr(U64 - 1, shift) >= latch { MulLe(latch, Shr(U64 - 1, shift), p); }
  }

  /** How far the rounded division can move the product away from the dividend. */
  lemma DivideBack(clc: nat, add: nat, mult: nat)
    requires mult > 0 && (add == 0 || add == mult - 1)
    ensures var q := Quot(clc + add, mult) * mult; clc + add - mult < q <= clc + add
  {
    QuotBounds(clc + add, mult);
  }

  /** Without saturation: what is multiplied back is the shifted latch, up to mult - 1 above it
      if rounded up, up to mult - 1 below it if not. */
  lemma ConvertsBack(latch: nat, mult: nat, shift: nat, ismax: bool)
    requires Device(latch, mult, shift) && latch * Pow2(shift) < U64
    ensures var l, q := latch * Pow2(shift), RawNs(latch, mult, shift, ismax) * mult;
      && q < U64
      && (if RoundsUp(latch, mult, shift, ismax) then l <= q <= l + mult - 1 else l - mult < q <= l)
  {
    ShiftedExact(latch, shift);
    DivideBack(latch * Pow2(shift), if RoundsUp(latch, mult, shift, ismax) then mult - 1 else 0, mult);
  }

  /** When a conversion back that does not overflow gives the latch. */
  lemma BackIs(ns: nat, mult: nat, shift: nat, latch: nat)
    requires ns * mult < U64
    ensures Ns2Delta(ns, mult, shift) == Quot(ns * mult, Pow2(shift))
    ensures Ns2Delta(ns, mult, shift) == latch <==> latch * Pow2(shift) <= ns * mult < latch * Pow2(shift) + Pow2(shift)
  {
    QuotIs(ns * mult, Pow2(shift), latch);
  }

  /** What is left of 64 bits above a shifted latch is a multiple of the scale. */
  lemma RoomAbove(latch: nat, shift: nat)
    requires shift < 64 && latch * Pow2(shift) < U64
    ensures U64 - latch * Pow2(shift) >= Pow2(shift)
  {
    var k, p := Pow2(64 - shift), Pow2(shift);
    WordSizes();
    Pow2Add(64 - shift, shift);
    if k <= latch { MulLe(k, latch, p); }
    MulMono(latch, k, p);
  }

  /** For devices up to 1 GHz the division undoes itself: the rounding is left out only where
      the division is exact. */
  lemma RawRoundTrip(latch: nat, mult: nat, shift: nat, ismax: bool)
    requires Device(latch, mult, shift) && mult <= Pow2(shift) && latch * Pow2(shift) < U64
    ensures latch * Pow2(shift) <= RawNs(latch, mult, shift, ismax) * mult < (latch + 1) * Pow2(shift)
    ensures Ns2Delta(RawNs(latch, mult, shift, ismax), mult, shift) == latch
  {
    var p, ns := Pow2(shift), RawNs(latch, mult, shift, ismax);
    ConvertsBack(latch, mult, shift, ismax);
    if !RoundsUp(latch, mult, shift, ismax) {
      NotRounded(latch, mult, shift, ismax);
      SameProduct(ns, latch, p, mult);
    }
    assert (latch + 1) * p == latch * p + p;
    BackIs(ns, mult, shift, latch);
  }

  lemma NotRounded(latch: nat, mult: nat, shift: nat, ismax: bool)
    requires Device(latch, mult, shift) && mult <= Pow2(shift) && latch * Pow2(shift) < U64
    requires !RoundsUp(latch, mult, shift, ismax)
    ensures mult == Pow2(shift)
  {
    ShiftedExact(latch, shift);
    RoomAbove(latch, shift);
  }

  lemma SameProduct(ns: nat, latch: nat, p: nat, mult: nat)
    requires mult == p > 0 && latch * p - mult < ns * mult <= latch * p
    ensures ns == latch
  {
    QuotIs(latch * p, p, ns);
    QuotIs(latch * p, p, latch);
  }

  /** For devices up to 1 GHz the conversion there and back is exact, unless the shift lost bits
      or the floor of 1000 ns is more than the latch; this tells exactly when. */
  lemma RoundTrip(latch: nat, mult: nat, shift: nat, ismax: bool)
    requires Device(latch, mult, shift) && mult <= Pow2(shift)
    ensures Ns2Delta(Delta2Ns(latch, mult, shift, ismax), mult, shift) == latch <==>
      latch * Pow2(shift) < U64 && 1000 * mult < (latch + 1) * Pow2(shift)
  {
    if latch * Pow2(shift) >= U64 {
      SaturatedFalls(latch, mult, shift, ismax);
    } else {
      var ns := RawNs(latch, mult, shift, ismax);
      RawRoundTrip(latch, mult, shift, ismax);
      BackIs(1000, mult, shift, latch);
      if ns <= 1000 { MulLe(ns, 1000, mult); } else { MulLe(1000, ns, mult); }
    }
  }

  /** On a 1 GHz device one tick comes back as a thousand. */
  lemma FloorExample(shift: nat)
    requires 0 < shift < 32
    ensures Device(1, Pow2(shift), shift)
    ensures Ns2Delta(Delta2Ns(1, Pow2(shift), shift, false), Pow2(shift), shift) == 1000
  {
    var p := Pow2(shift);
    ShiftAtMost32(shift + 1);
    RawRoundTrip(1, p, shift, false);
    var ns := RawNs(1, p, shift, false);
    if ns > 1000 { MulLe(1001, ns, p); }
    BackIs(1000, p, shift, 1000);
  }

  /** A saturated conversion never comes back. */
  lemma SaturatedFalls(latch: nat, mult: nat, shift: nat, ismax: bool)
    requires Device(latch, mult, shift) && latch * Pow2(shift) >= U64
    ensures Ns2Delta(Delta2Ns(latch, mult, shift, ismax), mult, shift) < latch
  {
    ShiftedExact(latch, shift);
    var ns := RawNs(latch, mult, shift, ismax);
    assert ns == Quot(U64 - 1, mult);
    QuotBounds(U64 - 1, mult);
    if ns <= 1000 { MulLe(ns, 1000, mult); }
    BackIs(ns, mult, shift, latch);
    QuotMono(ns * mult, U64 - 1, Pow2(shift));
  }

  /** The upper limit converts back to no more than the device can count exactly when the floor
      of 1000 ns does, whatever the frequency. */
  lemma UpperLimit(latch: nat, mult: nat, shift: nat)
    requires Device(latch, mult, shift)
    ensures Ns2Delta(Delta2Ns(latch, mult, shift, true), mult, shift) <= latch <==>
      1000 * mult < (latch + 1) * Pow2(shift)
  {
    var l := latch * Pow2(shift);
    if l >= U64 {
      SaturatedFalls(latch, mult, shift, true);
    } else {
      var ns := RawNs(latch, mult, shift, true);
      RawAtMost(latch, mult, shift);
      if ns <= 1000 {
        BackIs(1000, mult, shift, latch);
        AtMost(1000 * mult, latch, Pow2(shift));
      } else {
        MulLe(1000, ns, mult);
        BackIs(ns, mult, shift, latch);
        AtMost(ns * mult, latch, Pow2(shift));
      }
    }
  }

  lemma RawAtMost(latch: nat, mult: nat, shift: nat)
    requires Device(latch, mult, shift) && latch * Pow2(shift) < U64
    ensures RawNs(latch, mult, shift, true) * mult < (latch + 1) * Pow2(shift)
    ensures RawNs(latch, mult, shift, true) * mult < U64
  {
    ConvertsBack(latch, mult, shift, true);
    if mult <= Pow2(shift) { RawRoundTrip(latch, mult, shift, true); }
  }

  lemma AtMost(q: nat, latch: nat, p: nat)
    requires p > 0
    ensures Quot(q, p) <= latch <==> q < (latch + 1) * p
  {
    QuotBounds(q, p);
    if Quot(q, p) <= latch { MulLe(Quot(q, p), latch, p); } else { MulLe(latch + 1, Quot(q, p), p); }
  }

  /** A ratio of three halves. */
  lemma ScaledThreeHalves(from: nat, to: nat, u: nat, sft: nat)
    requires from == 2 * u > 0 && to == 3 * u && sft > 0
    ensures Scaled(from, to, sft) == 3 * Pow2(sft - 1)
  {
    var q := 3 * Pow2(sft - 1);
    assert to * (2 * Pow2(sft - 1)) == q * from;
    QuotIs(to * (2 * Pow2(sft - 1)) + u, from, q);
  }

  lemma ScaledThreefold(from: nat, to: nat, sft: nat)
    requires from > 0 && to == 3 * from
    ensures Scaled(from, to, sft) == 3 * Pow2(sft)
  {
    var q := 3 * Pow2(sft);
    assert to * Pow2(sft) == q * from;
    QuotIs(to * Pow2(sft) + from / 2, from, q);
  }

  /** A device of 1.5 GHz that counts one tick: the upper limit allows 1500 of them. */
  lemma UpperLimitExample(mult: nat, shift: nat)
    requires MultShift(1_000_000_000, 1_500_000_000, MaxSeconds(1, 1_500_000_000), mult, shift)
    ensures Device(1, mult, shift) && Ns2Delta(Delta2Ns(1, mult, shift, true), mult, shift) == 1500
  {
    SmallRoom(1_000_000_000);
    ThreeHalvesShift(1_000_000_000, 1_500_000_000, 500_000_000, 1, mult, shift);
    ThreeHalvesUpper(mult, shift);
  }

  lemma SmallRoom(from: nat)
    requires from < U32
    ensures Room(from, 1) == 32
  {
    ModUnique(from, U32, 0, from);
  }

  lemma ThreeHalvesShift(from: nat, to: nat, u: nat, maxsec: nat, mult: nat, shift: nat)
    requires from == 2 * u > 0 && to == 3 * u && Room(from, maxsec) == 32 && MultShift(from, to, maxsec, mult, shift)
    ensures 0 < shift < 32 && mult == 3 * Pow2(shift - 1) && mult < U32
  {
    ScaledThreeHalves(from, to, u, 1);
    WordSizes();
    Pow2Mono(2, 32);
    assert !TooLarge(from, to, 1, 32);
    ScaledThreeHalves(from, to, u, 32);
    assert TooLarge(from, to, 32, 32) by { assert Pow2(32) == 2 * Pow2(31); }
    if shift > 0 { ScaledThreeHalves(from, to, u, shift); }
  }

  lemma ThreeHalvesUpper(mult: nat, shift: nat)
    requires 0 < shift < 32 && mult == 3 * Pow2(shift - 1) && mult < U32
    ensures Device(1, mult, shift) && Ns2Delta(Delta2Ns(1, mult, shift, true), mult, shift) == 1500
  {
    var h := Pow2(shift - 1);
    ShiftAtMost32(shift);
    RawAtMost(1, mult, shift);
    var ns := RawNs(1, mult, shift, true);
    if ns > 1 { MulLe(2, ns, mult); }
    BackIs(1000, mult, shift, 1500);
  }

  /**
   The lower limit converts back to no less than the device needs exactly when the shift loses no
   bits and the division was rounded up or exact; and to no more than (mult - 1) >> shift above
   that, unless it is the floor of 1000 ns.
   */
  lemma LowerLimit(latch: nat, mult: nat, shift: nat)
    requires Device(latch, mult, shift)
    ensures var l, back := latch * Pow2(shift), Ns2Delta(Delta2Ns(latch, mult, shift, false), mult, shift);
      && (latch <= back <==> l < U64 && (U64 - l > mult || Quot(l, mult) * mult == l))
      && (back <= latch + Shr(mult - 1, shift) || back == Shr(1000 * mult, shift))
  {
    var l, p, ns := latch * Pow2(shift), Pow2(shift), RawNs(latch, mult, shift, false);
    if l >= U64 {
      SaturatedFalls(latch, mult, shift, false);
    } else {
      ShiftedExact(latch, shift);
      ConvertsBack(latch, mult, shift, false);
      BackIs(ns, mult, shift, latch);
      BackIs(1000, mult, shift, latch);
      if RoundsUp(latch, mult, shift, false) {
        Overshoot(ns * mult, latch, mult, p);
        if ns <= 1000 { MulLe(ns, 1000, mult); QuotMono(ns * mult, 1000 * mult, p); }
      } else {
        FarFromFloor(l, mult, ns);
        NotAbove(ns * mult, latch, p);
      }
    }
  }

  /** Where the rounding was left out, the latch is near the end of 64 bits. */
  lemma FarFromFloor(l: nat, mult: nat, ns: nat)
    requires 0 < mult < U32 && U64 - mult <= l && l - mult < ns * mult
    ensures ns > 1000
  {
    if ns <= 1000 { MulLe(ns, 1000, mult); }
  }

  /** A device of 3 GHz asked for almost 2^42 ticks: the lower limit is below that. */
  lemma LowerLimitExample(mult: nat, shift: nat, latch: nat)
    requires MultShift(1_000_000_000, 3_000_000_000, MaxSeconds(latch, 3_000_000_000), mult, shift)
    requires latch == 0x400_0000_0000 - 2
    ensures Device(latch, mult, shift) && Ns2Delta(Delta2Ns(latch, mult, shift, false), mult, shift) < latch
  {
    ModUnique(latch, 3_000_000_000, 1466, 46511102);
    TenMinutesRoom();
    ThreefoldShift(mult, shift);
    ThreefoldLower(mult, shift, latch);
  }

  lemma TenMinutesRoom()
    ensures Room(1_000_000_000, 600) == 24
  {
    ModUnique(600_000_000_000, U32, 139, 2999545856);
    assert BitLength(139) == 8;
  }

  lemma ThreefoldShift(mult: nat, shift: nat)
    requires Room(1_000_000_000, 600) == 24 && MultShift(1_000_000_000, 3_000_000_000, 600, mult, shift)
    ensures shift == 22 && mult == 3 * Pow2(shift)
  {
    ThreefoldSearch(1_000_000_000, 3_000_000_000, 600, 24, mult, shift);
  }

  lemma ThreefoldSearch(from: nat, to: nat, maxsec: nat, room: nat, mult: nat, shift: nat)
    requires from > 0 && to == 3 * from && Room(from, maxsec) == room > 2 && room <= 32
    requires MultShift(from, to, maxsec, mult, shift)
    ensures shift == room - 2 && mult == 3 * Pow2(shift)
  {
    var p := Pow2(room - 2);
    assert Pow2(room) == 2 * Pow2(room - 1) && Pow2(room - 1) == 2 * p;
    ScaledThreefold(from, to, room - 2);
    assert !TooLarge(from, to, room - 2, room);
    if shift > 0 { ScaledThreefold(from, to, shift); }
    if shift > room - 2 { Pow2Mono(room - 1, shift); }
  }

  lemma ThreefoldLower(mult: nat, shift: nat, latch: nat)
    requires shift == 22 && mult == 3 * Pow2(shift) && latch == 0x400_0000_0000 - 2
    ensures Device(latch, mult, shift) && Ns2Delta(Delta2Ns(latch, mult, shift, false), mult, shift) < latch
  {
    Pow2Of22(shift);
    NotAMultiple(latch, Pow2(shift), mult);
    LowerLimit(latch, mult, shift);
  }

  lemma Pow2Of22(shift: nat)
    requires shift == 22
    ensures Pow2(shift) == 0x40_0000
  {
    assert Pow2(11) == 2048;
    Pow2Add(11, 11);
  }

  lemma NotAMultiple(latch: nat, p: nat, mult: nat)
    requires latch == 0x400_0000_0000 - 2 && p == 0x40_0000 && mult == 3 * p
    ensures latch * p < U64 && U64 - latch * p <= mult && Quot(latch * p, mult) * mult != latch * p
  {
    var q := Quot(latch * p, mult);
    assert q * mult == (3 * q) * p;
    if 3 * q < latch { MulMono(3 * q, latch, p); }
    if latch < 3 * q { MulMono(latch, 3 * q, p); }
  }

  lemma NotAbove(q: nat, latch: nat, p: nat)
    requires p > 0
    ensures q <= latch * p ==> Quot(q, p) <= latch
  {
    QuotIs(latch * p, p, latch);
    if q <= latch * p { QuotMono(q, latch * p, p); }
  }

  lemma Overshoot(q: nat, latch: nat, mult: nat, p: nat)
    requires p > 0 && mult > 0 && latch * p <= q <= latch * p + mult - 1
    ensures latch <= Quot(q, p) <= latch + Quot(mult - 1, p)
  {
    var k := Quot(mult - 1, p);
    QuotBounds(mult - 1, p);
    QuotIs(latch * p, p, latch);
    QuotMono(latch * p, q, p);
    var top := latch * p + (mult - 1);
    assert (latch + k) * p == latch * p + k * p;
    QuotIs(top, p, latch + k);
    QuotMono(q, top, p);
  }
}
