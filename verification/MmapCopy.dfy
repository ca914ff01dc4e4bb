/**
 Copying between a buffer and another address space (kernel/mm/mmap.c): the walk over VMAs
 and their pages refines a copy that goes byte by byte through a flat memory.
 */
module MmapCopy {
  import opened Wrappers

  const PAGE: nat := 4096
  const U64: nat := 0x1_0000_0000_0000_0000
  const U32: nat := 0x1_0000_0000
  const EPERM: int := 1
  const EINVAL: int := 22

  /** A VMA and the numbers of the physical pages behind it. */
  datatype Vma = Vma(start: nat, end: nat, pages: seq<nat>)

  predicate Contains(v: Vma, va: nat) { v.start <= va < v.end }

  predicate VmaOk(v: Vma, frames: nat) {
    && v.start % PAGE == 0 && v.start < v.end < U64 && v.end - v.start == |v.pages| * PAGE
    && |v.pages| < U32 / 2
    && forall k :: 0 <= k < |v.pages| ==> v.pages[k] < frames
  }

  /** The VMAs of an address space in the order of its tree: disjoint and ascending. */
  ghost predicate VmasOk(vmas: seq<Vma>, bytes: nat) {
    && bytes % PAGE == 0
    && (forall i :: 0 <= i < |vmas| ==> VmaOk(vmas[i], bytes / PAGE))
    && (forall i, j :: 0 <= i < j < |vmas| ==> vmas[i].end <= vmas[j].start)
  }

  /** The physical address behind an address of v. */
  function Phys(v: Vma, va: nat): (p: nat)
    requires Contains(v, va) && v.end - v.start == |v.pages| * PAGE
  {
    v.pages[(va - v.start) / PAGE] * PAGE + (va - v.start) % PAGE
  }

  // ------------------------------------------------------------- the flat reference

  /** The physical address behind a virtual one, if any. */
  function Trans(vmas: seq<Vma>, va: nat): Option<nat> {
    if vmas == [] then None
    else if Contains(vmas[0], va) && vmas[0].end - vmas[0].start == |vmas[0].pages| * PAGE then Some(Phys(vmas[0], va))
    else Trans(vmas[1..], va)
  }

  predicate Mapped(vmas: seq<Vma>, bytes: nat, va: nat) {
    Trans(vmas, va).Some? && Trans(vmas, va).value < bytes
  }

  /** How many of the next `size` bytes are mapped without a gap. */
  function Prefix(vmas: seq<Vma>, bytes: nat, va: nat, size: nat): (n: nat)
    ensures n <= size && (n < size ==> !Mapped(vmas, bytes, va + n))
    ensures forall b :: va <= b < va + n ==> Mapped(vmas, bytes, b)
    decreases size
  {
    if size == 0 || !Mapped(vmas, bytes, va) then 0 else 1 + Prefix(vmas, bytes, va + 1, size - 1)
  }

  /** Reading byte by byte until the first gap. */
  function FlatOut(mem: seq<int>, vmas: seq<Vma>, va: nat, size: nat): seq<int>
    decreases size
  {
    if size == 0 || !Mapped(vmas, |mem|, va) then []
    else [mem[Trans(vmas, va).value]] + FlatOut(mem, vmas, va + 1, size - 1)
  }

  /** Writing byte by byte until the first gap. */
  function FlatIn(mem: seq<int>, vmas: seq<Vma>, va: nat, data: seq<int>): (r: seq<int>)
    ensures |r| == |mem|
    decreases |data|
  {
    if data == [] || !Mapped(vmas, |mem|, va) then mem
    else FlatIn(mem[Trans(vmas, va).value := data[0]], vmas, va + 1, data[1..])
  }

  // ----------------------------------------------------------- properties of the flat copy

  /** Different addresses have different bytes behind them. */
  ghost predicate Injective(vmas: seq<Vma>) {
    forall a: nat, b: nat :: a != b && Trans(vmas, a).Some? ==> Trans(vmas, b) != Trans(vmas, a)
  }

  /** Address b lies in the prefix that a copy covers, and p is the byte behind it. */
  ghost predicate Reaches(vmas: seq<Vma>, bytes: nat, va: nat, size: nat, b: nat, p: nat) {
    va <= b < va + Prefix(vmas, bytes, va, size) && Trans(vmas, b) == Some(p)
  }

  lemma {:induction false} FlatInFrame(mem: seq<int>, vmas: seq<Vma>, va: nat, data: seq<int>, p: nat)
    requires p < |mem| && forall b :: !Reaches(vmas, |mem|, va, |data|, b, p)
    ensures FlatIn(mem, vmas, va, data)[p] == mem[p]
    decreases |data|
  {
    if data != [] && Mapped(vmas, |mem|, va) {
      var mem2, next, rest := mem[Trans(vmas, va).value := data[0]], va + 1, data[1..];
      forall b
        ensures !Reaches(vmas, |mem|, next, |rest|, b, p)
      {
        assert !Reaches(vmas, |mem|, va, |data|, b, p);
      }
      assert !Reaches(vmas, |mem|, va, |data|, va, p);
      FlatInFrame(mem2, vmas, next, rest, p);
    }
  }

  /** A copy in touches nothing but the bytes behind the prefix it covers. */
  lemma CopyInTouchesOnly(mem: seq<int>, vmas: seq<Vma>, va: nat, data: seq<int>, p: nat)
    requires p < |mem| && FlatIn(mem, vmas, va, data)[p] != mem[p]
    ensures exists b :: Reaches(vmas, |mem|, va, |data|, b, p)
  {
    if forall b :: !Reaches(vmas, |mem|, va, |data|, b, p) {
      FlatInFrame(mem, vmas, va, data, p);
      assert false;
    }
  }

  /** Copying in and then out of the same range gives back the bytes, as far as the range is mapped. */
  lemma {:induction false} CopyInThenOut(mem: seq<int>, vmas: seq<Vma>, va: nat, data: seq<int>)
    requires Injective(vmas)
    ensures FlatOut(FlatIn(mem, vmas, va, data), vmas, va, |data|) == data[..Prefix(vmas, |mem|, va, |data|)]
    decreases |data|
  {
    if data != [] && Mapped(vmas, |mem|, va) {
      var p, next, rest := Trans(vmas, va).value, va + 1, data[1..];
      var mem2 := mem[p := data[0]];
      CopyInThenOut(mem2, vmas, next, rest);
      FlatInFrame(mem2, vmas, next, rest, p);
      var n, mem3 := Prefix(vmas, |mem|, next, |rest|), FlatIn(mem2, vmas, next, rest);
      assert FlatIn(mem, vmas, va, data) == mem3 && mem3[p] == data[0];
      assert FlatOut(mem3, vmas, va, |data|) == [data[0]] + rest[..n];
      assert data[..1 + n] == [data[0]] + rest[..n];
    }
  }

  /** A copy out yields exactly the mapped prefix. */
  lemma {:induction false} CopyOutLength(mem: seq<int>, vmas: seq<Vma>, va: nat, size: nat)
    ensures |FlatOut(mem, vmas, va, size)| == Prefix(vmas, |mem|, va, size)
    decreases size
  {
    if size > 0 && Mapped(vmas, |mem|, va) { CopyOutLength(mem, vmas, va + 1, size - 1); }
  }

  /** No physical page is behind two places. */
  ghost predicate DistinctPages(vmas: seq<Vma>) {
    forall i, k, j, l ::
      0 <= i < |vmas| && 0 <= j < |vmas| && 0 <= k < |vmas[i].pages| && 0 <= l < |vmas[j].pages| ==>
        vmas[i].pages[k] == vmas[j].pages[l] ==> i == j && k == l
  }

  lemma {:induction false} TransSome(vmas: seq<Vma>, va: nat) returns (i: nat)
    requires Trans(vmas, va).Some?
    ensures i < |vmas| && Contains(vmas[i], va) && vmas[i].end - vmas[i].start == |vmas[i].pages| * PAGE
    ensures Trans(vmas, va) == Some(Phys(vmas[i], va))
    decreases |vmas|
  {
    if Contains(vmas[0], va) && vmas[0].end - vmas[0].start == |vmas[0].pages| * PAGE {
      i := 0;
    } else {
      i := TransSome(vmas[1..], va);
      i := i + 1;
    }
  }

  lemma PhysApart(v: Vma, a: nat, u: Vma, b: nat)
    requires Contains(v, a) && v.end - v.start == |v.pages| * PAGE
    requires Contains(u, b) && u.end - u.start == |u.pages| * PAGE
    requires Phys(v, a) == Phys(u, b)
    ensures v.pages[(a - v.start) / PAGE] == u.pages[(b - u.start) / PAGE]
    ensures (a - v.start) % PAGE == (b - u.start) % PAGE
  {
  }

  lemma SameByteSameAddress(vmas: seq<Vma>, a: nat, b: nat)
    requires DistinctPages(vmas) && Trans(vmas, a).Some? && Trans(vmas, b) == Trans(vmas, a)
    ensures a == b
  {
    var i := TransSome(vmas, a);
    var j := TransSome(vmas, b);
    PhysApart(vmas[i], a, vmas[j], b);
    assert i == j && (a - vmas[i].start) / PAGE == (b - vmas[j].start) / PAGE;
  }

  /** Then different addresses have different bytes behind them. */
  lemma DistinctPagesInjective(vmas: seq<Vma>)
    requires DistinctPages(vmas)
    ensures Injective(vmas)
  {
    forall a: nat, b: nat | Trans(vmas, a).Some? && Trans(vmas, b) == Trans(vmas, a)
      ensures a == b
    {
      SameByteSameAddress(vmas, a, b);
    }
  }

  // ------------------------------------------------------------------ one VMA, one page

  lemma {:induction false} TransIn(vmas: seq<Vma>, bytes: nat, i: nat, va: nat)
    requires VmasOk(vmas, bytes) && i < |vmas| && Contains(vmas[i], va)
    ensures Trans(vmas, va) == Some(Phys(vmas[i], va)) && Phys(vmas[i], va) < bytes
    decreases i
  {
    PhysInMemory(vmas[i], bytes, va);
    if i > 0 {
      assert vmas[0].end <= vmas[i].start;
      TransIn(vmas[1..], bytes, i - 1, va);
    }
  }

  lemma PhysInMemory(v: Vma, bytes: nat, va: nat)
    requires bytes % PAGE == 0 && VmaOk(v, bytes / PAGE) && Contains(v, va)
    ensures Phys(v, va) < bytes
  {
    assert v.pages[(va - v.start) / PAGE] < bytes / PAGE;
  }

  /** The address is in none of the VMAs. */
  ghost predicate InGap(vmas: seq<Vma>, va: nat) {
    forall i :: 0 <= i < |vmas| ==> !Contains(vmas[i], va)
  }

  /** Then it is not mapped. */
  lemma {:induction false} TransNone(vmas: seq<Vma>, va: nat)
    requires InGap(vmas, va)
    ensures Trans(vmas, va) == None
    decreases |vmas|
  {
    if vmas != [] {
      assert !Contains(vmas[0], va);
      TransNone(vmas[1..], va);
    }
  }

  /** The end of a VMA is not mapped unless the next VMA begins there. */
  lemma GapAfter(vmas: seq<Vma>, bytes: nat, i: nat)
    requires VmasOk(vmas, bytes) && 0 < i <= |vmas| && (i < |vmas| ==> vmas[i].start != vmas[i - 1].end)
    ensures InGap(vmas, vmas[i - 1].end)
  {
    forall j | 0 <= j < |vmas|
      ensures !Contains(vmas[j], vmas[i - 1].end)
    {
      EndOutside(vmas, bytes, i, j);
    }
  }

  lemma EndOutside(vmas: seq<Vma>, bytes: nat, i: nat, j: nat)
    requires VmasOk(vmas, bytes) && 0 < i <= |vmas| && (i < |vmas| ==> vmas[i].start != vmas[i - 1].end) && j < |vmas|
    ensures !Contains(vmas[j], vmas[i - 1].end)
  {
    assert VmaOk(vmas[i - 1], bytes / PAGE) && VmaOk(vmas[j], bytes / PAGE);
    if j < i - 1 {
      assert vmas[j].end <= vmas[i - 1].start;
    } else if j >= i {
      assert vmas[i - 1].end <= vmas[i].start;
      assert j > i ==> vmas[i].end <= vmas[j].start;
      assert VmaOk(vmas[i], bytes / PAGE);
    }
  }

  lemma StartInside(vmas: seq<Vma>, bytes: nat, i: nat)
    requires VmasOk(vmas, bytes) && i < |vmas|
    ensures Contains(vmas[i], vmas[i].start)
  {
    assert VmaOk(vmas[i], bytes / PAGE);
  }

  /** `data` written over mem from p on. */
  function Splice(mem: seq<int>, p: nat, data: seq<int>): seq<int>
    requires p + |data| <= |mem|
  {
    mem[..p] + data + mem[p + |data|..]
  }

  lemma SpliceIs(was: seq<int>, pos: nat, data: seq<int>, now: seq<int>)
    requires pos + |data| <= |was| == |now|
    requires forall k :: 0 <= k < |was| ==> now[k] == if pos <= k < pos + |data| then data[k - pos] else was[k]
    ensures now == Splice(was, pos, data)
  {
  }

  /** n bytes from va on lie within one page of the i-th VMA. */
  ghost predicate InPage(vmas: seq<Vma>, bytes: nat, i: nat, va: nat, n: nat) {
    VmasOk(vmas, bytes) && i < |vmas| && Contains(vmas[i], va) && (va - vmas[i].start) % PAGE + n <= PAGE
  }

  /** The n bytes from va on lie one after the other in memory, from p on. */
  ghost predicate Along(vmas: seq<Vma>, va: nat, p: nat, n: nat) {
    forall b :: va <= b < va + n ==> Trans(vmas, b) == Some(p + (b - va))
  }

  /** Within a page, physical addresses run along with virtual ones. */
  lemma PageAlong(vmas: seq<Vma>, bytes: nat, i: nat, va: nat, n: nat)
    requires InPage(vmas, bytes, i, va, n)
    ensures Phys(vmas[i], va) + n <= bytes && Along(vmas, va, Phys(vmas[i], va), n)
  {
    assert vmas[i].pages[(va - vmas[i].start) / PAGE] < bytes / PAGE;
    forall b | va <= b < va + n
      ensures Trans(vmas, b) == Some(Phys(vmas[i], va) + (b - va))
    {
      SamePage(vmas[i], va, b);
      TransIn(vmas, bytes, i, b);
    }
  }

  lemma SamePage(v: Vma, va: nat, b: nat)
    requires v.end - v.start == |v.pages| * PAGE && Contains(v, va)
    requires va <= b && (va - v.start) % PAGE + (b - va) < PAGE
    ensures Contains(v, b) && Phys(v, b) == Phys(v, va) + (b - va)
  {
  }

  lemma SpliceOne(mem: seq<int>, p: nat, data: seq<int>, n: nat)
    requires 0 < n <= |data| && p + n <= |mem|
    ensures Splice(mem, p, data[..n - 1])[p + (n - 1) := data[n - 1]] == Splice(mem, p, data[..n])
    ensures data[n - 1..][1..] == data[n..] && data[n - 1..][0] == data[n - 1]
  {
  }

  lemma {:induction false} ChunkIn(mem: seq<int>, vmas: seq<Vma>, va: nat, p: nat, data: seq<int>, n: nat)
    requires Along(vmas, va, p, n) && p + n <= |mem| && n <= |data|
    ensures FlatIn(mem, vmas, va, data) == FlatIn(Splice(mem, p, data[..n]), vmas, va + n, data[n..])
    decreases n
  {
    if n == 0 {
      assert Splice(mem, p, data[..0]) == mem && data[0..] == data;
    } else {
      ChunkIn(mem, vmas, va, p, data, n - 1);
      assert Trans(vmas, va + (n - 1)) == Some(p + (n - 1));
      SpliceOne(mem, p, data, n);
    }
  }

  lemma {:induction false} ChunkOut(mem: seq<int>, vmas: seq<Vma>, va: nat, p: nat, size: nat, n: nat)
    requires Along(vmas, va, p, n) && p + n <= |mem| && n <= size
    ensures FlatOut(mem, vmas, va, size) == mem[p..p + n] + FlatOut(mem, vmas, va + n, size - n)
    decreases n
  {
    if n > 0 {
      ChunkOut(mem, vmas, va, p, size, n - 1);
      assert Trans(vmas, va + (n - 1)) == Some(p + (n - 1));
      assert mem[p..p + (n - 1)] + [mem[p + (n - 1)]] == mem[p..p + n];
      assert FlatOut(mem, vmas, va + (n - 1), size - (n - 1)) ==
             [mem[p + (n - 1)]] + FlatOut(mem, vmas, va + n, size - n);
    }
  }

  lemma {:induction false} ChunkPrefix(bytes: nat, vmas: seq<Vma>, va: nat, p: nat, size: nat, n: nat)
    requires Along(vmas, va, p, n) && p + n <= bytes && n <= size
    ensures Prefix(vmas, bytes, va, size) == n + Prefix(vmas, bytes, va + n, size - n)
    decreases n
  {
    if n > 0 {
      ChunkPrefix(bytes, vmas, va, p, size, n - 1);
      assert Trans(vmas, va + (n - 1)) == Some(p + (n - 1));
    }
  }

  // ---------------------------------------------------------------------- the copy

  /** A copy as it was asked for: `size` bytes at `addr`, out of the address space or into it,
      with the memory and the buffer it found. */
  datatype Request = Request(vmas: seq<Vma>, mem: seq<int>, buf: seq<int>, addr: nat, size: nat, out: bool)

  /** `pos` bytes are in the buffer, and the rest of the flat copy is still to come. */
  ghost predicate OutProgress(q: Request, mem: seq<int>, buf: seq<int>, pos: nat)
    requires pos <= q.size <= |q.buf| == |buf|
  {
    && mem == q.mem && buf[pos..] == q.buf[pos..]
    && FlatOut(q.mem, q.vmas, q.addr, q.size) == buf[..pos] + FlatOut(q.mem, q.vmas, q.addr + pos, q.size - pos)
  }

  /** The flat copy goes on from the present memory with the data after `pos`. */
  ghost predicate InProgress(q: Request, mem: seq<int>, buf: seq<int>, pos: nat)
    requires pos <= q.size <= |q.buf| == |buf|
  {
    && buf == q.buf && |mem| == |q.mem|
    && FlatIn(q.mem, q.vmas, q.addr, q.buf[..q.size]) == FlatIn(mem, q.vmas, q.addr + pos, q.buf[pos..q.size])
  }

  /** The first `pos` bytes are mapped; how many more are is still open. */
  ghost predicate Counted(q: Request, pos: nat)
    requires pos <= q.size
  {
    Prefix(q.vmas, |q.mem|, q.addr, q.size) == pos + Prefix(q.vmas, |q.mem|, q.addr + pos, q.size - pos)
  }

  ghost predicate Progress(q: Request, mem: seq<int>, buf: seq<int>, pos: nat) {
    && pos <= q.size <= |q.buf| == |buf|
    && Counted(q, pos) && if q.out then OutProgress(q, mem, buf, pos) else InProgress(q, mem, buf, pos)
  }

  lemma TailAfter(buf: seq<int>, buf0: seq<int>, pos: nat, chunk: seq<int>)
    requires |buf| == |buf0| && pos + |chunk| <= |buf| && buf[pos..] == buf0[pos..]
    ensures Splice(buf, pos, chunk)[pos + |chunk|..] == buf0[pos + |chunk|..]
  {
    assert buf[pos..][|chunk|..] == buf[pos + |chunk|..];
    assert buf0[pos..][|chunk|..] == buf0[pos + |chunk|..];
  }

  lemma HeadAfter(whole: seq<int>, buf: seq<int>, pos: nat, chunk: seq<int>, rest: seq<int>)
    requires pos + |chunk| <= |buf| && whole == buf[..pos] + (chunk + rest)
    ensures whole == Splice(buf, pos, chunk)[..pos + |chunk|] + rest
  {
    assert Splice(buf, pos, chunk)[..pos + |chunk|] == buf[..pos] + chunk;
  }

  lemma OutChunk(q: Request, buf: seq<int>, pos: nat, n: nat, p: nat)
    requires pos + n <= q.size <= |q.buf| == |buf| && OutProgress(q, q.mem, buf, pos)
    requires Along(q.vmas, q.addr + pos, p, n) && p + n <= |q.mem|
    ensures OutProgress(q, q.mem, Splice(buf, pos, q.mem[p..p + n]), pos + n)
  {
    ChunkOut(q.mem, q.vmas, q.addr + pos, p, q.size - pos, n);
    TailAfter(buf, q.buf, pos, q.mem[p..p + n]);
    HeadAfter(FlatOut(q.mem, q.vmas, q.addr, q.size), buf, pos, q.mem[p..p + n],
              FlatOut(q.mem, q.vmas, q.addr + (pos + n), q.size - (pos + n)));
  }

  lemma InChunk(q: Request, mem: seq<int>, pos: nat, n: nat, p: nat)
    requires pos + n <= q.size <= |q.buf| && InProgress(q, mem, q.buf, pos)
    requires Along(q.vmas, q.addr + pos, p, n) && p + n <= |mem|
    ensures InProgress(q, Splice(mem, p, q.buf[pos..pos + n]), q.buf, pos + n)
  {
    SliceIn(mem, q.vmas, q.addr + pos, p, q.buf, pos, n, q.size);
  }

  lemma SliceIn(mem: seq<int>, vmas: seq<Vma>, va: nat, p: nat, buf: seq<int>, pos: nat, n: nat, size: nat)
    requires pos + n <= size <= |buf| && Along(vmas, va, p, n) && p + n <= |mem|
    ensures FlatIn(mem, vmas, va, buf[pos..size]) ==
            FlatIn(Splice(mem, p, buf[pos..pos + n]), vmas, va + n, buf[pos + n..size])
  {
    ChunkIn(mem, vmas, va, p, buf[pos..size], n);
    SliceParts(buf, pos, n, size);
  }

  lemma SliceParts(buf: seq<int>, pos: nat, n: nat, size: nat)
    requires pos + n <= size <= |buf|
    ensures buf[pos..size][..n] == buf[pos..pos + n] && buf[pos..size][n..] == buf[pos + n..size]
  {
  }

  /** One memcpy of bytes that lie together carries the copy on. */
  lemma ChunkProgress(q: Request, mem: seq<int>, buf: seq<int>, pos: nat, n: nat, p: nat)
    requires Progress(q, mem, buf, pos) && pos + n <= q.size && p + n <= |mem| == |q.mem|
    requires Along(q.vmas, q.addr + pos, p, n)
    ensures q.out ==> Progress(q, mem, Splice(buf, pos, mem[p..p + n]), pos + n)
    ensures !q.out ==> Progress(q, Splice(mem, p, buf[pos..pos + n]), buf, pos + n)
  {
    CountChunk(q, pos, n, p);
    if q.out { OutChunk(q, buf, pos, n, p); } else { InChunk(q, mem, pos, n, p); }
  }

  lemma CountChunk(q: Request, pos: nat, n: nat, p: nat)
    requires pos + n <= q.size && Counted(q, pos) && p + n <= |q.mem| && Along(q.vmas, q.addr + pos, p, n)
    ensures Counted(q, pos + n)
  {
    ChunkPrefix(|q.mem|, q.vmas, q.addr + pos, p, q.size - pos, n);
  }

  lemma StartProgress(q: Request)
    requires q.size <= |q.buf|
    ensures Progress(q, q.mem, q.buf, 0)
  {
    assert q.buf[0..q.size] == q.buf[..q.size];
  }

  /** Once everything is copied, or a gap is reached, the flat copy is complete too. */
  lemma EndProgress(q: Request, mem: seq<int>, buf: seq<int>, pos: nat)
    requires Progress(q, mem, buf, pos) && (pos == q.size || !Mapped(q.vmas, |q.mem|, q.addr + pos))
    ensures pos == Prefix(q.vmas, |q.mem|, q.addr, q.size)
    ensures q.out ==> buf == FlatOut(q.mem, q.vmas, q.addr, q.size) + q.buf[pos..]
    ensures !q.out ==> mem == FlatIn(q.mem, q.vmas, q.addr, q.buf[..q.size])
  {
    if q.out {
      assert FlatOut(q.mem, q.vmas, q.addr + pos, q.size - pos) == [];
      assert buf == buf[..pos] + buf[pos..];
    }
  }

  /** A memcpy of bytes that lie together carries J on. */
  ghost predicate Kept(J: (seq<int>, seq<int>, nat) -> bool, q: Request, mem: seq<int>, buf: seq<int>, pos: nat,
                       va: nat, p: nat, n: nat)
  {
    && J(mem, buf, pos) && va == q.addr + pos && Along(q.vmas, va, p, n)
    && p + n <= |mem| == |q.mem| && pos + n <= q.size <= |buf|
    ==> if q.out then J(mem, Splice(buf, pos, mem[p..p + n]), pos + n)
        else J(Splice(mem, p, buf[pos..pos + n]), buf, pos + n)
  }

  /** J is an invariant of the copy.  The walk over VMAs and pages needs to know no more about
      what it computes. */
  ghost predicate Keeps(J: (seq<int>, seq<int>, nat) -> bool, q: Request) {
    forall mem, buf, pos: nat, va: nat, p: nat, n: nat :: Kept(J, q, mem, buf, pos, va, p, n)
  }

  ghost function ProgressOf(q: Request): (seq<int>, seq<int>, nat) -> bool {
    (mem: seq<int>, buf: seq<int>, pos: nat) => Progress(q, mem, buf, pos)
  }

  lemma ProgressStep(q: Request, mem: seq<int>, buf: seq<int>, pos: nat, va: nat, p: nat, n: nat)
    ensures Kept(ProgressOf(q), q, mem, buf, pos, va, p, n)
  {
    if
      && Progress(q, mem, buf, pos) && va == q.addr + pos && Along(q.vmas, va, p, n)
      && p + n <= |mem| == |q.mem| && pos + n <= q.size
    {
      ChunkProgress(q, mem, buf, pos, n, p);
    }
  }

  /** Being part of the flat copy is such an invariant. */
  lemma ProgressKept(q: Request)
    ensures Keeps(ProgressOf(q), q)
  {
    forall mem, buf, pos: nat, va: nat, p: nat, n: nat
      ensures Kept(ProgressOf(q), q, mem, buf, pos, va, p, n)
    {
      ProgressStep(q, mem, buf, pos, va, p, n);
    }
  }

  // ------------------------------------------------------------------------ the code

  /** An unsigned long stored in an int. */
  function ToInt(n: nat): int {
    var x := n % U32;
    if x < U32 / 2 then x else x - U32
  }

  /** The int is the number exactly when the number is below 2^31. */
  lemma ToIntExact(n: nat)
    ensures ToInt(n) == n <==> n < U32 / 2
  {
  }

  /** (end - 1 - vm_start) >> PAGE_SHIFT, computed in 64 bits and stored in an int. */
  function EndIndex(end: nat, vmStart: nat): int {
    ToInt((end - 1 - vmStart) % U64 / PAGE)
  }

  lemma EndIndexIs(v: Vma, end: nat)
    requires v.end - v.start == |v.pages| * PAGE && |v.pages| < U32 / 2
    requires v.start <= end <= v.end < U64
    ensures EndIndex(end, v.start) == if end == v.start then -1 else (end - 1 - v.start) / PAGE
  {
    if end == v.start {
      assert (-1) % U64 == U64 - 1;
    } else {
      ToIntExact((end - 1 - v.start) / PAGE);
    }
  }

  /** The kernel's memory, where the buffer is, lies above all user addresses. */
  ghost predicate Above(vmas: seq<Vma>, at: nat) {
    forall i :: 0 <= i < |vmas| ==> vmas[i].end <= at
  }

  /** So no buffer is long enough for addr + size to wrap around when addr is mapped. */
  lemma NoWrap(vmas: seq<Vma>, addr: nat, size: nat, at: nat)
    requires Above(vmas, at) && at + size <= U64 && Trans(vmas, addr).Some?
    ensures addr + size < U64
  {
    var i := TransSome(vmas, addr);
  }

  /** The result of a copy of 2^31 bytes is negative: a VMA of 2^19 pages. */
  lemma LongCopyExample() returns (v: Vma, mem: seq<int>)
    ensures VmasOk([v], |mem|) && DistinctPages([v])
    ensures Prefix([v], |mem|, v.start, U32 / 2) == U32 / 2 && ToInt(U32 / 2) < 0
  {
    var k := 0x8_0000;
    v := Vma(PAGE, PAGE + k * PAGE, seq(k, i => i));
    mem := seq(k * PAGE, _ => 0);
    var n := Prefix([v], |mem|, v.start, U32 / 2);
    if n < U32 / 2 { TransIn([v], |mem|, 0, v.start + n); }
  }

  /** The offset into page k at which copying begins, and how much of the page is copied. */
  function PageOffset(v: Vma, start: nat, k: nat): nat
    requires v.start <= start
  {
    if k == (start - v.start) / PAGE then (start - v.start) % PAGE else 0
  }

  function PageSize(v: Vma, start: nat, end: nat, k: nat): int
    requires v.start <= start < end
  {
    if k == (end - 1 - v.start) / PAGE then end - (end - 1) / PAGE * PAGE - PageOffset(v, start, k)
    else if k == (start - v.start) / PAGE then PAGE - PageOffset(v, start, k)
    else PAGE
  }

  /** The address that the copy has come to before page k. */
  function Cursor(v: Vma, start: nat, end: nat, k: nat): nat
    requires v.start <= start <= end
  {
    if k <= (start - v.start) / PAGE then start else if v.start + k * PAGE < end then v.start + k * PAGE else end
  }

  lemma PageGeometry(v: Vma, start: nat, end: nat, k: nat)
    requires v.start % PAGE == 0 && v.end - v.start == |v.pages| * PAGE && v.start <= start < end <= v.end
    requires (start - v.start) / PAGE <= k <= (end - 1 - v.start) / PAGE
    ensures k < |v.pages| && PageSize(v, start, end, k) > 0
    ensures var cur := Cursor(v, start, end, k);
      && Contains(v, cur) && Phys(v, cur) == v.pages[k] * PAGE + PageOffset(v, start, k)
      && (cur - v.start) % PAGE + PageSize(v, start, end, k) <= PAGE
      && Cursor(v, start, end, k + 1) == cur + PageSize(v, start, end, k) <= end
  {
    var cur := Cursor(v, start, end, k);
    assert (cur - v.start) / PAGE == k && (cur - v.start) % PAGE == PageOffset(v, start, k);
  }

  /** The part of page k lies together in memory, and the next page goes on where it ends. */
  lemma PagePart(vmas: seq<Vma>, bytes: nat, i: nat, k: nat, start: nat, end: nat)
    requires VmasOk(vmas, bytes) && i < |vmas| && vmas[i].start <= start < end <= vmas[i].end
    requires (start - vmas[i].start) / PAGE <= k <= (end - 1 - vmas[i].start) / PAGE
    ensures k < |vmas[i].pages| && PageSize(vmas[i], start, end, k) > 0
    ensures var v := vmas[i];
      var p, n, cur := v.pages[k] * PAGE + PageOffset(v, start, k),
          PageSize(v, start, end, k), Cursor(v, start, end, k);
      p + n <= bytes && Along(vmas, cur, p, n) && Cursor(v, start, end, k + 1) == cur + n <= end
  {
    PageGeometry(vmas[i], start, end, k);
    PageAlong(vmas, bytes, i, Cursor(vmas[i], start, end, k), PageSize(vmas[i], start, end, k));
  }

  lemma EndsBefore(vmas: seq<Vma>, bytes: nat, v: Vma, k: nat, i: nat)
    requires VmasOk(vmas, bytes) && k <= i < |vmas| && v.end <= vmas[k].start
    ensures v.end <= vmas[i].start
  {
    assert i > k ==> vmas[k].end <= vmas[i].start;
    assert VmaOk(vmas[k], bytes / PAGE);
  }

  lemma InsertKeeps(vmas: seq<Vma>, bytes: nat, v: Vma, k: nat)
    requires VmasOk(vmas, bytes) && VmaOk(v, bytes / PAGE) && k <= |vmas|
    requires (forall i :: 0 <= i < k ==> vmas[i].end <= v.start) && (k < |vmas| ==> v.end <= vmas[k].start)
    ensures VmasOk(vmas[..k] + [v] + vmas[k..], bytes)
    ensures forall i :: k <= i < |vmas| ==> v.end <= vmas[i].start
  {
    forall i | k <= i < |vmas|
      ensures v.end <= vmas[i].start
    {
      EndsBefore(vmas, bytes, v, k, i);
    }
    var w := vmas[..k] + [v] + vmas[k..];
    assert forall i :: 0 <= i < |w| ==> w[i] == if i < k then vmas[i] else if i == k then v else vmas[i - 1];
  }

  class AddressSpace {
    var vmas: seq<Vma>
    var mem: seq<int>

    ghost predicate Valid()
      reads this
    {
      VmasOk(vmas, |mem|)
    }

    constructor (vmas: seq<Vma>, mem: seq<int>)
      requires VmasOk(vmas, |mem|)
      ensures Valid() && this.vmas == vmas && this.mem == mem
    {
      this.vmas, this.mem := vmas, mem;
    }

    /** __insert_vma_area: refused exactly if it overlaps a VMA that is there. */
    method InsertVma(v: Vma) returns (ok: bool)
      requires Valid() && VmaOk(v, |mem| / PAGE)
      modifies this`vmas
      ensures Valid()
      ensures ok == forall i :: 0 <= i < |old(vmas)| ==> v.end <= old(vmas)[i].start || old(vmas)[i].end <= v.start
      ensures !ok ==> vmas == old(vmas)
      ensures ok ==> exists k :: 0 <= k <= |old(vmas)| && vmas == old(vmas)[..k] + [v] + old(vmas)[k..]
    {
      var k := 0;
      while k < |vmas| && v.start >= vmas[k].end
        invariant k <= |vmas| && forall i :: 0 <= i < k ==> vmas[i].end <= v.start
      {
        k := k + 1;
      }
      if k < |vmas| && v.end > vmas[k].start {
        return false;
      }
      ghost var was := vmas;
      vmas := vmas[..k] + [v] + vmas[k..];
      InsertKeeps(was, |mem|, v, k);
      return true;
    }

    /** __find_vma_area: the VMA that holds addr, or |vmas|. */
    method FindVma(addr: nat) returns (i: nat)
      requires Valid()
      ensures i <= |vmas| && (i < |vmas| ==> Contains(vmas[i], addr))
      ensures i == |vmas| ==> InGap(vmas, addr)
    {
      i := 0;
      while i < |vmas| && !Contains(vmas[i], addr)
        invariant i <= |vmas| && forall j :: 0 <= j < i ==> !Contains(vmas[j], addr)
      {
        i := i + 1;
      }
    }

    /** memcpy between the page at p and the buffer. */
    method Memcpy(buffer: array<int>, pos: nat, p: nat, n: nat, out: bool)
      requires pos + n <= buffer.Length && p + n <= |mem|
      modifies this`mem, buffer
      ensures out ==> mem == old(mem) && buffer[..] == Splice(old(buffer[..]), pos, mem[p..p + n])
      ensures !out ==> buffer[..] == old(buffer[..]) && mem == Splice(old(mem), p, buffer[pos..pos + n])
    {
      if out {
        ghost var was := buffer[..];
        forall k | 0 <= k < n {
          buffer[pos + k] := mem[p + k];
        }
        SpliceIs(was, pos, mem[p..p + n], buffer[..]);
      } else {
        mem := Splice(mem, p, buffer[pos..pos + n]);
      }
    }

    /** Where the part of page k that is copied lies in memory, and how long it is. */
    method PartOfPage(i: nat, start: nat, end: nat, k: nat) returns (virt: nat, currSize: nat)
      requires Valid() && i < |vmas| && vmas[i].start <= start < end <= vmas[i].end
      requires (start - vmas[i].start) / PAGE <= k <= (end - 1 - vmas[i].start) / PAGE
      ensures var cur := Cursor(vmas[i], start, end, k);
        && virt + currSize <= |mem| && Along(vmas, cur, virt, currSize)
        && Cursor(vmas[i], start, end, k + 1) == cur + currSize <= end
    {
      PagePart(vmas, |mem|, i, k, start, end);
      var startOffset, size := OffsetAndSize(vmas[i], start, end, k);
      virt, currSize := vmas[i].pages[k] * PAGE + startOffset, size;
    }

    static method OffsetAndSize(v: Vma, start: nat, end: nat, k: nat) returns (startOffset: nat, currSize: int)
      requires v.start <= start < end
      ensures startOffset == PageOffset(v, start, k) && currSize == PageSize(v, start, end, k)
    {
      startOffset, currSize := 0, PAGE;
      if k == (start - v.start) / PAGE {
        startOffset := (start - v.start) % PAGE;
        currSize := PAGE - startOffset;
      }
      if k == (end - 1 - v.start) / PAGE {
        currSize := end - (end - 1) / PAGE * PAGE - startOffset;
      }
    }

    /** The copy has come to `pos` with its invariant. */
    ghost predicate At(J: (seq<int>, seq<int>, nat) -> bool, q: Request, buffer: array<int>, pos: nat)
      reads this, buffer
    {
      pos <= q.size <= buffer.Length && |mem| == |q.mem| && J(mem, buffer[..], pos)
    }

    /** One turn of the inner loop: the part of page k. */
    method CopyPage(buffer: array<int>, i: nat, k: nat, start: nat, end: nat, pos: nat, out: bool,
                    ghost q: Request, ghost J: (seq<int>, seq<int>, nat) -> bool) returns (pos2: nat)
      requires Valid() && q.vmas == vmas && q.out == out && Keeps(J, q) && At(J, q, buffer, pos)
      requires i < |vmas| && vmas[i].start <= start < end <= vmas[i].end
      requires (start - vmas[i].start) / PAGE <= k <= (end - 1 - vmas[i].start) / PAGE
      requires Cursor(vmas[i], start, end, k) == q.addr + pos && end <= q.addr + q.size
      modifies this`mem, buffer
      ensures Valid() && At(J, q, buffer, pos2) && Cursor(vmas[i], start, end, k + 1) == q.addr + pos2
    {
      var virt, currSize := PartOfPage(i, start, end, k);
      CopyChunk(buffer, pos, virt, currSize, out, q, J);
      pos2 := pos + currSize;
    }

    /** The memcpy of one part keeps the invariant. */
    method CopyChunk(buffer: array<int>, pos: nat, p: nat, n: nat, out: bool,
                     ghost q: Request, ghost J: (seq<int>, seq<int>, nat) -> bool)
      requires q.out == out && Keeps(J, q) && At(J, q, buffer, pos)
      requires pos + n <= q.size && p + n <= |mem| && Along(q.vmas, q.addr + pos, p, n)
      modifies this`mem, buffer
      ensures At(J, q, buffer, pos + n)
    {
      assert Kept(J, q, mem, buffer[..], pos, q.addr + pos, p, n);
      Memcpy(buffer, pos, p, n, out);
    }

    /** The inner loop: the pages of the i-th VMA from start to end. */
    method CopyPages(buffer: array<int>, i: nat, start: nat, end: nat, pos0: nat, out: bool,
                     ghost q: Request, ghost J: (seq<int>, seq<int>, nat) -> bool) returns (pos: nat)
      requires Valid() && q.vmas == vmas && q.out == out && Keeps(J, q) && At(J, q, buffer, pos0)
      requires i < |vmas| && vmas[i].start <= start <= end <= vmas[i].end && start == q.addr + pos0
      requires end <= q.addr + q.size && (start == end ==> start == vmas[i].start)
      modifies this`mem, buffer
      ensures Valid() && At(J, q, buffer, pos) && end == q.addr + pos
    {
      var v := vmas[i];
      assert VmaOk(v, |mem| / PAGE);
      EndIndexIs(v, end);
      var k: int, endIndex := (start - v.start) / PAGE, EndIndex(end, v.start);
      pos := pos0;
      while k < endIndex + 1
        invariant (start - v.start) / PAGE <= k && (start < end ==> k <= endIndex + 1)
        invariant Valid() && At(J, q, buffer, pos) && Cursor(v, start, end, k) == q.addr + pos
      {
        pos := CopyPage(buffer, i, k, start, end, pos, out, q, J);
        k := k + 1;
      }
    }

    /** One turn of the outer loop: what there is to copy in the i-th VMA. */
    method CopyVma(buffer: array<int>, i: nat, start: nat, pos0: nat, size: nat, out: bool,
                   ghost q: Request, ghost J: (seq<int>, seq<int>, nat) -> bool) returns (pos: nat)
      requires Valid() && q.vmas == vmas && q.out == out && Keeps(J, q) && At(J, q, buffer, pos0)
      requires q.size == size && start == q.addr + pos0 && q.addr + size < U64
      requires i < |vmas| && Contains(vmas[i], start) && (pos0 == size ==> start == vmas[i].start)
      modifies this`mem, buffer
      ensures Valid() && At(J, q, buffer, pos) && (pos == size || q.addr + pos == vmas[i].end)
    {
      var end := (start + (size - pos0)) % U64;
      if end > vmas[i].end {
        end := vmas[i].end;
      }
      pos := CopyPages(buffer, i, start, end, pos0, out, q, J);
    }

    /** The outer loop: the VMAs from the one that holds addr on, as long as they follow without a gap. */
    method CopyVmas(buffer: array<int>, at: nat, addr: nat, size: nat, out: bool,
                    ghost q: Request, ghost J: (seq<int>, seq<int>, nat) -> bool) returns (pos: nat)
      requires Valid() && q.vmas == vmas && q.out == out && Keeps(J, q) && At(J, q, buffer, 0)
      requires q.addr == addr && q.size == size > 0 && Above(vmas, at) && at + size <= U64
      modifies this`mem, buffer
      ensures Valid() && At(J, q, buffer, pos) && (pos == size || InGap(vmas, addr + pos))
    {
      var curr := FindVma(addr);
      if curr == |vmas| {
        return 0;
      }
      assert vmas[curr].end <= at;
      pos := CopyVma(buffer, curr, addr, 0, size, out, q, J);
      pos := CopyFollowing(buffer, curr + 1, pos, addr, size, out, q, J);
    }

    /** The turns of the outer loop after the first. */
    method CopyFollowing(buffer: array<int>, next: nat, pos0: nat, addr: nat, size: nat, out: bool,
                         ghost q: Request, ghost J: (seq<int>, seq<int>, nat) -> bool) returns (pos: nat)
      requires Valid() && q.vmas == vmas && q.out == out && Keeps(J, q) && At(J, q, buffer, pos0)
      requires q.addr == addr && q.size == size && addr + size < U64
      requires 0 < next <= |vmas| && (pos0 == size || addr + pos0 == vmas[next - 1].end)
      modifies this`mem, buffer
      ensures Valid() && At(J, q, buffer, pos) && (pos == size || InGap(vmas, addr + pos))
    {
      var i := next;
      pos := pos0;
      while i < |vmas| && addr + pos == vmas[i].start
        invariant next <= i <= |vmas| && Valid() && At(J, q, buffer, pos)
        invariant pos == size || addr + pos == vmas[i - 1].end
      {
        StartInside(vmas, |mem|, i);
        pos := CopyVma(buffer, i, addr + pos, pos, size, out, q, J);
        i := i + 1;
      }
      if pos != size {
        GapAfter(vmas, |mem|, i);
      }
    }

    /** __mmap_memcpy_vma.  The kernel's own address space is refused; a missing buffer or a size
        of zero is an error; otherwise the mapped prefix is copied, and its length is returned as
        an int.  `at` is the address of the buffer. */
    method MemcpyVma(buffer: array?<int>, at: nat, addr: nat, size: nat, kernelSpace: bool,
                     out: bool) returns (ret: int)
      requires Valid() && (buffer != null ==> size <= buffer.Length && at + size <= U64 && Above(vmas, at))
      modifies this`mem, buffer
      ensures Valid() && |mem| == |old(mem)|
      ensures kernelSpace ==> ret == -EPERM
      ensures !kernelSpace && (buffer == null || size == 0) ==> ret == -EINVAL
      ensures kernelSpace || buffer == null || size == 0 ==>
        mem == old(mem) && (buffer != null ==> buffer[..] == old(buffer[..]))
      ensures !kernelSpace && buffer != null && size > 0 ==>
        var n := Prefix(vmas, |mem|, addr, size);
        && ret == ToInt(n)
        && (out ==> mem == old(mem) && buffer[..] == FlatOut(mem, vmas, addr, size) + old(buffer[..])[n..])
        && (!out ==> buffer[..] == old(buffer[..]) && mem == FlatIn(old(mem), vmas, addr, buffer[..size]))
    {
      if kernelSpace {
        return -EPERM;
      }
      if buffer == null || size == 0 {
        return -EINVAL;
      }
      var pos := CopyMapped(buffer, at, addr, size, out);
      ret := ToInt(pos);
    }

    /** The copy itself: it is the flat copy. */
    method CopyMapped(buffer: array<int>, at: nat, addr: nat, size: nat, out: bool) returns (pos: nat)
      requires Valid() && 0 < size <= buffer.Length && at + size <= U64 && Above(vmas, at)
      modifies this`mem, buffer
      ensures Valid() && |mem| == |old(mem)| && pos == Prefix(vmas, |mem|, addr, size)
      ensures out ==> mem == old(mem) && buffer[..] == FlatOut(mem, vmas, addr, size) + old(buffer[..])[pos..]
      ensures !out ==> buffer[..] == old(buffer[..]) && mem == FlatIn(old(mem), vmas, addr, buffer[..size])
    {
      ghost var q := Request(vmas, mem, buffer[..], addr, size, out);
      StartProgress(q);
      ProgressKept(q);
      pos := CopyVmas(buffer, at, addr, size, out, q, ProgressOf(q));
      if pos != size { TransNone(vmas, addr + pos); }
      EndProgress(q, mem, buffer[..], pos);
    }
  }
}
