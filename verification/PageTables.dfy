/**
 Page tables shared between VMAs (kernel/mm/mmap.c).  Addresses are page numbers.  A table of
 level k (1: PTE table, 2: PMD table, 3: PUD table) is known by its level and index; the
 functions of the three levels differ only in the level, which is a parameter here.
 */
module PageTables {
  import opened Wrappers

  /** Entries of one table, and the bytes it takes. */
  const FAN: nat := 512
  const TABLE_BYTES: nat := 4096

  const ENOMEM := 12

  datatype Table = Table(level: nat, index: nat)

  /** A VMA: the pages from start up to end, and the physical pages behind them, if any, as far as
      mapping it looks at them; how many it says it has, nr_pages, is a parameter of its own. */
  datatype Vma = Vma(id: int, start: nat, end: nat, pages: seq<Option<nat>>)

  predicate VmaOk(v: Vma) { v.start < v.end && |v.pages| == v.end - v.start }

  // ------------------------------------------------------------------------ geometry

  /** The index of the level-k table that page p is under. */
  function Index(k: nat, p: nat): nat {
    if k == 0 then p else Index(k - 1, p) / FAN
  }

  /** The first page under the level-k table of index i. */
  function Start(k: nat, i: nat): nat {
    if k == 0 then i else Start(k - 1, i * FAN)
  }

  /** The table of level k that page p is under. */
  function On(k: nat, p: nat): Table {
    Table(k, Index(k, p))
  }

  /** pud_addr_end and the like: the end of the part of [a, end) under a's table. */
  function AddrEnd(k: nat, a: nat, end: nat): nat {
    var boundary := Start(k, Index(k, a) + 1);
    if boundary < end then boundary else end
  }

  lemma {:induction false} StartSplits(k: nat, i: nat, p: nat)
    ensures p < Start(k, i) <==> Index(k, p) < i
    decreases k
  {
    if k > 0 {
      StartSplits(k - 1, i * FAN, p);
    }
  }

  /** The pages under one table of level k: 512, 512 * 512 and so on. */
  ghost function Span(k: nat): nat {
    if k == 0 then 1 else 512 * Span(k - 1)
  }

  lemma {:induction false} StartIs(k: nat, i: nat)
    ensures Start(k, i) == i * Span(k)
    decreases k
  {
    if k > 0 {
      StartIs(k - 1, i * FAN);
      MulThree(i, 512, Span(k - 1));
    }
  }

  lemma MulThree(a: nat, b: nat, c: nat)
    ensures a * b * c == a * (b * c)
  {
  }

  /** Table i of level k has the 512^k pages from i * 512^k on under it, and no others. */
  lemma IndexExact(k: nat, p: nat, i: nat)
    ensures Index(k, p) == i <==> i * Span(k) <= p < (i + 1) * Span(k)
  {
    StartIs(k, i);
    StartIs(k, i + 1);
    StartSplits(k, i, p);
    StartSplits(k, i + 1, p);
  }

  /** A PTE table maps 2^9 pages, a PMD table 2^18 and a PUD table 2^27. */
  lemma ThreeLevels(p: nat)
    ensures Index(1, p) == p / 0x200 && Index(2, p) == p / 0x4_0000 && Index(3, p) == p / 0x800_0000
  {
    IndexExact(1, p, p / 0x200);
    IndexExact(2, p, p / 0x4_0000);
    IndexExact(3, p, p / 0x800_0000);
    assert Span(2) == 0x4_0000;
    assert Span(3) == 0x800_0000;
  }

  lemma {:induction false} IndexMono(k: nat, p: nat, q: nat)
    requires p <= q
    ensures Index(k, p) <= Index(k, q)
    decreases k
  {
    if k > 0 {
      IndexMono(k - 1, p, q);
    }
  }

  /** [a, b) is all of v that is under a's table of level l. */
  ghost predicate Part(v: Vma, l: nat, a: nat, b: nat) {
    && v.start <= a < b <= v.end
    && forall p :: v.start <= p < v.end ==> (Index(l, p) == Index(l, a) <==> a <= p < b)
  }

  /** The pages of v before `cur` are under tables of level l before cur's. */
  ghost predicate AtBoundary(v: Vma, l: nat, cur: nat) {
    v.start <= cur <= v.end && forall p :: v.start <= p < cur && cur < v.end ==> Index(l, p) < Index(l, cur)
  }

  lemma NextPart(v: Vma, l: nat, cur: nat, end: nat)
    requires AtBoundary(v, l, cur) && cur < end <= v.end
    requires end == v.end || Index(l, end - 1) < Index(l, end)
    ensures var next := AddrEnd(l, cur, end); cur < next <= end && Part(v, l, cur, next) && AtBoundary(v, l, next)
  {
    var i := Index(l, cur) + 1;
    var next := AddrEnd(l, cur, end);
    StartSplits(l, i, cur);
    forall p | v.start <= p < v.end
      ensures Index(l, p) == Index(l, cur) <==> cur <= p < next
    {
      StartSplits(l, i, p);
      if cur <= p { IndexMono(l, cur, p); }
      if end <= p { IndexMono(l, end, p); IndexMono(l, cur, end - 1); }
    }
    forall p | v.start <= p < next && next < v.end
      ensures Index(l, p) < Index(l, next)
    {
      StartSplits(l, i, next);
      IndexMono(l, p, next - 1);
      StartSplits(l, i, next - 1);
    }
  }

  /** Going one level down within such a part. */
  lemma EnterPart(v: Vma, l: nat, a: nat, b: nat)
    requires l > 0 && Part(v, l, a, b)
    ensures AtBoundary(v, l - 1, a) && (b == v.end || Index(l - 1, b - 1) < Index(l - 1, b))
  {
    var m := l - 1;
    forall p | v.start <= p < a
      ensures Index(m, p) < Index(m, a)
    {
      assert Index(l, p) != Index(l, a);
      IndexMono(m, p, a);
    }
    if b < v.end {
      assert Index(l, b) != Index(l, a) && Index(l, b - 1) == Index(l, a);
      IndexMono(m, b - 1, b);
    }
  }

  // ------------------------------------------------------------------------- counting

  /** Which VMAs have recorded each table: the trees hanging off every VMA. */
  type Records = map<int, set<Table>>

  ghost function Holders(records: Records, t: Table): set<int> {
    set id | id in records && t in records[id]
  }

  /** A table exists exactly while some VMA records it, and its count is how many do. */
  ghost predicate RefOk(records: Records, refs: map<Table, nat>, t: Table) {
    && (t in refs <==> Holders(records, t) != {})
    && (t in refs ==> refs[t] == |Holders(records, t)|)
  }

  ghost predicate RefsOk(records: Records, refs: map<Table, nat>) {
    forall t :: RefOk(records, refs, t)
  }

  function Get(refs: map<Table, nat>, t: Table): map<Table, nat> {
    refs[t := if t in refs then refs[t] + 1 else 1]
  }

  function Put(refs: map<Table, nat>, t: Table): map<Table, nat> {
    if t in refs && refs[t] > 1 then refs[t := refs[t] - 1] else refs - {t}
  }

  lemma GetKeeps(records: Records, refs: map<Table, nat>, id: int, t: Table)
    requires RefsOk(records, refs) && id in records && t !in records[id]
    ensures RefsOk(records[id := records[id] + {t}], Get(refs, t))
  {
    var records2 := records[id := records[id] + {t}];
    forall u
      ensures RefOk(records2, Get(refs, t), u)
    {
      assert RefOk(records, refs, u);
      if u == t {
        assert Holders(records2, t) == Holders(records, t) + {id};
      } else {
        assert Holders(records2, u) == Holders(records, u);
      }
    }
  }

  lemma PutKeeps(records: Records, refs: map<Table, nat>, id: int, t: Table)
    requires RefsOk(records, refs) && id in records && t in records[id]
    ensures t in refs && (refs[t] == 1 <==> t !in Put(refs, t))
    ensures RefsOk(records[id := records[id] - {t}], Put(refs, t))
  {
    var records2 := records[id := records[id] - {t}];
    assert RefOk(records, refs, t) && id in Holders(records, t);
    var rest := Holders(records, t) - {id};
    assert Holders(records, t) == rest + {id};
    assert Holders(records2, t) == rest;
    assert rest == {} <==> |rest| == 0;
    forall u
      ensures RefOk(records2, Put(refs, t), u)
    {
      assert RefOk(records, refs, u);
      assert u != t ==> Holders(records2, u) == Holders(records, u);
    }
  }

  // ----------------------------------------------------------- what a VMA has recorded

  /** A table of one of the levels that some page of v is under. */
  ghost predicate OwnTable(t: Table, v: Vma, levels: nat) {
    1 <= t.level <= levels && exists p :: v.start <= p < v.end && Index(t.level, p) == t.index
  }

  ghost predicate OwnTables(r: set<Table>, v: Vma, levels: nat) {
    forall t :: t in r ==> OwnTable(t, v, levels)
  }

  /** With a table, the table above it is recorded. */
  ghost predicate UpClosed(r: set<Table>, v: Vma, levels: nat) {
    forall k, p :: 1 <= k < levels && v.start <= p < v.end && On(k, p) in r ==> On(k + 1, p) in r
  }

  ghost predicate Within(k: nat, p: nat, l: nat, a: nat, b: nat) {
    k <= l && a <= p < b
  }

  /** From r to r2, the tables up to level l over [a, b) have gone, and nothing else. */
  ghost predicate Gone(r: set<Table>, r2: set<Table>, v: Vma, levels: nat, l: nat, a: nat, b: nat) {
    && r2 <= r
    && forall k, p :: 1 <= k <= levels && v.start <= p < v.end ==>
         (On(k, p) in r2 <==> On(k, p) in r && !Within(k, p, l, a, b))
  }

  /** From r to r2, some tables up to level l over [a, b) have come, all of them if `whole`. */
  ghost predicate Come(r: set<Table>, r2: set<Table>, v: Vma, levels: nat, l: nat, a: nat, b: nat, whole: bool) {
    && r <= r2 && (OwnTables(r, v, levels) ==> OwnTables(r2, v, levels))
    && (forall k, p :: 1 <= k <= levels && v.start <= p < v.end && On(k, p) in r2 ==>
         On(k, p) in r || Within(k, p, l, a, b))
    && (whole ==> forall k, p :: 1 <= k && Within(k, p, l, a, b) ==> On(k, p) in r2)
  }

  ghost predicate PtesUnder(ptes: map<nat, nat>, r: set<Table>, v: Vma) {
    forall p :: p in ptes && v.start <= p < v.end ==> On(1, p) in r
  }

  ghost predicate SamePtes(ptes: map<nat, nat>, ptes2: map<nat, nat>, a: nat, b: nat) {
    forall p :: !(a <= p < b) ==> (p in ptes <==> p in ptes2) && (p in ptes ==> ptes[p] == ptes2[p])
  }

  /** Removing or adding a table of level l, seen page by page. */
  lemma OneGone(r: set<Table>, r2: set<Table>, v: Vma, levels: nat, l: nat, a: nat, b: nat)
    requires 1 <= l <= levels && Part(v, l, a, b) && Gone(r, r2, v, levels, l - 1, a, b)
    ensures Gone(r, r2 - {On(l, a)}, v, levels, l, a, b)
  {
  }

  lemma OneCome(r: set<Table>, v: Vma, levels: nat, l: nat, a: nat, b: nat)
    requires 1 <= l <= levels && Part(v, l, a, b) && UpClosed(r, v, levels) && (l < levels ==> On(l + 1, a) in r)
    ensures Come(r, r + {On(l, a)}, v, levels, l, a, b, false) && UpClosed(r + {On(l, a)}, v, levels)
    ensures forall p :: a <= p < b ==> On(l, p) in r + {On(l, a)}
  {
    assert OwnTable(On(l, a), v, levels);
    forall k, p | 1 <= k < levels && v.start <= p < v.end && On(k, p) in r + {On(l, a)}
      ensures On(k + 1, p) in r + {On(l, a)}
    {
      if On(k, p) !in r {
        assert Index(l + 1, p) == Index(l + 1, a);
      }
    }
  }

  /** A table that is not recorded has nothing recorded below it. */
  lemma {:induction false} NothingBelow(r: set<Table>, v: Vma, levels: nat, l: nat, k: nat, p: nat)
    requires UpClosed(r, v, levels) && 1 <= k <= l <= levels && v.start <= p < v.end && On(k, p) in r
    ensures On(l, p) in r
    decreases l - k
  {
    if k < l { NothingBelow(r, v, levels, l, k + 1, p); }
  }

  lemma GoneNothing(r: set<Table>, v: Vma, levels: nat, l: nat, a: nat, b: nat)
    requires 1 <= l <= levels && UpClosed(r, v, levels) && Part(v, l, a, b) && On(l, a) !in r
    ensures Gone(r, r, v, levels, l, a, b)
  {
    forall k, p | 1 <= k <= levels && v.start <= p < v.end && On(k, p) in r
      ensures !Within(k, p, l, a, b)
    {
      if Within(k, p, l, a, b) {
        NothingBelow(r, v, levels, l, k, p);
      }
    }
  }

  lemma NoPtes(ptes: map<nat, nat>, r: set<Table>, v: Vma, levels: nat, l: nat, a: nat, b: nat)
    requires 1 <= l <= levels && UpClosed(r, v, levels) && PtesUnder(ptes, r, v) && Part(v, l, a, b) && On(l, a) !in r
    ensures forall p :: a <= p < b ==> p !in ptes
  {
    forall p | a <= p < b
      ensures p !in ptes
    {
      if p in ptes {
        NothingBelow(r, v, levels, l, 1, p);
      }
    }
  }

  // ------------------------------------------------------------------------- the code

  /** All tables over v are recorded by it, and no others; all its pages are mapped. */
  ghost predicate Full(v: Vma, r: set<Table>, ptes: map<nat, nat>, levels: nat) {
    && OwnTables(r, v, levels)
    && (forall k, p :: 1 <= k <= levels && v.start <= p < v.end ==> On(k, p) in r)
    && (VmaOk(v) ==> forall p :: v.start <= p < v.end ==> p in ptes && Some(ptes[p]) == v.pages[p - v.start])
  }

  ghost predicate Empty(v: Vma, r: set<Table>, ptes: map<nat, nat>) {
    r == {} && forall p :: v.start <= p < v.end ==> p !in ptes
  }

  ghost predicate Settled(v: Vma, r: set<Table>, ptes: map<nat, nat>, levels: nat) {
    Full(v, r, ptes, levels) || Empty(v, r, ptes)
  }

  predicate Disjoint(v: Vma, u: Vma) { v.end <= u.start || u.end <= v.start }

  ghost predicate VmasOk(vmas: map<int, Vma>) {
    && (forall id :: id in vmas ==> VmaOk(vmas[id]) && vmas[id].id == id)
    && (forall id, jd :: id in vmas && jd in vmas && id != jd ==> Disjoint(vmas[id], vmas[jd]))
  }

  /** The records determine the tables and their counts. */
  lemma RefsUnique(records: Records, refs: map<Table, nat>, refs2: map<Table, nat>)
    requires RefsOk(records, refs) && RefsOk(records, refs2)
    ensures refs == refs2
  {
    forall t
      ensures t in refs <==> t in refs2
      ensures t in refs ==> refs[t] == refs2[t]
    {
      assert RefOk(records, refs, t) && RefOk(records, refs2, t);
    }
  }

  /** Changing the entries of one VMA leaves the others settled. */
  lemma OthersSettled(v: Vma, u: Vma, r: set<Table>, ptes: map<nat, nat>, ptes2: map<nat, nat>, levels: nat)
    requires VmaOk(v) && VmaOk(u) && Disjoint(v, u)
    requires SamePtes(ptes, ptes2, v.start, v.end) && Settled(u, r, ptes, levels)
    ensures Settled(u, r, ptes2, levels)
  {
    if Full(u, r, ptes, levels) {
      assert Full(u, r, ptes2, levels);
    } else {
      assert Empty(u, r, ptes2);
    }
  }

  lemma AllSettled(v: Vma, vmas: map<int, Vma>, records: Records, records2: Records, ptes: map<nat, nat>,
                   ptes2: map<nat, nat>,
                   levels: nat)
    requires VmasOk(vmas) && v.id in vmas && vmas[v.id] == v && records.Keys == vmas.Keys && v.id in records2
    requires records2 == records[v.id := records2[v.id]] && SamePtes(ptes, ptes2, v.start, v.end)
    requires (forall id :: id in vmas ==> Settled(vmas[id], records[id], ptes, levels))
    requires Settled(v, records2[v.id], ptes2, levels)
    ensures forall id :: id in vmas ==> Settled(vmas[id], records2[id], ptes2, levels)
  {
    forall id | id in vmas && id != v.id
      ensures Settled(vmas[id], records2[id], ptes2, levels)
    {
      OthersSettled(v, vmas[id], records[id], ptes, ptes2, levels);
    }
  }

  lemma PtesBack(v: Vma, ptes: map<nat, nat>, ptes1: map<nat, nat>, ptes2: map<nat, nat>)
    requires SamePtes(ptes, ptes1, v.start, v.end) && SamePtes(ptes1, ptes2, v.start, v.end)
    requires forall p :: v.start <= p < v.end ==> p !in ptes && p !in ptes2
    ensures ptes2 == ptes
  {
  }

  lemma AllCovered(v: Vma, vmas: map<int, Vma>, ptes: map<nat, nat>, ptes2: map<nat, nat>)
    requires v.id in vmas && vmas[v.id] == v && SamePtes(ptes, ptes2, v.start, v.end)
    requires forall p :: p in ptes ==> Covered(vmas, p)
    ensures forall p :: p in ptes2 ==> Covered(vmas, p)
  {
    forall p | p in ptes2
      ensures Covered(vmas, p)
    {
      if v.start <= p < v.end { assert v.id in vmas; } else { assert p in ptes; }
    }
  }

  /** Once everything of v is gone, it has nothing recorded. */
  lemma AllGone(r: set<Table>, r2: set<Table>, v: Vma, levels: nat)
    requires OwnTables(r, v, levels) && Gone(r, r2, v, levels, levels, v.start, v.end)
    ensures r2 == {}
  {
    forall t | t in r2
      ensures false
    {
      assert t in r && OwnTable(t, v, levels);
      var p :| v.start <= p < v.end && Index(t.level, p) == t.index;
      assert t == On(t.level, p) && Within(t.level, p, levels, v.start, v.end);
    }
  }

  lemma HasHolder(records: Records, t: Table)
    ensures Holders(records, t) == {} || exists id :: id in Holders(records, t)
  {
    if forall id :: id !in Holders(records, t) {
      assert Holders(records, t) == {};
    }
  }

  /** A page of one of the VMAs. */
  ghost predicate Covered(vmas: map<int, Vma>, p: nat) {
    exists id :: id in vmas && vmas[id].start <= p < vmas[id].end
  }

  lemma CoveredMore(vmas: map<int, Vma>, v: Vma, ptes: map<nat, nat>)
    requires v.id !in vmas && forall p :: p in ptes ==> Covered(vmas, p)
    ensures forall p :: p in ptes ==> Covered(vmas[v.id := v], p)
  {
    forall p | p in ptes
      ensures Covered(vmas[v.id := v], p)
    {
      assert Covered(vmas, p);
      var id :| id in vmas && vmas[id].start <= p < vmas[id].end;
      assert vmas[v.id := v][id] == vmas[id];
    }
  }

  /** A VMA that has recorded nothing counts for nothing. */
  lemma EmptyRecord(records: Records, refs: map<Table, nat>, id: int)
    requires RefsOk(records, refs) && id !in records
    ensures RefsOk(records[id := {}], refs)
  {
    var records2 := records[id := {}];
    forall t
      ensures RefOk(records2, refs, t)
    {
      assert RefOk(records, refs, t);
      assert Holders(records2, t) == Holders(records, t);
    }
  }

  /** Tables exist exactly where a mapped VMA spans them. */
  lemma TablesSpan(records: Records, refs: map<Table, nat>, vmas: map<int, Vma>, ptes: map<nat, nat>, levels: nat,
                   t: Table)
    requires RefsOk(records, refs) && records.Keys == vmas.Keys
    requires forall id :: id in vmas ==> Settled(vmas[id], records[id], ptes, levels)
    ensures t in refs <==>
            exists id :: id in vmas && Full(vmas[id], records[id], ptes, levels) && OwnTable(t, vmas[id], levels)
  {
    assert RefOk(records, refs, t);
    if t in refs {
      HasHolder(records, t);
      var id :| id in Holders(records, t);
      assert Full(vmas[id], records[id], ptes, levels) && OwnTable(t, vmas[id], levels);
    }
    if id :| id in vmas && Full(vmas[id], records[id], ptes, levels) && OwnTable(t, vmas[id], levels) {
      var p :| vmas[id].start <= p < vmas[id].end && Index(t.level, p) == t.index;
      assert t == On(t.level, p);
      assert id in Holders(records, t);
    }
  }

  /** When nothing is mapped, no table is left. */
  lemma NothingMapped(records: Records, refs: map<Table, nat>)
    requires RefsOk(records, refs) && forall id :: id in records ==> records[id] == {}
    ensures refs == map[]
  {
    forall t | t in refs
      ensures false
    {
      assert RefOk(records, refs, t);
      HasHolder(records, t);
    }
  }

  /** Whether the two allocations for a table succeed: the VMA's record of it, and the table itself. */
  datatype Memory = Memory(node: Table -> bool, page: Table -> bool)

  ghost predicate HeldByOthers(records: Records, id: int, t: Table) {
    exists jd :: jd != id && jd in records && t in records[jd]
  }

  /** A table can be had by a VMA that has not recorded it. */
  ghost predicate CanAlloc(records: Records, id: int, t: Table, memory: Memory) {
    memory.node(t) && (memory.page(t) || HeldByOthers(records, id, t))
  }

  /** It is there exactly if another VMA holds it. */
  lemma AllocTest(records: Records, refs: map<Table, nat>, id: int, t: Table)
    requires RefsOk(records, refs) && id in records && t !in records[id]
    ensures t in refs <==> HeldByOthers(records, id, t)
  {
    assert RefOk(records, refs, t);
    HasHolder(records, t);
    if jd :| jd != id && jd in records && t in records[jd] { assert jd in Holders(records, t); }
    if jd :| jd in Holders(records, t) { assert jd != id && t in records[jd]; }
  }

  /** All tables up to level l over [a, b) can be had, and no page is missing. */
  ghost predicate CanMap(records: Records, v: Vma, l: nat, a: nat, b: nat, memory: Memory) {
    && (forall k, p :: 1 <= k && Within(k, p, l, a, b) ==> CanAlloc(records, v.id, On(k, p), memory))
    && (forall p :: a <= p < b ==> HasPage(v, p))
  }

  predicate HasPage(v: Vma, p: nat) { v.start <= p && p - v.start < |v.pages| && v.pages[p - v.start].Some? }

  /** The pages of v in [a, b) are mapped, and their last tables recorded. */
  ghost predicate MappedOn(ptes: map<nat, nat>, r: set<Table>, v: Vma, a: nat, b: nat)
    requires VmaOk(v) && v.start <= a <= b <= v.end
  {
    forall p :: a <= p < b ==> On(1, p) in r && p in ptes && Some(ptes[p]) == v.pages[p - v.start]
  }

  /** Only what others hold matters. */
  lemma CanMapSame(records: Records, records2: Records, v: Vma, l: nat, a: nat, b: nat, memory: Memory)
    requires v.id in records && v.id in records2 && records2 == records[v.id := records2[v.id]]
    ensures CanMap(records2, v, l, a, b, memory) <==> CanMap(records, v, l, a, b, memory)
  {
    forall t
      ensures HeldByOthers(records2, v.id, t) <==> HeldByOthers(records, v.id, t)
    {
      if jd :| jd != v.id && jd in records && t in records[jd] { assert jd in records2 && t in records2[jd]; }
      if jd :| jd != v.id && jd in records2 && t in records2[jd] { assert jd in records && t in records[jd]; }
    }
  }

  /** One level: the table above, and what is below it. */
  lemma CanMapLevel(records: Records, v: Vma, l: nat, a: nat, b: nat, memory: Memory)
    requires l >= 1 && Part(v, l, a, b)
    ensures CanMap(records, v, l, a, b, memory) <==>
      CanAlloc(records, v.id, On(l, a), memory) && CanMap(records, v, l - 1, a, b, memory)
  {
    if CanMap(records, v, l, a, b, memory) {
      assert Within(l, a, l, a, b);
      forall k, p | 1 <= k && Within(k, p, l - 1, a, b)
        ensures CanAlloc(records, v.id, On(k, p), memory)
      {
        assert Within(k, p, l, a, b);
      }
    }
    if CanAlloc(records, v.id, On(l, a), memory) && CanMap(records, v, l - 1, a, b, memory) {
      forall k, p | 1 <= k && Within(k, p, l, a, b)
        ensures CanAlloc(records, v.id, On(k, p), memory)
      {
        if k == l { assert On(l, p) == On(l, a); } else { assert Within(k, p, l - 1, a, b); }
      }
    }
  }

  /** Side by side. */
  lemma CanMapSplit(records: Records, v: Vma, l: nat, a: nat, m: nat, b: nat, memory: Memory)
    requires a <= m <= b
    ensures CanMap(records, v, l, a, b, memory) <==>
            CanMap(records, v, l, a, m, memory) && CanMap(records, v, l, m, b, memory)
  {
    forall k, p ensures Within(k, p, l, a, b) <==> Within(k, p, l, a, m) || Within(k, p, l, m, b) {
    }
  }

  /** One turn of a loop over [a, b) that has come to cur. */
  lemma CanMapOn(records: Records, records2: Records, v: Vma, l: nat, a: nat, cur: nat, next: nat, b: nat,
                 memory: Memory)
    requires v.id in records && v.id in records2 && records2 == records[v.id := records2[v.id]]
    requires a <= cur <= next <= b && CanMap(records, v, l, a, cur, memory)
    ensures if CanMap(records2, v, l, cur, next, memory) then CanMap(records, v, l, a, next, memory)
            else !CanMap(records, v, l, a, b, memory)
  {
    CanMapSame(records, records2, v, l, cur, next, memory);
    CanMapSplit(records, v, l, a, cur, next, memory);
    CanMapSplit(records, v, l, a, next, b, memory);
  }

  lemma CanMapPages(records: Records, v: Vma, a: nat, b: nat, memory: Memory, ptes: map<nat, nat>)
    requires forall p :: a <= p < b ==> p !in ptes
    ensures CanMap(records, v, 0, a, b, memory) <==> forall p :: a <= p < b ==> CanSet(ptes, v, p)
  {
    if forall p :: a <= p < b ==> CanSet(ptes, v, p) {
      forall p | a <= p < b ensures HasPage(v, p) {
        assert CanSet(ptes, v, p);
      }
    }
  }

  /** The entry of page p is not set, and there is a page for it. */
  predicate CanSet(ptes: map<nat, nat>, v: Vma, p: nat) {
    p !in ptes && HasPage(v, p)
  }

  class Mm {
    const levels: nat
    var refs: map<Table, nat>
    var records: Records
    var ptes: map<nat, nat>
    var pgtablesBytes: int
    var vmas: map<int, Vma>

    /** Counts agree with the records, at every moment. */
    ghost predicate Counted()
      reads this
    {
      RefsOk(records, refs) && pgtablesBytes == TABLE_BYTES * |refs|
    }

    ghost predicate Valid()
      reads this
    {
      && levels >= 1 && Counted() && records.Keys == vmas.Keys && VmasOk(vmas)
      && (forall id :: id in vmas ==> Settled(vmas[id], records[id], ptes, levels))
      && (forall p :: p in ptes ==> Covered(vmas, p))
    }

    constructor (levels: nat)
      requires levels >= 1
      ensures this.levels == levels && refs == map[] && records == map[] && ptes == map[] && vmas == map[] && Valid()
    {
      this.levels := levels;
      refs, records, ptes, pgtablesBytes, vmas := map[], map[], map[], 0, map[];
      new;
      forall t
        ensures RefOk(records, refs, t)
      {
        assert Holders(records, t) == {};
      }
    }

    /** pud_alloc, pmd_alloc, pte_alloc: the table is created, or shared if it is there.  Either
        of the two allocations may fail, which changes nothing. */
    method Alloc(v: Vma, t: Table, memory: Memory) returns (ok: bool)
      requires Counted() && v.id in records && t !in records[v.id]
      modifies this`refs, this`records, this`pgtablesBytes
      ensures Counted() && (ok <==> CanAlloc(old(records), v.id, t, memory))
      ensures ok ==> records == old(records)[v.id := old(records)[v.id] + {t}]
      ensures !ok ==> records == old(records) && refs == old(refs)
    {
      AllocTest(records, refs, v.id, t);
      if !memory.node(t) {
        return false;
      }
      if t in refs {
        GetKeeps(records, refs, v.id, t);
        refs := refs[t := refs[t] + 1];
      } else {
        if !memory.page(t) {
          return false;
        }
        GetKeeps(records, refs, v.id, t);
        refs := refs[t := 1];
        pgtablesBytes := pgtablesBytes + TABLE_BYTES;
      }
      records := records[v.id := records[v.id] + {t}];
      return true;
    }

    /** Dropping a recorded table: it is freed when nobody records it any more. */
    method Release(v: Vma, t: Table)
      requires Counted() && v.id in records && t in records[v.id]
      modifies this`refs, this`records, this`pgtablesBytes
      ensures Counted() && records == old(records)[v.id := old(records)[v.id] - {t}]
    {
      PutKeeps(records, refs, v.id, t);
      records := records[v.id := records[v.id] - {t}];
      refs := refs[t := refs[t] - 1];
      if refs[t] == 0 {
        assert refs.Keys == (refs - {t}).Keys + {t};
        refs := refs - {t};
        pgtablesBytes := pgtablesBytes - TABLE_BYTES;
      }
      assert refs == Put(old(refs), t);
    }

    /** The loop of vmap_pte_range over the entries; it stops at one that is set already (-EBUSY)
        or that has no page (-ENOMEM). */
    method SetPtes(v: Vma, a: nat, b: nat) returns (ok: bool)
      requires VmaOk(v) && v.start <= a < b <= v.end
      modifies this`ptes
      ensures SamePtes(old(ptes), ptes, a, b)
      ensures ok <==> forall p :: a <= p < b ==> CanSet(old(ptes), v, p)
      ensures ok ==> forall p :: a <= p < b ==> p in ptes && Some(ptes[p]) == v.pages[p - v.start]
    {
      var p := a;
      while p != b
        invariant a <= p <= b && SamePtes(old(ptes), ptes, a, p)
        invariant forall q :: a <= q < p ==> CanSet(old(ptes), v, q)
        invariant forall q :: a <= q < p ==> q in ptes && Some(ptes[q]) == v.pages[q - v.start]
      {
        var page := v.pages[p - v.start];
        if p in ptes || page.None? {
          assert !CanSet(old(ptes), v, p);
          return false;
        }
        ptes := ptes[p := page.value];
        p := p + 1;
      }
      return true;
    }

    /** The loop of vunmap_pte_range over the entries. */
    method ClearPtes(a: nat, b: nat)
      requires a < b
      modifies this`ptes
      ensures SamePtes(old(ptes), ptes, a, b) && forall p :: a <= p < b ==> p !in ptes
    {
      var p := a;
      while p != b
        invariant a <= p <= b && SamePtes(old(ptes), ptes, a, p) && forall q :: a <= q < p ==> q !in ptes
      {
        if p in ptes {
          ptes := ptes - {p};
        }
        p := p + 1;
      }
    }

    /** vmap_pud_range, vmap_pmd_range, vmap_pte_range. */
    method MapRange(v: Vma, l: nat, a: nat, b: nat, memory: Memory) returns (ok: bool)
      requires Counted() && VmaOk(v) && v.id in records && 1 <= l <= levels && Part(v, l, a, b)
      requires UpClosed(records[v.id], v, levels) && (l < levels ==> On(l + 1, a) in records[v.id])
      requires (forall k, p :: 1 <= k && Within(k, p, l, a, b) ==> On(k, p) !in records[v.id])
      requires (forall p :: a <= p < b ==> p !in ptes)
      modifies this`refs, this`records, this`pgtablesBytes, this`ptes
      ensures Counted() && v.id in records && records == old(records)[v.id := records[v.id]]
      ensures ok <==> CanMap(old(records), v, l, a, b, memory)
      ensures UpClosed(records[v.id], v, levels) && Come(old(records)[v.id], records[v.id], v, levels, l, a, b, ok)
      ensures SamePtes(old(ptes), ptes, a, b)
      ensures forall p :: a <= p < b && p in ptes ==> On(1, p) in records[v.id]
      ensures ok ==> forall p :: a <= p < b ==> p in ptes && Some(ptes[p]) == v.pages[p - v.start]
      decreases l
    {
      ghost var r := records[v.id];
      OneCome(r, v, levels, l, a, b);
      assert Within(l, a, l, a, b);
      CanMapLevel(records, v, l, a, b, memory);
      ok := Alloc(v, On(l, a), memory);
      if !ok {
        return;
      }
      CanMapSame(old(records), records, v, l - 1, a, b, memory);
      if l == 1 {
        CanMapPages(records, v, a, b, memory, ptes);
        ok := SetPtes(v, a, b);
      } else {
        ok := MapEntries(v, l, a, b, memory);
      }
    }

    /** The loop of vmap_pud_range and vmap_pmd_range over the entries. */
    method MapEntries(v: Vma, l: nat, a: nat, b: nat, memory: Memory) returns (ok: bool)
      requires Counted() && VmaOk(v) && v.id in records && 1 < l <= levels && Part(v, l, a, b)
      requires UpClosed(records[v.id], v, levels) && On(l, a) in records[v.id]
      requires (forall k, p :: 1 <= k && Within(k, p, l - 1, a, b) ==> On(k, p) !in records[v.id])
      requires (forall p :: a <= p < b ==> p !in ptes)
      modifies this`refs, this`records, this`pgtablesBytes, this`ptes
      ensures Counted() && v.id in records && records == old(records)[v.id := records[v.id]]
      ensures ok <==> CanMap(old(records), v, l - 1, a, b, memory)
      ensures UpClosed(records[v.id], v, levels) && Come(old(records)[v.id], records[v.id], v, levels, l - 1, a, b, ok)
      ensures SamePtes(old(ptes), ptes, a, b)
      ensures forall p :: a <= p < b && p in ptes ==> On(1, p) in records[v.id]
      ensures ok ==> forall p :: a <= p < b ==> p in ptes && Some(ptes[p]) == v.pages[p - v.start]
      decreases l, 0
    {
      var cur := a;
      EnterPart(v, l, a, b);
      while cur != b
        invariant a <= cur <= b && AtBoundary(v, l - 1, cur) && Counted() && v.id in records
        invariant records == old(records)[v.id := records[v.id]] && CanMap(old(records), v, l - 1, a, cur, memory)
        invariant UpClosed(records[v.id], v, levels)
        invariant Come(old(records)[v.id], records[v.id], v, levels, l - 1, a, cur, true)
        invariant SamePtes(old(ptes), ptes, a, cur) && MappedOn(ptes, records[v.id], v, a, cur)
      {
        NextPart(v, l - 1, cur, b);
        var next := AddrEnd(l - 1, cur, b);
        CanMapOn(old(records), records, v, l - 1, a, cur, next, b, memory);
        ok := MapRange(v, l - 1, cur, next, memory);
        if !ok {
          return;
        }
        cur := next;
      }
      ok := true;
    }

    /** The walk of vmap_free_bad_area: entries that are not there are skipped, and only what v
        has recorded is dropped. */
    method FreeBad(v: Vma, l: nat, a: nat, b: nat)
      requires Counted() && v.id in records && 1 <= l <= levels && Part(v, l, a, b)
      requires UpClosed(records[v.id], v, levels) && PtesUnder(ptes, records[v.id], v)
      modifies this`refs, this`records, this`pgtablesBytes, this`ptes
      ensures Counted() && v.id in records && records == old(records)[v.id := records[v.id]]
      ensures Gone(old(records)[v.id], records[v.id], v, levels, l, a, b)
      ensures SamePtes(old(ptes), ptes, a, b) && forall p :: a <= p < b ==> p !in ptes
      decreases l
    {
      ghost var r := records[v.id];
      if On(l, a) !in refs {
        assert RefOk(records, refs, On(l, a));
        assert v.id !in Holders(records, On(l, a));
        GoneNothing(r, v, levels, l, a, b);
        NoPtes(ptes, r, v, levels, l, a, b);
        return;
      }
      if l == 1 {
        ClearPtes(a, b);
        assert Gone(r, r, v, levels, 0, a, b);
      } else {
        FreeBadEntries(v, l, a, b);
      }
      OneGone(r, records[v.id], v, levels, l, a, b);
      if On(l, a) in records[v.id] {
        Release(v, On(l, a));
      } else {
        assert records[v.id] - {On(l, a)} == records[v.id];
      }
    }

    method FreeBadEntries(v: Vma, l: nat, a: nat, b: nat)
      requires Counted() && v.id in records && 1 < l <= levels && Part(v, l, a, b)
      requires UpClosed(records[v.id], v, levels) && PtesUnder(ptes, records[v.id], v)
      modifies this`refs, this`records, this`pgtablesBytes, this`ptes
      ensures Counted() && v.id in records && records == old(records)[v.id := records[v.id]]
      ensures Gone(old(records)[v.id], records[v.id], v, levels, l - 1, a, b)
      ensures SamePtes(old(ptes), ptes, a, b) && forall p :: a <= p < b ==> p !in ptes
      decreases l, 0
    {
      var cur := a;
      EnterPart(v, l, a, b);
      while cur != b
        invariant a <= cur <= b && AtBoundary(v, l - 1, cur) && Counted() && v.id in records
        invariant records == old(records)[v.id := records[v.id]]
        invariant Gone(old(records)[v.id], records[v.id], v, levels, l - 1, a, cur)
        invariant SamePtes(old(ptes), ptes, a, cur) && forall p :: a <= p < cur ==> p !in ptes
      {
        NextPart(v, l - 1, cur, b);
        var next := AddrEnd(l - 1, cur, b);
        FreeBad(v, l - 1, cur, next);
        cur := next;
      }
    }

    /** vumap_pud_range, vunmap_pmd_range, vunmap_pte_range.  All that v has recorded is there, so
        no entry is found empty on the way. */
    method UnmapRange(v: Vma, l: nat, a: nat, b: nat)
      requires Counted() && v.id in records && 1 <= l <= levels && Part(v, l, a, b)
      requires (forall k, p :: 1 <= k && Within(k, p, l, a, b) ==> On(k, p) in records[v.id])
      modifies this`refs, this`records, this`pgtablesBytes, this`ptes
      ensures Counted() && v.id in records && records == old(records)[v.id := records[v.id]]
      ensures Gone(old(records)[v.id], records[v.id], v, levels, l, a, b)
      ensures SamePtes(old(ptes), ptes, a, b) && forall p :: a <= p < b ==> p !in ptes
      decreases l
    {
      ghost var r := records[v.id];
      assert Within(l, a, l, a, b);
      if l == 1 {
        ClearPtes(a, b);
        assert Gone(r, r, v, levels, 0, a, b);
      } else {
        UnmapEntries(v, l, a, b);
      }
      OneGone(r, records[v.id], v, levels, l, a, b);
      assert On(l, a) in records[v.id];
      Release(v, On(l, a));
    }

    method UnmapEntries(v: Vma, l: nat, a: nat, b: nat)
      requires Counted() && v.id in records && 1 < l <= levels && Part(v, l, a, b)
      requires (forall k, p :: 1 <= k && Within(k, p, l - 1, a, b) ==> On(k, p) in records[v.id])
      modifies this`refs, this`records, this`pgtablesBytes, this`ptes
      ensures Counted() && v.id in records && records == old(records)[v.id := records[v.id]]
      ensures Gone(old(records)[v.id], records[v.id], v, levels, l - 1, a, b)
      ensures SamePtes(old(ptes), ptes, a, b) && forall p :: a <= p < b ==> p !in ptes
      decreases l, 0
    {
      var cur := a;
      EnterPart(v, l, a, b);
      while cur != b
        invariant a <= cur <= b && AtBoundary(v, l - 1, cur) && Counted() && v.id in records
        invariant records == old(records)[v.id := records[v.id]]
        invariant Gone(old(records)[v.id], records[v.id], v, levels, l - 1, a, cur)
        invariant SamePtes(old(ptes), ptes, a, cur) && forall p :: a <= p < cur ==> p !in ptes
      {
        NextPart(v, l - 1, cur, b);
        var next := AddrEnd(l - 1, cur, b);
        UnmapRange(v, l - 1, cur, next);
        cur := next;
      }
    }

    /** A new VMA, not overlapping the others, with nothing mapped. */
    method AddVma(v: Vma)
      requires Valid() && VmaOk(v) && v.id !in vmas && (forall id :: id in vmas ==> Disjoint(v, vmas[id]))
      modifies this`vmas, this`records
      ensures Valid() && vmas == old(vmas)[v.id := v] && records == old(records)[v.id := {}] && refs == old(refs)
    {
      forall p | v.start <= p < v.end
        ensures p !in ptes
      {
        assert !Covered(vmas, p);
      }
      EmptyRecord(records, refs, v.id);
      CoveredMore(vmas, v, ptes);
      vmas := vmas[v.id := v];
      records := records[v.id := {}];
    }

    /** The loop of vmap_page_range over the top level. */
    method MapAll(v: Vma, memory: Memory) returns (ok: bool)
      requires Counted() && levels >= 1 && VmaOk(v) && v.id in records && Empty(v, records[v.id], ptes)
      modifies this`refs, this`records, this`pgtablesBytes, this`ptes
      ensures Counted() && v.id in records && records == old(records)[v.id := records[v.id]]
      ensures UpClosed(records[v.id], v, levels) && OwnTables(records[v.id], v, levels)
      ensures PtesUnder(ptes, records[v.id], v) && SamePtes(old(ptes), ptes, v.start, v.end)
      ensures ok ==> Full(v, records[v.id], ptes, levels)
      ensures ok <==> CanMap(old(records), v, levels, v.start, v.end, memory)
    {
      var cur := v.start;
      while cur != v.end
        invariant v.start <= cur <= v.end && AtBoundary(v, levels, cur) && Counted() && v.id in records
        invariant records == old(records)[v.id := records[v.id]]
        invariant CanMap(old(records), v, levels, v.start, cur, memory)
        invariant UpClosed(records[v.id], v, levels) && Come({}, records[v.id], v, levels, levels, v.start, cur, true)
        invariant SamePtes(old(ptes), ptes, v.start, cur)
        invariant forall p :: v.start <= p < cur ==> On(1, p) in records[v.id]
        invariant forall p :: v.start <= p < cur ==> p in ptes && Some(ptes[p]) == v.pages[p - v.start]
      {
        NextPart(v, levels, cur, v.end);
        var next := AddrEnd(levels, cur, v.end);
        CanMapOn(old(records), records, v, levels, v.start, cur, next, v.end, memory);
        ok := MapRange(v, levels, cur, next, memory);
        if !ok {
          return;
        }
        cur := next;
      }
      ok := true;
      assert forall k, p :: 1 <= k <= levels && v.start <= p < v.end ==> Within(k, p, levels, v.start, v.end);
    }

    /** vmap_free_bad_area */
    method FreeBadArea(v: Vma)
      requires Counted() && levels >= 1 && VmaOk(v) && v.id in records
      requires UpClosed(records[v.id], v, levels)
      requires OwnTables(records[v.id], v, levels) && PtesUnder(ptes, records[v.id], v)
      modifies this`refs, this`records, this`pgtablesBytes, this`ptes
      ensures Counted() && records == old(records)[v.id := {}]
      ensures SamePtes(old(ptes), ptes, v.start, v.end) && forall p :: v.start <= p < v.end ==> p !in ptes
    {
      var cur := v.start;
      while cur != v.end
        invariant v.start <= cur <= v.end && AtBoundary(v, levels, cur) && Counted() && v.id in records
        invariant records == old(records)[v.id := records[v.id]]
        invariant Gone(old(records)[v.id], records[v.id], v, levels, levels, v.start, cur)
        invariant SamePtes(old(ptes), ptes, v.start, cur) && forall p :: v.start <= p < cur ==> p !in ptes
      {
        NextPart(v, levels, cur, v.end);
        var next := AddrEnd(levels, cur, v.end);
        FreeBad(v, levels, cur, next);
        cur := next;
      }
      AllGone(old(records)[v.id], records[v.id], v, levels);
    }

    /** vmap_page_range: all of v is mapped, exactly if every allocation it takes succeeds, no page is
        missing and nr_pages is the number of its pages; otherwise everything is as it was before.
        The error is reported exactly if an allocation fails or a page is missing: for a wrong
        nr_pages, 0 is returned after the rollback. */
    method MapVma(v: Vma, nrPages: nat, memory: Memory) returns (r: int)
      requires Valid() && v.id in vmas && vmas[v.id] == v && Empty(v, records[v.id], ptes)
      modifies this`refs, this`records, this`pgtablesBytes, this`ptes
      ensures Valid() && (r < 0 <==> !CanMap(old(records), v, levels, v.start, v.end, memory))
      ensures r > 0 <==> CanMap(old(records), v, levels, v.start, v.end, memory) && nrPages == v.end - v.start
      ensures r > 0 ==> r == nrPages && records == old(records)[v.id := records[v.id]]
      ensures r > 0 ==> Full(v, records[v.id], ptes, levels) && SamePtes(old(ptes), ptes, v.start, v.end)
      ensures r <= 0 ==> r in {0, -ENOMEM} && records == old(records) && refs == old(refs)
      ensures r <= 0 ==> ptes == old(ptes) && pgtablesBytes == old(pgtablesBytes)
    {
      var ok := MapAll(v, memory);
      r := if !ok then -ENOMEM else if v.end - v.start != nrPages then 0 else v.end - v.start;
      if r <= 0 {
        ghost var ptes1 := ptes;
        FreeBadArea(v);
        assert records == old(records);
        RefsUnique(records, refs, old(refs));
        PtesBack(v, old(ptes), ptes1, ptes);
      } else {
        AllSettled(v, old(vmas), old(records), records, old(ptes), ptes, levels);
        AllCovered(v, vmas, old(ptes), ptes);
      }
    }

    /** vumap_page_range */
    method UnmapVma(v: Vma)
      requires Valid() && v.id in vmas && vmas[v.id] == v && Full(v, records[v.id], ptes, levels)
      modifies this`refs, this`records, this`pgtablesBytes, this`ptes
      ensures Valid() && records == old(records)[v.id := {}] && Empty(v, records[v.id], ptes)
      ensures SamePtes(old(ptes), ptes, v.start, v.end)
    {
      var cur := v.start;
      while cur != v.end
        invariant v.start <= cur <= v.end && AtBoundary(v, levels, cur) && Counted() && v.id in records
        invariant records == old(records)[v.id := records[v.id]]
        invariant Gone(old(records)[v.id], records[v.id], v, levels, levels, v.start, cur)
        invariant SamePtes(old(ptes), ptes, v.start, cur) && forall p :: v.start <= p < cur ==> p !in ptes
      {
        NextPart(v, levels, cur, v.end);
        var next := AddrEnd(levels, cur, v.end);
        UnmapRange(v, levels, cur, next);
        cur := next;
      }
      AllGone(old(records)[v.id], records[v.id], v, levels);
      forall id | id in vmas
        ensures Settled(vmas[id], records[id], ptes, levels)
      {
        if id != v.id {
          OthersSettled(v, vmas[id], records[id], old(ptes), ptes, levels);
        }
      }
    }
  }
}
