/**
 The per-CPU page lists in front of a zone's buddy allocator (kernel/mm/page_alloc.c:345-396,
 446-457, 700-892, 933-945, 988-1037).  Every operation runs with the interrupts of its CPU off; the lists of
 the CPUs are separate and the zone is under its lock, so the operations are atomic here.
 */
module PerCpuPages {
  import opened Wrappers
  import opened Bits
  import opened BuddyBlocks
  import opened FreeLists
  import opened Lists
  import opened PageAlloc

  datatype Pcp = Pcp(list: seq<nat>, count: int, high: nat, batch: nat)

  /** pageset_set_batch: high is six times the batch, the batch at least one. */
  function PagesetSetBatch(batch: nat): (p: Pcp)
    ensures 1 <= p.batch && (p.batch <= p.high || p.batch == 1) && p.count == |p.list| == 0
  {
    Pcp([], 0, 6 * batch, if batch < 1 then 1 else batch)
  }

  ghost predicate PcpOk(p: Pcp) {
    NoDup(p.list) && p.count == |p.list| && 1 <= p.batch && (p.batch <= p.high || p.batch == 1)
  }

  ghost predicate Cached(pcp: seq<Pcp>, f: int) {
    exists c: nat :: c < |pcp| && f in pcp[c].list
  }

  /** Cached frames are frames of the zone, free nowhere else, and cached once by one CPU. */
  ghost predicate PcpsOk(pcp: seq<Pcp>, F: set<Block>, frames: set<int>) {
    && (forall c: nat :: c < |pcp| ==> PcpOk(pcp[c]))
    && (forall c: nat, f: nat :: c < |pcp| && f in pcp[c].list ==> f in frames && !Free(F, f))
    && (forall c: nat, d: nat, f: nat :: c < d < |pcp| && f in pcp[c].list ==> f !in pcp[d].list)
  }

  ghost function AvailableIn(pcp: seq<Pcp>, F: set<Block>, frames: set<int>): set<int> {
    set f | f in frames && (Free(F, f) || Cached(pcp, f))
  }

  ghost function FramesOf(b: Block): set<int> {
    set f: int | b.pfn <= f < b.pfn + Pow2(b.order) && Covers(b, f)
  }

  lemma OneFrame(pfn: nat)
    ensures FramesOf(Block(pfn, 0)) == {pfn}
  {
    assert Pow2(0) == 1;
  }

  /** A block given to the free blocks. */
  lemma BlockFreed(pcp: seq<Pcp>, F: set<Block>, F': set<Block>, frames: set<int>, b: Block)
    requires PcpsOk(pcp, F, frames) && FramesOf(b) <= frames && forall f :: f in FramesOf(b) ==> !Cached(pcp, f)
    requires forall f :: Free(F', f) <==> Free(F, f) || Covers(b, f)
    ensures PcpsOk(pcp, F', frames) && AvailableIn(pcp, F', frames) == AvailableIn(pcp, F, frames) + FramesOf(b)
  {
    assert forall f :: Covers(b, f) <==> f in FramesOf(b);
    forall c: nat, f: nat | c < |pcp| && f in pcp[c].list ensures !Free(F', f) {
      assert Cached(pcp, f);
    }
  }

  /** A block taken from the free blocks. */
  lemma BlockTaken(pcp: seq<Pcp>, F: set<Block>, F': set<Block>, frames: set<int>, b: Block)
    requires PcpsOk(pcp, F, frames) && FramesOf(b) <= frames && forall f :: f in FramesOf(b) ==> !Free(F', f)
    requires forall f :: Free(F, f) <==> Free(F', f) || Covers(b, f)
    ensures PcpsOk(pcp, F', frames) && forall f :: f in FramesOf(b) ==> !Cached(pcp, f)
    ensures FramesOf(b) <= AvailableIn(pcp, F, frames)
    ensures AvailableIn(pcp, F', frames) == AvailableIn(pcp, F, frames) - FramesOf(b)
  {
    assert forall f :: Covers(b, f) <==> f in FramesOf(b);
    assert forall f :: f in FramesOf(b) ==> Free(F, f);
  }

  /** Replacing the list of one CPU by one with a frame more or less. */
  lemma ListChanged(pcp: seq<Pcp>, pcp': seq<Pcp>, c: nat, q: Pcp, F: set<Block>, frames: set<int>, pfn: nat)
    requires PcpsOk(pcp, F, frames) && c < |pcp| && pcp' == pcp[c := q] && PcpOk(q)
    requires
      || (pfn in frames && !Free(F, pfn) && !Cached(pcp, pfn) &&
          forall x: nat :: x in q.list <==> x in pcp[c].list || x == pfn)
      || (pfn in pcp[c].list && forall x: nat :: x in q.list <==> x in pcp[c].list && x != pfn)
    ensures PcpsOk(pcp', F, frames)
    ensures pfn !in pcp[c].list ==> AvailableIn(pcp', F, frames) == AvailableIn(pcp, F, frames) + {pfn}
    ensures pfn in pcp[c].list ==>
            !Cached(pcp', pfn) && AvailableIn(pcp', F, frames) == AvailableIn(pcp, F, frames) - {pfn}
  {
    forall f: nat ensures Cached(pcp', f) <==>
        if pfn in pcp[c].list then Cached(pcp, f) && f != pfn else Cached(pcp, f) || f == pfn
    {
      if Cached(pcp', f) {
        var d: nat :| d < |pcp'| && f in pcp'[d].list;
        assert d != c ==> f in pcp[d].list;
      }
      if Cached(pcp, f) {
        var d: nat :| d < |pcp| && f in pcp[d].list;
        assert (d != c || f != pfn) ==> f in pcp'[d].list;
      }
      if f == pfn && f !in pcp[c].list { assert f in pcp'[c].list; }
    }
  }

  function SetOf(q: seq<nat>): set<int> {
    set x: int | x in q
  }

  lemma SetOfSnoc(q: seq<nat>, x: nat)
    ensures SetOf(q + [x]) == SetOf(q) + {x}
  {
    assert forall y: nat :: y in q + [x] <==> y in q || y == x;
  }

  /** One CPU's list cut to its first m pages. */
  function Cut(pcp: seq<Pcp>, c: nat, m: nat): seq<Pcp>
    requires c < |pcp| && m <= |pcp[c].list|
  {
    pcp[c := pcp[c].(list := pcp[c].list[..m], count := m)]
  }

  /** Cutting the end off one CPU's list. */
  lemma ListCut(pcp: seq<Pcp>, c: nat, m: nat, F: set<Block>, frames: set<int>)
    requires PcpsOk(pcp, F, frames) && c < |pcp| && m <= |pcp[c].list|
    ensures PcpsOk(Cut(pcp, c, m), F, frames)
    ensures AvailableIn(Cut(pcp, c, m), F, frames) == AvailableIn(pcp, F, frames) - SetOf(pcp[c].list[m..])
    ensures SetOf(pcp[c].list[m..]) <= AvailableIn(pcp, F, frames)
  {
    var q := pcp[c].list;
    Halves(q, m);
    forall f: nat ensures Cached(Cut(pcp, c, m), f) <==> Cached(pcp, f) && f !in q[m..] {
      CutCached(pcp, c, m, F, frames, f);
    }
    forall x: nat | x in q[m..] ensures x in AvailableIn(pcp, F, frames) {
      assert x in q && Cached(pcp, x);
    }
  }

  lemma Halves(q: seq<nat>, m: nat)
    requires NoDup(q) && m <= |q|
    ensures forall x: nat :: x in q <==> x in q[..m] || x in q[m..]
    ensures forall x: nat :: x in q[..m] ==> x !in q[m..]
    ensures NoDup(q[..m])
  {
    assert q == q[..m] + q[m..];
  }

  lemma CutCached(pcp: seq<Pcp>, c: nat, m: nat, F: set<Block>, frames: set<int>, f: nat)
    requires PcpsOk(pcp, F, frames) && c < |pcp| && m <= |pcp[c].list|
    ensures Cached(Cut(pcp, c, m), f) <==> Cached(pcp, f) && f !in pcp[c].list[m..]
  {
    var q, pcp' := pcp[c].list, Cut(pcp, c, m);
    Halves(q, m);
    if Cached(pcp', f) {
      var d: nat :| d < |pcp'| && f in pcp'[d].list;
      assert f in pcp[d].list;
    }
    if Cached(pcp, f) && f !in q[m..] {
      var d: nat :| d < |pcp| && f in pcp[d].list;
      assert f in pcp'[d].list;
    }
  }

  /** The first i pages of a list are bad. */
  ghost predicate AllBad(l: seq<nat>, bad: nat -> bool, i: nat) {
    i <= |l| && forall j :: 0 <= j < i ==> bad(l[j])
  }

  /** l[k] is the first page that is not. */
  ghost predicate FirstGood(l: seq<nat>, bad: nat -> bool, k: nat) {
    k < |l| && AllBad(l, bad, k) && !bad(l[k])
  }

  lemma OnlyGood(l: seq<nat>, bad: nat -> bool, i: nat)
    requires AllBad(l, bad, i) && (i < |l| ==> !bad(l[i]))
    ensures forall k: nat :: FirstGood(l, bad, k) ==> k == i
  {
  }

  class Pageset {
    const zone: Zone
    var pcp: seq<Pcp>

    ghost predicate Valid()
      reads this, zone
    {
      zone.Valid() && zone.maxOrder > 0 && PcpsOk(pcp, zone.Blocks(), zone.Frames())
    }

    /** The frames that are not handed out. */
    ghost function Available(): set<int>
      reads this, zone
    {
      AvailableIn(pcp, zone.Blocks(), zone.Frames())
    }

    constructor (zone: Zone, batches: seq<nat>)
      requires zone.Valid() && zone.maxOrder > 0
      ensures Valid() && this.zone == zone && |pcp| == |batches|
      ensures forall c: nat :: c < |pcp| ==> pcp[c] == PagesetSetBatch(batches[c])
      ensures forall f :: !Cached(pcp, f)
    {
      this.zone := zone;
      pcp := seq(|batches|, c requires 0 <= c < |batches| => PagesetSetBatch(batches[c]));
    }

    /** A block of any order back to the buddy lists: free_one_page. */
    method FreeBlock(pfn: nat, order: nat)
      requires Valid() && Fits(Block(pfn, order), zone.maxOrder, zone.Frames())
      requires FramesOf(Block(pfn, order)) !! Available()
      modifies zone
      ensures Valid() && Available() == old(Available()) + FramesOf(Block(pfn, order))
      ensures forall f :: Free(zone.Blocks(), f) <==> Free(old(zone.Blocks()), f) || Covers(Block(pfn, order), f)
    {
      ghost var b, F := Block(pfn, order), zone.Blocks();
      forall a | a in F ensures Apart(a, b) {
        NotFreeApart(F, a, b, zone.maxOrder, zone.Frames(), Available());
      }
      assert forall f :: f in FramesOf(b) ==> Covers(b, f) && f !in Available();
      zone.FreeOnePage(pfn, order);
      BlockFreed(pcp, F, zone.Blocks(), zone.Frames(), b);
    }

    /** A block of any order from the buddy lists: __rmqueue_smallest. */
    method TakeBlock(order: nat) returns (r: Option<nat>)
      requires Valid()
      modifies zone
      ensures Valid()
      ensures r.None? <==> forall b :: b in old(zone.Blocks()) ==> b.order < order
      ensures r.None? ==> zone.Blocks() == old(zone.Blocks())
      ensures r.Some? ==>
        && FramesOf(Block(r.value, order)) <= old(Available())
        && Available() == old(Available()) - FramesOf(Block(r.value, order))
        && (forall f :: f in FramesOf(Block(r.value, order)) ==>
              f in zone.Frames() && Free(old(zone.Blocks()), f) && !Free(zone.Blocks(), f) && !Cached(pcp, f))
    {
      ghost var F := zone.Blocks();
      ghost var from: Block;
      r, from := zone.RmqueueSmallest(order);
      if r.Some? {
        ghost var b := Block(r.value, order);
        assert forall f :: f in FramesOf(b) <==> Covers(b, f);
        assert forall f :: f in FramesOf(b) ==> !Free(zone.Blocks(), f);
        BlockTaken(pcp, F, zone.Blocks(), zone.Frames(), b);
      }
    }

    /** One order-0 page back to the buddy lists. */
    method FreeFrame(pfn: nat)
      requires Valid() && pfn in zone.Frames() && pfn !in Available()
      modifies zone
      ensures Valid() && Available() == old(Available()) + {pfn}
      ensures forall f :: Free(zone.Blocks(), f) <==> Free(old(zone.Blocks()), f) || f == pfn
    {
      OneFrame(pfn);
      assert forall f :: Covers(Block(pfn, 0), f) <==> f == pfn;
      FreeBlock(pfn, 0);
    }

    /** One order-0 page from the buddy lists. */
    method TakeFrame() returns (r: Option<nat>)
      requires Valid()
      modifies zone
      ensures Valid()
      ensures r.None? <==> old(zone.Blocks()) == {}
      ensures r.None? ==> zone.Blocks() == old(zone.Blocks())
      ensures r.Some? ==>
        && r.value in zone.Frames() && Free(old(zone.Blocks()), r.value) && !Free(zone.Blocks(), r.value)
        && !Cached(pcp, r.value) && Available() == old(Available()) - {r.value}
    {
      r := TakeBlock(0);
      if r.Some? {
        OneFrame(r.value);
        assert r.value in FramesOf(Block(r.value, 0));
      }
    }

    /**
     The first half of free_pcppages_bulk: `count0` pages off the end of the list, in
     round-robin batches, counted down as they go.  The list never runs empty under it.
     */
    method PopTail(c: nat, count0: nat) returns (head: seq<nat>)
      requires c < |pcp| && pcp[c].count == |pcp[c].list| && count0 <= |pcp[c].list|
      modifies this
      ensures |head| == count0
      ensures forall i: nat :: i < count0 ==> head[i] == old(pcp)[c].list[|old(pcp)[c].list| - 1 - i]
      ensures pcp == Cut(old(pcp), c, |old(pcp)[c].list| - count0)
    {
      ghost var L := pcp[c].list;
      var count, batchFree := count0, 0;
      head := [];
      assert L[..|L|] == L && pcp[c := pcp[c]] == pcp;
      while count > 0
        invariant |head| + count == count0 && batchFree >= 0
        invariant forall i: nat :: i < |head| ==> head[i] == L[|L| - 1 - i]
        invariant pcp == Cut(old(pcp), c, |L| - |head|)
      {
        batchFree := batchFree + 1;
        while true
          invariant count > 0 && |head| + count == count0 && batchFree > 0
          invariant forall i: nat :: i < |head| ==> head[i] == L[|L| - 1 - i]
          invariant pcp == Cut(old(pcp), c, |L| - |head|)
          decreases count
        {
          var q := pcp[c];
          var pfn := q.list[|q.list| - 1];
          pcp := pcp[c := q.(list := q.list[..|q.list| - 1], count := q.count - 1)];
          head := head + [pfn];
          assert q.list[..|q.list| - 1] == L[..|L| - |head|];
          count := count - 1;
          if count == 0 { break; }
          batchFree := batchFree - 1;
          if batchFree == 0 || pcp[c].list == [] { break; }
        }
      }
    }
  
    /** free_pcppages_bulk: the last `count` pages of the list go back to the buddy allocator. */
    method FreePcppagesBulk(c: nat, count: nat)
      requires Valid() && c < |pcp| && count <= |pcp[c].list|
      modifies this, zone
      ensures Valid() && Available() == old(Available())
      ensures pcp == Cut(old(pcp), c, |old(pcp)[c].list| - count)
      ensures forall f: nat :: Free(zone.Blocks(), f) <==>
                Free(old(zone.Blocks()), f) || f in old(pcp)[c].list[|old(pcp)[c].list| - count..]
    {
      ghost var L, m, F := pcp[c].list, |pcp[c].list| - count, zone.Blocks();
      ListCut(pcp, c, m, F, zone.Frames());
      var head := PopTail(c, count);
      HeadIsTail(head, L, m);
      assert SetOf(head) == SetOf(L[m..]);
      FreeAll(head);
    }

    /** The second half of free_pcppages_bulk: __free_one_page for each page taken off the list. */
    method FreeAll(head: seq<nat>)
      requires Valid() && NoDup(head) && forall x: nat :: x in head ==> x in zone.Frames() && x !in Available()
      modifies zone
      ensures Valid() && Available() == old(Available()) + SetOf(head)
      ensures forall f: nat :: Free(zone.Blocks(), f) <==> Free(old(zone.Blocks()), f) || f in head
    {
      var i := 0;
      while i < |head|
        invariant i <= |head| && Valid()
        invariant Available() == old(Available()) + SetOf(head[..i])
        invariant forall f: nat :: Free(zone.Blocks(), f) <==> Free(old(zone.Blocks()), f) || f in head[..i]
      {
        assert head[..i + 1] == head[..i] + [head[i]];
        assert head[i] in head && head[i] !in head[..i];
        SetOfSnoc(head[..i], head[i]);
        FreeFrame(head[i]);
        i := i + 1;
      }
      assert head[..i] == head;
    }

    /** free_unref_page_commit: cache the page; at the high mark, give a batch back. */
    method FreeUnrefPageCommit(c: nat, pfn: nat)
      requires Valid() && c < |pcp| && pfn in zone.Frames() && pfn !in Available()
      modifies this, zone
      ensures Valid() && Available() == old(Available()) + {pfn}
      ensures |pcp| == |old(pcp)| && pcp == old(pcp)[c := pcp[c]]
      ensures var was := old(pcp)[c];
        && (was.count + 1 < was.high ==> pcp[c].list == [pfn] + was.list && zone.Blocks() == old(zone.Blocks()))
        && (was.count + 1 >= was.high ==> pcp[c].list == ([pfn] + was.list)[..was.count + 1 - was.batch])
    {
      var q := pcp[c];
      var q' := q.(list := [pfn] + q.list, count := q.count + 1);
      assert !Cached(pcp, pfn) && pfn !in pcp[c].list;
      ListChanged(pcp, pcp[c := q'], c, q', zone.Blocks(), zone.Frames(), pfn);
      pcp := pcp[c := q'];
      if pcp[c].count >= pcp[c].high {
        FreePcppagesBulk(c, pcp[c].batch);
      }
    }

    /** rmqueue_bulk of order 0: up to `count` pages to the end of the list. */
    method RmqueueBulk(c: nat, count: nat) returns (alloced: nat)
      requires Valid() && c < |pcp|
      modifies this, zone
      ensures Valid() && Available() == old(Available()) && alloced <= count
      ensures |pcp| == |old(pcp)| && old(pcp)[c].list <= pcp[c].list && |pcp[c].list| == |old(pcp)[c].list| + alloced
      ensures pcp == old(pcp)[c := old(pcp)[c].(list := pcp[c].list, count := pcp[c].count)]
      ensures alloced < count ==> zone.Blocks() == {}
      ensures alloced == 0 ==> zone.Blocks() == old(zone.Blocks())
      ensures old(zone.Blocks()) == {} ==> alloced == 0
    {
      alloced := 0;
      assert pcp == pcp[c := pcp[c]];
      while alloced < count
        invariant alloced <= count && Valid() && Available() == old(Available())
        invariant |pcp| == |old(pcp)| && old(pcp)[c].list <= pcp[c].list
        invariant |pcp[c].list| == |old(pcp)[c].list| + alloced
        invariant pcp == old(pcp)[c := old(pcp)[c].(list := pcp[c].list, count := pcp[c].count)]
        invariant alloced == 0 ==> zone.Blocks() == old(zone.Blocks())
        invariant old(zone.Blocks()) == {} ==> alloced == 0
      {
        var moved := MoveOne(c);
        if !moved {
          break;
        }
        alloced := alloced + 1;
      }
    }

    /** One page from the buddy lists to the end of the list, if there is one. */
    method MoveOne(c: nat) returns (moved: bool)
      requires Valid() && c < |pcp|
      modifies this, zone
      ensures Valid() && Available() == old(Available()) && |pcp| == |old(pcp)|
      ensures moved <==> old(zone.Blocks()) != {}
      ensures !moved ==> pcp == old(pcp) && zone.Blocks() == old(zone.Blocks())
      ensures moved ==> exists pfn: nat ::
        pcp == old(pcp)[c := old(pcp)[c].(list := old(pcp)[c].list + [pfn], count := old(pcp)[c].count + 1)]
    {
      var page := TakeFrame();
      moved := page.Some?;
      if moved {
        var q := pcp[c];
        var q' := q.(list := q.list + [page.value], count := q.count + 1);
        assert Cached(pcp, page.value) || page.value !in q.list;
        ListChanged(pcp, pcp[c := q'], c, q', zone.Blocks(), zone.Frames(), page.value);
        pcp := pcp[c := q'];
      }
    }

    /** The refill of an empty list. */
    method Refill(c: nat)
      requires Valid() && c < |pcp|
      modifies this, zone
      ensures Valid() && Available() == old(Available()) && |pcp| == |old(pcp)| && pcp == old(pcp)[c := pcp[c]]
      ensures old(pcp)[c].list != [] ==> pcp == old(pcp) && zone.Blocks() == old(zone.Blocks())
      ensures pcp[c].list == [] <==> old(pcp)[c].list == [] && old(zone.Blocks()) == {}
      ensures pcp[c].list == [] ==> zone.Blocks() == {}
    {
      assert pcp == pcp[c := pcp[c]];
      if pcp[c].list == [] {
        var alloced := RmqueueBulk(c, pcp[c].batch);
      }
    }

    /**
     __rmqueue_pcplist: the first page of the list that passes check_new_pcp, refilled when empty.
     `bad` is the outcome of the check for a page; pages that fail it are dropped for good.
     */
    method RmqueuePcplist(c: nat, bad: nat -> bool) returns (r: Option<nat>, ghost dropped: set<int>)
      requires Valid() && c < |pcp|
      modifies this, zone
      ensures Valid() && |pcp| == |old(pcp)| && pcp == old(pcp)[c := pcp[c]]
      ensures dropped <= old(Available()) && forall f: nat :: f in dropped ==> bad(f)
      ensures r.Some? ==> r.value in old(Available()) && !bad(r.value)
      ensures r.Some? ==> Available() == old(Available()) - dropped - {r.value}
      ensures r.None? ==> Available() == old(Available()) - dropped && zone.Blocks() == {} && pcp[c].list == []
      ensures dropped == {} ==> (r.None? <==> old(pcp)[c].list == [] && old(zone.Blocks()) == {})
      ensures var l := old(pcp)[c].list;
        forall k: nat :: FirstGood(l, bad, k) ==>
          r == Some(l[k]) && pcp[c].list == l[k + 1..] && zone.Blocks() == old(zone.Blocks())
    {
      dropped := {};
      ghost var l, i: nat := pcp[c].list, 0;
      assert pcp == pcp[c := pcp[c]];
      while true
        invariant Valid() && |pcp| == |old(pcp)| && pcp == old(pcp)[c := pcp[c]]
        invariant dropped <= old(Available()) && (forall f: nat :: f in dropped ==> bad(f))
        invariant Available() == old(Available()) - dropped
        invariant AllBad(l, bad, i) && (i < |l| ==> pcp[c].list == l[i..] && zone.Blocks() == old(zone.Blocks()))
        invariant dropped == {} ==> pcp == old(pcp) && zone.Blocks() == old(zone.Blocks())
        decreases Available()
      {
        var page := NextPage(c);
        if page.None? || !bad(page.value) {
          OnlyGood(l, bad, i);
          return page, dropped;
        }
        dropped := dropped + {page.value};
        if i < |l| {
          assert l[i..][1..] == l[i + 1..];
          i := i + 1;
        }
      }
    }

    /** The first page of the list, refilled when empty. */
    method NextPage(c: nat) returns (page: Option<nat>)
      requires Valid() && c < |pcp|
      modifies this, zone
      ensures Valid() && |pcp| == |old(pcp)| && pcp == old(pcp)[c := pcp[c]]
      ensures page.None? <==> old(pcp)[c].list == [] && old(zone.Blocks()) == {}
      ensures page.None? ==> Available() == old(Available()) && zone.Blocks() == {} && pcp[c].list == []
      ensures page.Some? ==> page.value in old(Available()) && Available() == old(Available()) - {page.value}
      ensures var l := old(pcp)[c].list;
        l != [] ==> page == Some(l[0]) && pcp[c].list == l[1..] && zone.Blocks() == old(zone.Blocks())
    {
      Refill(c);
      if pcp[c].list == [] {
        return None;
      }
      var first := PopFirst(c);
      page := Some(first);
    }

    /** list_del of the first page, and count--. */
    method PopFirst(c: nat) returns (page: nat)
      requires Valid() && c < |pcp| && pcp[c].list != []
      modifies this
      ensures Valid() && |pcp| == |old(pcp)| && page in old(Available()) && Available() == old(Available()) - {page}
      ensures page == old(pcp)[c].list[0] && pcp[c].list == old(pcp)[c].list[1..] && pcp == old(pcp)[c := pcp[c]]
    {
      var q := pcp[c];
      page := q.list[0];
      var q' := q.(list := q.list[1..], count := q.count - 1);
      assert Cached(pcp, page);
      assert q.list == [page] + q.list[1..];
      ListChanged(pcp, pcp[c := q'], c, q', zone.Blocks(), zone.Frames(), page);
      pcp := pcp[c := q'];
    }

    /** __free_pages once the last reference is gone, on CPU c: order-0 pages by way of the list.
        `prepared` is the outcome of the checks before freeing; a page that fails them is lost. */
    method FreeThePage(c: nat, pfn: nat, order: nat, prepared: bool)
      requires Valid() && c < |pcp|
      requires Fits(Block(pfn, order), zone.maxOrder, zone.Frames()) && FramesOf(Block(pfn, order)) !! Available()
      modifies this, zone
      ensures Valid() && |pcp| == |old(pcp)| && pcp == old(pcp)[c := pcp[c]] && (order > 0 ==> pcp == old(pcp))
      ensures Available() == old(Available()) + if prepared then FramesOf(Block(pfn, order)) else {}
    {
      assert pcp == pcp[c := pcp[c]];
      if prepared {
        if order == 0 {
          OneFrame(pfn);
          assert pfn in FramesOf(Block(pfn, 0)) && Covers(Block(pfn, 0), pfn);
          FreeUnrefPageCommit(c, pfn);
        } else {
          FreeBlock(pfn, order);
        }
      }
    }

    /** The loop of rmqueue for blocks: those with a bad page are dropped for good. */
    method RmqueueBlock(order: nat, bad: nat -> bool) returns (r: Option<nat>, ghost dropped: set<int>)
      requires Valid()
      modifies zone
      ensures Valid() && dropped <= old(Available()) && Taken(r, order, bad, old(Available()), dropped)
      ensures r.None? ==> forall b :: b in zone.Blocks() ==> b.order < order
      ensures dropped == {} ==> (r.None? <==> forall b :: b in old(zone.Blocks()) ==> b.order < order)
    {
      dropped := {};
      while true
        invariant Valid() && dropped <= old(Available()) && Available() == old(Available()) - dropped
        invariant AllGood(bad) ==> dropped == {}
        invariant dropped == {} ==> zone.Blocks() == old(zone.Blocks())
        decreases Available()
      {
        r := TakeBlock(order);
        if r.None? || !BadBlock(bad, r.value, order) {
          return;
        }
        assert r.value in FramesOf(Block(r.value, order));
        dropped := dropped + FramesOf(Block(r.value, order));
      }
    }

    /** What was available but dropped or handed out is so no longer; nothing is dropped without a
        reason; a block handed out has no bad page. */
    ghost predicate Taken(r: Option<nat>, order: nat, bad: nat -> bool, available: set<int>, dropped: set<int>)
      reads this, zone
    {
      && (AllGood(bad) ==> dropped == {}) && (r.None? ==> Available() == available - dropped)
      && (r.Some? ==>
           && FramesOf(Block(r.value, order)) <= available - dropped && !BadBlock(bad, r.value, order)
           && Available() == available - dropped - FramesOf(Block(r.value, order)))
    }

    /** rmqueue. */
    method Rmqueue(c: nat, order: nat, bad: nat -> bool) returns (r: Option<nat>, ghost dropped: set<int>)
      requires Valid() && c < |pcp|
      modifies this, zone
      ensures Valid() && |pcp| == |old(pcp)| && pcp == old(pcp)[c := pcp[c]] && (order > 0 ==> pcp == old(pcp))
      ensures dropped <= old(Available()) && Taken(r, order, bad, old(Available()), dropped)
      ensures r.None? ==> Exhausted(c, order)
      ensures dropped == {} ==> (r.None? <==> old(Exhausted(c, order)))
    {
      assert pcp == pcp[c := pcp[c]];
      if order == 0 {
        r, dropped := RmqueuePcplist(c, bad);
        assert AllGood(bad) ==> forall f: nat :: f !in dropped;
        if r.Some? {
          OneFrame(r.value);
          BadPage(bad, r.value);
        }
      } else {
        r, dropped := RmqueueBlock(order, bad);
      }
    }

    /** Nothing of this order is free, nor cached for CPU c. */
    ghost predicate Exhausted(c: nat, order: nat)
      requires c < |pcp|
      reads this, zone
    {
      (forall b :: b in zone.Blocks() ==> b.order < order) && (order == 0 ==> pcp[c].list == [])
    }

    /** drain_pages_zone: all of one CPU's pages go back. */
    method DrainPagesZone(cpu: nat) returns (had: bool)
      requires Valid() && cpu < |pcp|
      modifies this, zone
      ensures Valid() && Available() == old(Available()) && had == (old(pcp)[cpu].list != [])
      ensures |pcp| == |old(pcp)| && pcp == old(pcp)[cpu := pcp[cpu]] && pcp[cpu].list == []
      ensures !had ==> zone.Blocks() == old(zone.Blocks())
    {
      had := pcp[cpu].count != 0;
      assert pcp == pcp[cpu := pcp[cpu]];
      if had {
        FreePcppagesBulk(cpu, pcp[cpu].count);
      }
    }

    /** The lists of all other CPUs go back; the result is that of the last one alone. */
    method DrainOthers(c: nat) returns (train: bool)
      requires Valid() && c < |pcp|
      modifies this, zone
      ensures Valid() && Available() == old(Available()) && |pcp| == |old(pcp)| && pcp[c] == old(pcp)[c]
      ensures OthersEmpty(c) && (train <==> LastHas(old(pcp), c))
      ensures old(OthersEmpty(c)) ==> zone.Blocks() == old(zone.Blocks())
    {
      train := false;
      var cpu := 0;
      while cpu < |pcp|
        invariant cpu <= |pcp| == |old(pcp)| && Valid() && Available() == old(Available()) && pcp[c] == old(pcp)[c]
        invariant forall d: nat :: d < cpu && d != c ==> pcp[d].list == []
        invariant forall d: nat :: cpu <= d < |pcp| ==> pcp[d] == old(pcp)[d]
        invariant old(OthersEmpty(c)) ==> zone.Blocks() == old(zone.Blocks())
        invariant var last := LastOther(c, cpu); if c < cpu
          then train <==> last.Some? && old(pcp)[last.value].list != []
          else train <==> cpu > 0 && old(pcp)[cpu - 1].list != []
      {
        if cpu != c {
          train := DrainPagesZone(cpu);
        }
        cpu := cpu + 1;
      }
    }

    /**
     get_page_from_freelist on CPU c.  Frames are neither lost nor handed out twice.  After a
     failure the lists of the other CPUs are given back, but the second attempt is made only if
     the last of them was not empty.
     */
    method GetPageFromFreelist(c: nat, order: nat, bad: nat -> bool) returns (r: Option<nat>, ghost dropped: set<int>)
      requires Valid() && c < |pcp|
      modifies this, zone
      ensures Valid() && |pcp| == |old(pcp)| && dropped <= old(Available())
      ensures Taken(r, order, bad, old(Available()), dropped)
      ensures dropped == {} ==>
              (r.None? <==> old(Exhausted(c, order)) && (LastHas(old(pcp), c) ==> !old(RoomFor(c, order))))
      ensures dropped == {} && order == 0 ==> (r.None? <==> old(Exhausted(c, 0)) && !LastHas(old(pcp), c))
      ensures r.None? ==> OthersEmpty(c)
    {
      dropped := {};
      ghost var first := true;
      while true
        invariant Valid() && |pcp| == |old(pcp)| && dropped <= old(Available())
        invariant Available() == old(Available()) - dropped
        invariant AllGood(bad) ==> dropped == {}
        invariant first ==> dropped == {} && pcp == old(pcp) && zone.Blocks() == old(zone.Blocks())
        invariant !first ==> OthersEmpty(c) && (dropped == {} ==> old(Exhausted(c, order)) && LastHas(old(pcp), c))
        invariant !first && dropped == {} ==> (Exhausted(c, order) <==> !old(RoomFor(c, order)))
        invariant !first && dropped == {} && order == 0 ==> zone.Blocks() != {}
        decreases first
      {
        ghost var more;
        var train;
        r, train, more := Attempt(c, order, bad);
        dropped := dropped + more;
        if r.Some? || !train {
          return;
        }
        first := false;
      }
    }

    /** One attempt, and what is done when it fails. */
    method Attempt(c: nat, order: nat, bad: nat -> bool) returns (r: Option<nat>, train: bool, ghost dropped: set<int>)
      requires Valid() && c < |pcp|
      modifies this, zone
      ensures Valid() && |pcp| == |old(pcp)| && dropped <= old(Available())
      ensures Taken(r, order, bad, old(Available()), dropped)
      ensures dropped == {} ==> (r.None? <==> old(Exhausted(c, order)))
      ensures r.None? ==> OthersEmpty(c) && (train <==> LastHas(old(pcp), c))
      ensures r.None? && old(OthersEmpty(c)) ==> Exhausted(c, order) && !train
      ensures r.None? && dropped == {} ==> (Exhausted(c, order) <==> !old(RoomFor(c, order)))
      ensures r.None? && train && dropped == {} && order == 0 ==> zone.Blocks() != {}
    {
      train := false;
      r, dropped := Rmqueue(c, order, bad);
      if r.None? {
        train := DrainOthers(c);
        BlockThere(c, order);
        if train && dropped == {} && order == 0 { SomethingFree(c, old(pcp)); }
      }
    }

    /** An aligned block of this order consists of frames that are free or cached for other CPUs. */
    ghost predicate RoomFor(c: nat, order: nat)
      requires c < |pcp|
      reads this, zone
    {
      RoomIn(Available() - SetOf(pcp[c].list), zone.maxOrder, order)
    }

    /** Once nothing is cached for other CPUs, that is a free block of this order or a larger one. */
    lemma BlockThere(c: nat, order: nat)
      requires Valid() && c < |pcp| && OthersEmpty(c)
      ensures (exists b :: b in zone.Blocks() && b.order >= order) <==> RoomFor(c, order)
    {
      var F, free := zone.Blocks(), Available() - SetOf(pcp[c].list);
      forall f ensures f in free <==> Free(F, f) {
        if Free(F, f) { FreeInZone(F, zone.maxOrder, zone.Frames(), f); }
        assert Cached(pcp, f) <==> f in SetOf(pcp[c].list);
      }
      if b :| b in F && b.order >= order { BlockHasRoom(F, zone.maxOrder, zone.Frames(), b, free, order); }
      if RoomIn(free, zone.maxOrder, order) {
        var pfn: nat :| order < zone.maxOrder && Aligned(pfn, order) && FramesOf(Block(pfn, order)) <= free;
        var x := Block(pfn, order);
        assert forall f :: Covers(x, f) ==> f in FramesOf(x);
        var a := FullyFree(F, x, zone.maxOrder, zone.Frames());
      }
    }

    /** Once every list is empty, what was cached before is free. */
    lemma SomethingFree(c: nat, was: seq<Pcp>)
      requires Valid() && c < |pcp| == |was| && OthersEmpty(c) && pcp[c].list == [] && LastHas(was, c)
      requires forall f: nat :: Cached(was, f) ==> f in Available()
      ensures zone.Blocks() != {}
    {
      var f := was[LastOther(c, |was|).value].list[0];
      assert Cached(was, f);
      assert !Cached(pcp, f);
      assert Free(zone.Blocks(), f);
    }

    ghost predicate OthersEmpty(c: nat)
      reads this
    {
      forall d: nat :: d < |pcp| && d != c ==> pcp[d].list == []
    }
  }

  /** The frames contain an aligned block of this order. */
  ghost predicate RoomIn(frames: set<int>, max: nat, order: nat) {
    exists pfn: nat :: order < max && Aligned(pfn, order) && FramesOf(Block(pfn, order)) <= frames
  }

  lemma FreeInZone(F: set<Block>, max: nat, zone: set<int>, f: int)
    requires FreeInv(F, max, zone) && Free(F, f)
    ensures f in zone
  {
    var b :| b in F && Covers(b, f);
  }

  /** A free block has room for every smaller order. */
  lemma BlockHasRoom(F: set<Block>, max: nat, zone: set<int>, b: Block, free: set<int>, order: nat)
    requires FreeInv(F, max, zone) && b in F && order <= b.order && forall f :: Free(F, f) ==> f in free
    ensures RoomIn(free, max, order)
  {
    AlignedUpTo(b.pfn, b.order, order);
    Pow2Mono(order, b.order);
    forall f | f in FramesOf(Block(b.pfn, order)) ensures f in free {
      assert Covers(b, f);
    }
    assert FramesOf(Block(b.pfn, order)) <= free;
  }

  /** So memory can be refused although there is some: in a zone of any size, one frame, cached for
      the second of three CPUs, is given back too late for the first one. */
  method RefusedThoughFree(frames: nat, maxOrder: nat, batch: nat) returns (ps: Pageset, r: Option<nat>)
    requires frames > 0 && maxOrder > 0 && batch > 0
    ensures ps.Valid() && r.None? && ps.Available() == {0} && ps.OthersEmpty(0)
  {
    var zone := new Zone(maxOrder, 0, seq(frames, _ => 0));
    ps := new Pageset(zone, [batch, batch, batch]);
    assert 0 in zone.Frames() && ps.Available() == {};
    OneFrame(0);
    ps.FreeUnrefPageCommit(1, 0);
    assert ps.pcp[0].list == [] && ps.pcp[2].list == [];
    assert ps.Exhausted(0, 0) && !LastHas(ps.pcp, 0);
    ghost var dropped;
    r, dropped := ps.GetPageFromFreelist(0, 0, f => false);
  }

  /** The last CPU other than c has pages on its list. */
  ghost predicate LastHas(pcp: seq<Pcp>, c: nat) {
    var last := LastOther(c, |pcp|);
    last.Some? && pcp[last.value].list != []
  }

  /** check_new_pages: some page of the block fails the check. */
  predicate BadBlock(bad: nat -> bool, pfn: nat, order: nat) {
    exists f: nat :: pfn <= f < pfn + Pow2(order) && bad(f)
  }

  ghost predicate AllGood(bad: nat -> bool) {
    forall f: nat :: !bad(f)
  }

  lemma BadPage(bad: nat -> bool, pfn: nat)
    ensures BadBlock(bad, pfn, 0) <==> bad(pfn)
  {
    assert Pow2(0) == 1;
  }

  /** The last CPU other than c, if there is one. */
  function LastOther(c: nat, n: nat): Option<nat> {
    if n < 2 then None else if c == n - 1 then Some(n - 2) else Some(n - 1)
  }

  /** A block none of whose frames is available is apart from every free block. */
  lemma NotFreeApart(F: set<Block>, a: Block, b: Block, max: nat, frames: set<int>, available: set<int>)
    requires a in F && FreeInv(F, max, frames) && FramesOf(b) !! available
    requires forall f :: f in frames && Free(F, f) ==> f in available
    ensures Apart(a, b)
  {
    var f := if a.pfn <= b.pfn then b.pfn else a.pfn;
    if Covers(a, f) && Covers(b, f) {
      assert Free(F, f) && f in FramesOf(b);
    }
  }

  /** The pages popped off the end are the end of the list. */
  lemma HeadIsTail(head: seq<nat>, L: seq<nat>, m: nat)
    requires NoDup(L) && m <= |L| && |head| == |L| - m && forall i: nat :: i < |head| ==> head[i] == L[|L| - 1 - i]
    ensures NoDup(head) && forall x: nat :: x in head <==> x in L[m..]
  {
    forall x: nat | x in L[m..] ensures x in head {
      var j :| 0 <= j < |L| - m && L[m..][j] == x;
      assert head[|L| - 1 - (m + j)] == x;
    }
    forall x: nat | x in head ensures x in L[m..] {
      var i: nat :| i < |head| && head[i] == x;
      assert L[m..][|L| - 1 - i - m] == x;
    }
  }
}
