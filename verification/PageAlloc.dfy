/**
 The zone's buddy allocator with its free lists, counters and page marks
 (kernel/mm/page_alloc.c).  `BuddyBlocks` holds what its operations mean for the set of
 free blocks; here they are the source's loops on lists and page flags.
 */
module FreeLists {
  import opened Bits
  import opened BuddyBlocks
  import opened Lists

  datatype FreeArea = FreeArea(list: seq<nat>, nrFree: int)

  /** PageBuddy and page_private of a page frame. */
  datatype Page = Page(buddy: bool, priv: nat)

  /** The blocks on the free lists. */
  ghost function BlocksOf(fa: seq<FreeArea>): set<Block> {
    set k, p | 0 <= k < |fa| && p in fa[k].list :: Block(p, k)
  }

  ghost predicate OnList(fa: seq<FreeArea>, k: nat, p: nat) {
    k < |fa| && p in fa[k].list
  }

  ghost predicate MarkedAs(page: seq<Page>, zoneOf: seq<int>, id: int, k: nat, p: nat)
    requires |page| == |zoneOf|
  {
    p < |page| && zoneOf[p] == id && page[p].buddy && page[p].priv == k
  }

  /** A page frame is on list k exactly when it is marked, in this zone, as a free block of order k. */
  ghost predicate Marked(fa: seq<FreeArea>, page: seq<Page>, zoneOf: seq<int>, id: int) {
    && |page| == |zoneOf|
    && (forall k: nat, p: nat :: OnList(fa, k, p) <==> MarkedAs(page, zoneOf, id, k, p))
  }

  ghost predicate Counted(fa: seq<FreeArea>) {
    forall k: nat :: k < |fa| ==> NoDup(fa[k].list) && fa[k].nrFree == |fa[k].list|
  }

  ghost predicate ListsOk(fa: seq<FreeArea>, page: seq<Page>, zoneOf: seq<int>, id: int) {
    Marked(fa, page, zoneOf, id) && Counted(fa)
  }

  ghost function ZoneFrames(zoneOf: seq<int>, id: int): set<int> {
    set f | 0 <= f < |zoneOf| && zoneOf[f] == id
  }

  lemma InBlocks(fa: seq<FreeArea>, b: Block)
    ensures b in BlocksOf(fa) <==> OnList(fa, b.order, b.pfn)
  {
  }

  /** Taking a block off its list and clearing its mark removes exactly that block. */
  lemma DelBlock(fa: seq<FreeArea>, page: seq<Page>, zoneOf: seq<int>, id: int, k: nat, p: nat)
    requires ListsOk(fa, page, zoneOf, id) && OnList(fa, k, p)
    ensures p < |page|
    ensures var fa' := fa[k := FreeArea(Without(fa[k].list, p), fa[k].nrFree - 1)];
      && ListsOk(fa', page[p := Page(false, 0)], zoneOf, id)
      && BlocksOf(fa') == BlocksOf(fa) - {Block(p, k)}
  {
    assert MarkedAs(page, zoneOf, id, k, p);
    var fa' := fa[k := FreeArea(Without(fa[k].list, p), fa[k].nrFree - 1)];
    WithoutProps(fa[k].list, p);
    forall j: nat, x: nat ensures OnList(fa', j, x) <==> MarkedAs(page[p := Page(false, 0)], zoneOf, id, j, x) {
      assert OnList(fa, j, x) <==> MarkedAs(page, zoneOf, id, j, x);
    }
    forall b ensures b in BlocksOf(fa') <==> b in BlocksOf(fa) - {Block(p, k)} {
      InBlocks(fa, b);
      InBlocks(fa', b);
    }
  }

  /** Adding an unmarked frame to a list, at either end, and marking it adds exactly that block. */
  lemma PutBlock(fa: seq<FreeArea>, page: seq<Page>, zoneOf: seq<int>, id: int, k: nat, p: nat, q: seq<nat>)
    requires ListsOk(fa, page, zoneOf, id) && k < |fa| && p < |page| && zoneOf[p] == id && !page[p].buddy
    requires q == [p] + fa[k].list || q == fa[k].list + [p]
    ensures var fa' := fa[k := FreeArea(q, fa[k].nrFree + 1)];
      && ListsOk(fa', page[p := Page(true, k)], zoneOf, id)
      && BlocksOf(fa') == BlocksOf(fa) + {Block(p, k)}
  {
    var fa' := fa[k := FreeArea(q, fa[k].nrFree + 1)];
    assert !OnList(fa, k, p) by { assert !MarkedAs(page, zoneOf, id, k, p); }
    assert forall x: nat :: x in q <==> x in fa[k].list || x == p;
    forall j: nat, x: nat ensures OnList(fa', j, x) <==> MarkedAs(page[p := Page(true, k)], zoneOf, id, j, x) {
      assert OnList(fa, j, x) <==> MarkedAs(page, zoneOf, id, j, x);
    }
    forall b ensures b in BlocksOf(fa') <==> b in BlocksOf(fa) + {Block(p, k)} {
      InBlocks(fa, b);
      InBlocks(fa', b);
    }
  }
}

module PageAlloc {
  import opened Wrappers
  import opened Bits
  import opened BuddyBlocks
  import opened Lists
  import opened FreeLists

  /** List k has got the upper half of order k at its head, if k is one of the orders from `low`
      up to `high`, and is as it was otherwise. */
  ghost predicate HalfAdded(fa: seq<FreeArea>, fa2: seq<FreeArea>, pfn: nat, low: nat, high: nat, k: nat)
    requires k < |fa| == |fa2|
  {
    if low <= k < high then fa2[k].list == [pfn + Pow2(k)] + fa[k].list else fa2[k] == fa[k]
  }

  ghost predicate HalvesAdded(fa: seq<FreeArea>, fa2: seq<FreeArea>, pfn: nat, low: nat, high: nat) {
    |fa2| == |fa| && forall k: nat :: k < |fa| ==> HalfAdded(fa, fa2, pfn, low, high, k)
  }

  lemma MoreAdded(fa: seq<FreeArea>, fa1: seq<FreeArea>, fa2: seq<FreeArea>, pfn: nat, low: nat, high: nat)
    requires low < |fa| && low < high && HalvesAdded(fa, fa1, pfn, low + 1, high)
    requires fa2 == fa1[low := FreeArea([pfn + Pow2(low)] + fa1[low].list, fa1[low].nrFree + 1)]
    ensures HalvesAdded(fa, fa2, pfn, low, high)
  {
    var next := low + 1;
    forall k: nat | k < |fa|
      ensures HalfAdded(fa, fa2, pfn, low, high, k)
    {
      assert HalfAdded(fa, fa1, pfn, next, high, k);
    }
  }

  /** Splitting a block of order `high0` down to `low` has come to order `high`. */
  ghost predicate Splitting(fa0: seq<FreeArea>, fa: seq<FreeArea>, pfn: nat, low: nat, high: nat, high0: nat) {
    && low <= high <= high0 && HalvesAdded(fa0, fa, pfn, high, high0)
    && BuddyBlocks.Expand(BlocksOf(fa), pfn, low, high) == BuddyBlocks.Expand(BlocksOf(fa0), pfn, low, high0)
  }

  lemma SplittingStart(fa: seq<FreeArea>, pfn: nat, low: nat, high: nat)
    requires low <= high
    ensures Splitting(fa, fa, pfn, low, high, high)
  {
  }

  lemma SplittingEnd(fa0: seq<FreeArea>, fa: seq<FreeArea>, pfn: nat, low: nat, high: nat)
    requires Splitting(fa0, fa, pfn, low, low, high)
    ensures HalvesAdded(fa0, fa, pfn, low, high)
    ensures BlocksOf(fa) == BuddyBlocks.Expand(BlocksOf(fa0), pfn, low, high)
  {
  }

  lemma SplittingOn(fa0: seq<FreeArea>, fa: seq<FreeArea>, fa2: seq<FreeArea>, pfn: nat, low: nat, high: nat,
                    high0: nat)
    requires low <= high < |fa| && Splitting(fa0, fa, pfn, low, high + 1, high0)
    requires fa2 == fa[high := FreeArea([pfn + Pow2(high)] + fa[high].list, fa[high].nrFree + 1)]
    requires BlocksOf(fa2) == BlocksOf(fa) + {Block(pfn + Pow2(high), high)}
    ensures Splitting(fa0, fa2, pfn, low, high, high0)
  {
    MoreAdded(fa0, fa, fa2, pfn, high, high0);
  }

  /** page_is_buddy: the buddy is marked free, of the same order, in the same zone. */
  predicate IsBuddy(page: seq<Page>, zoneOf: seq<int>, pfn: nat, buddy: nat, order: nat)
    requires pfn < |page| && buddy < |page| && |page| == |zoneOf|
  {
    page[buddy].buddy && page[buddy].priv == order && zoneOf[pfn] == zoneOf[buddy]
  }

  /** Whether `__free_one_page` puts the block at the tail: the parent's buddy is free, so a merge is likely. */
  predicate LikelyToMerge(page: seq<Page>, zoneOf: seq<int>, maxOrder: nat, pfn: nat, order: nat)
    requires |page| == |zoneOf| && pfn < |page|
  {
    var buddy := Xor(pfn, Pow2(order));
    && order + 2 < maxOrder && buddy < |page|
    && var parent := And(buddy, pfn);
       var higher := Xor(parent, Pow2(order + 1));
       parent < |page| && higher < |page| && IsBuddy(page, zoneOf, parent, higher, order + 1)
  }

  /** It is the buddy of the block's parent that has to be marked free, below the two top orders. */
  lemma LikelyExactly(page: seq<Page>, zoneOf: seq<int>, maxOrder: nat, b: Block)
    requires |page| == |zoneOf| && b.pfn < |page| && Aligned(b.pfn, b.order)
    ensures var p, up := Parent(b), BuddyOf(Parent(b));
      LikelyToMerge(page, zoneOf, maxOrder, b.pfn, b.order) <==>
        && b.order + 2 < maxOrder && BuddyOf(b).pfn < |page| && p.pfn < |page| && up.pfn < |page|
        && page[up.pfn] == Page(true, b.order + 1) && zoneOf[up.pfn] == zoneOf[p.pfn]
  {
    BuddyGeometry(b);
  }

  /** Marks inside the block do not matter for it. */
  lemma LikelyFrame(page0: seq<Page>, page: seq<Page>, zoneOf: seq<int>, maxOrder: nat, b: Block)
    requires |page| == |zoneOf| == |page0| && b.pfn < |page| && Aligned(b.pfn, b.order)
    requires SameOutside(page0, page, b)
    ensures LikelyToMerge(page, zoneOf, maxOrder, b.pfn, b.order) ==
            LikelyToMerge(page0, zoneOf, maxOrder, b.pfn, b.order)
  {
    UpOutside(b);
    LikelyExactly(page0, zoneOf, maxOrder, b);
    LikelyExactly(page, zoneOf, maxOrder, b);
  }

  lemma UpOutside(b: Block)
    requires Aligned(b.pfn, b.order)
    ensures !Covers(b, BuddyOf(Parent(b)).pfn)
  {
    BuddyGeometry(b);
    BuddyGeometry(Parent(b));
  }

  /** No mark outside the block has changed. */
  ghost predicate SameOutside(page0: seq<Page>, page: seq<Page>, b: Block) {
    |page| == |page0| && forall f: nat :: f < |page| && !Covers(b, f) ==> page[f] == page0[f]
  }

  lemma OutsideParent(page0: seq<Page>, page: seq<Page>, b: Block)
    requires SameOutside(page0, page, b) && Aligned(b.pfn, b.order)
    ensures Covers(Parent(b), BuddyOf(b).pfn)
    ensures SameOutside(page0, page, Parent(b))
  {
    BuddyGeometry(b);
    assert Covers(BuddyOf(b), BuddyOf(b).pfn);
  }

  class Zone {
    const maxOrder: nat
    const id: int
    /** page_zone_id of every valid page frame; frames at or past its length are not valid. */
    const zoneOf: seq<int>
    var freeArea: seq<FreeArea>
    var page: seq<Page>

    ghost function Blocks(): set<Block>
      reads this
    {
      BlocksOf(freeArea)
    }

    ghost function Frames(): set<int> {
      ZoneFrames(zoneOf, id)
    }

    ghost predicate Valid()
      reads this
    {
      && |freeArea| == maxOrder
      && ListsOk(freeArea, page, zoneOf, id)
      && FreeInv(Blocks(), maxOrder, Frames())
    }

    /** zone_init_free_lists: all lists empty, no page marked. */
    constructor (maxOrder: nat, id: int, zoneOf: seq<int>)
      ensures Valid() && Blocks() == {} && this.maxOrder == maxOrder && this.id == id && this.zoneOf == zoneOf
    {
      this.maxOrder, this.id, this.zoneOf := maxOrder, id, zoneOf;
      freeArea := seq(maxOrder, _ => FreeArea([], 0));
      page := seq(|zoneOf|, _ => Page(false, 0));
    }

    /** The marks tell exactly whether the buddy is a free block of the zone. */
    lemma BuddyTest(pfn: nat, buddy: nat, order: nat)
      requires Valid() && pfn in Frames() && order < maxOrder
      ensures Block(buddy, order) in Blocks() <==> buddy < |page| && IsBuddy(page, zoneOf, pfn, buddy, order)
    {
      InBlocks(freeArea, Block(buddy, order));
      assert OnList(freeArea, order, buddy) <==> MarkedAs(page, zoneOf, id, order, buddy);
    }

    /** Pages of other zones keep their marks. */
    twostate predicate OthersKept()
      reads this
    {
      && |page| == |old(page)|
      && forall p: nat :: p < |page| && p < |zoneOf| && zoneOf[p] != id ==> page[p] == old(page)[p]
    }

    /** When the parent begins in the zone, that is whether its buddy is a free block of the zone. */
    lemma MergeLikely(pfn: nat, order: nat)
      requires Valid() && Fits(Block(pfn, order), maxOrder, Frames()) && pfn < |page|
      requires Parent(Block(pfn, order)).pfn in Frames()
      ensures LikelyToMerge(page, zoneOf, maxOrder, pfn, order) <==>
        && order + 2 < maxOrder && BuddyOf(Block(pfn, order)).pfn < |page|
        && BuddyOf(Parent(Block(pfn, order))) in Blocks()
    {
      var p := Parent(Block(pfn, order));
      if order + 2 < maxOrder { BuddyTest(p.pfn, BuddyOf(p).pfn, order + 1); }
    }

    /** The end of `__free_one_page` (page_alloc.c:178-204). */
    method LinkFree(pfn: nat, order: nat)
      requires Valid() && Fits(Block(pfn, order), maxOrder, Frames()) && ApartFrom(Blocks(), Block(pfn, order))
      requires order + 1 < maxOrder ==> BuddyOf(Block(pfn, order)) !in Blocks()
      requires pfn < |page|
      modifies this
      ensures Valid() && OthersKept()
      ensures Blocks() == old(Blocks()) + {Block(pfn, order)}
      ensures freeArea[order].list ==
              if LikelyToMerge(old(page), zoneOf, maxOrder, pfn, order) then old(freeArea)[order].list + [pfn]
              else [pfn] + old(freeArea)[order].list
    {
      ghost var F := Blocks();
      NotMarked(pfn, order);
      var tail := LikelyToMerge(page, zoneOf, maxOrder, pfn, order);
      var list := if tail then freeArea[order].list + [pfn] else [pfn] + freeArea[order].list;
      PutBlock(freeArea, page, zoneOf, id, order, pfn, list);
      BuddyGeometry(Block(pfn, order));
      AddBlock(F, Block(pfn, order), maxOrder, Frames());
      page := page[pfn := Page(true, order)];
      freeArea := freeArea[order := FreeArea(list, freeArea[order].nrFree + 1)];
    }

    /** The first frame of a block apart from all free blocks is not marked. */
    lemma NotMarked(pfn: nat, order: nat)
      requires Valid() && Fits(Block(pfn, order), maxOrder, Frames()) && ApartFrom(Blocks(), Block(pfn, order))
      ensures pfn < |page| && zoneOf[pfn] == id && !page[pfn].buddy
    {
      assert Covers(Block(pfn, order), pfn);
      var b := Block(pfn, page[pfn].priv);
      assert !Apart(b, Block(pfn, order));
      InBlocks(freeArea, b);
      assert OnList(freeArea, page[pfn].priv, pfn) <==> MarkedAs(page, zoneOf, id, page[pfn].priv, pfn);
    }

    /** list_del, nr_free-- and rmv_page_order of a free block. */
    method Unlink(pfn: nat, order: nat)
      requires Valid() && Block(pfn, order) in Blocks()
      modifies this
      ensures Valid() && OthersKept() && Blocks() == old(Blocks()) - {Block(pfn, order)}
      ensures pfn < |old(page)| && page == old(page)[pfn := Page(false, 0)]
      ensures freeArea ==
              old(freeArea)[order := FreeArea(Without(old(freeArea)[order].list, pfn), old(freeArea)[order].nrFree - 1)]
    {
      InBlocks(freeArea, Block(pfn, order));
      DelBlock(freeArea, page, zoneOf, id, order, pfn);
      assert MarkedAs(page, zoneOf, id, order, pfn);
      freeArea := freeArea[order := FreeArea(Without(freeArea[order].list, pfn), freeArea[order].nrFree - 1)];
      page := page[pfn := Page(false, 0)];
    }

    /** One turn of it: the buddy, if it is a free block, is unlinked, and the result is the parent. */
    method AbsorbBuddy(pfn: nat, order: nat) returns (parent: Option<nat>)
      requires Valid() && order + 1 < maxOrder
      requires Fits(Block(pfn, order), maxOrder, Frames()) && ApartFrom(Blocks(), Block(pfn, order))
      modifies this
      ensures Valid() && OthersKept() && (parent.Some? <==> BuddyOf(Block(pfn, order)) in old(Blocks()))
      ensures parent.None? ==> freeArea == old(freeArea) && page == old(page)
      ensures parent.Some? ==>
        var b := Block(pfn, order);
        && Block(parent.value, order + 1) == Parent(b) && Blocks() == old(Blocks()) - {BuddyOf(b)}
        && Fits(Parent(b), maxOrder, Frames()) && ApartFrom(Blocks(), Parent(b))
        && BuddyOf(b).pfn < |page| && page == old(page)[BuddyOf(b).pfn := page[BuddyOf(b).pfn]]
        && forall k: nat :: order < k < maxOrder ==> freeArea[k] == old(freeArea)[k]
    {
      NotMarked(pfn, order);
      var buddy := Xor(pfn, Pow2(order));
      BuddyTest(pfn, buddy, order);
      if !(buddy < |page|) || !IsBuddy(page, zoneOf, pfn, buddy, order) {
        return None;
      }
      MergeStep(Blocks(), Block(pfn, order), maxOrder, Frames());
      Unlink(buddy, order);
      parent := Some(And(buddy, pfn));
    }

    /** The loop of `__free_one_page`: unlink free buddies and merge with them as long as possible. */
    method Coalesce(pfn0: nat, order0: nat) returns (pfn: nat, order: nat)
      requires Valid() && Fits(Block(pfn0, order0), maxOrder, Frames()) && ApartFrom(Blocks(), Block(pfn0, order0))
      modifies this
      ensures Valid() && OthersKept() && Fits(Block(pfn, order), maxOrder, Frames())
      ensures ApartFrom(Blocks(), Block(pfn, order))
      ensures order + 1 < maxOrder ==> BuddyOf(Block(pfn, order)) !in Blocks()
      ensures Block(pfn, order) == Merged(old(Blocks()), Block(pfn0, order0), maxOrder)
      ensures Blocks() + {Block(pfn, order)} == Merge(old(Blocks()), Block(pfn0, order0), maxOrder)
      ensures freeArea[order] == old(freeArea)[order] && SameOutside(old(page), page, Block(pfn, order))
    {
      pfn, order := pfn0, order0;
      ghost var F, b0 := Blocks(), Block(pfn0, order0);
      while order < maxOrder - 1
        invariant Valid() && OthersKept() && order < maxOrder
        invariant Fits(Block(pfn, order), maxOrder, Frames()) && ApartFrom(Blocks(), Block(pfn, order))
        invariant Merge(Blocks(), Block(pfn, order), maxOrder) == Merge(F, b0, maxOrder)
        invariant Merged(Blocks(), Block(pfn, order), maxOrder) == Merged(F, b0, maxOrder)
        invariant forall k: nat :: order <= k < maxOrder ==> freeArea[k] == old(freeArea)[k]
        invariant SameOutside(old(page), page, Block(pfn, order))
        decreases maxOrder - order
      {
        OutsideParent(old(page), page, Block(pfn, order));
        var parent := AbsorbBuddy(pfn, order);
        if parent.None? {
          return;
        }
        pfn := parent.value;
        order := order + 1;
      }
    }

    /**
     __free_one_page: merge with free buddies as long as possible, then put the result on
     its list.  The caller frees an aligned block of the zone that overlaps no free block.
     */
    method FreeOnePage(pfn0: nat, order0: nat)
      requires Valid() && Fits(Block(pfn0, order0), maxOrder, Frames()) && ApartFrom(Blocks(), Block(pfn0, order0))
      modifies this
      ensures Valid() && OthersKept()
      ensures Blocks() == Merge(old(Blocks()), Block(pfn0, order0), maxOrder)
      ensures forall f :: Free(Blocks(), f) <==> Free(old(Blocks()), f) || Covers(Block(pfn0, order0), f)
      ensures var m := Merged(old(Blocks()), Block(pfn0, order0), maxOrder);
        && m.order < maxOrder && |old(page)| == |zoneOf| && m.pfn < |old(page)|
        && freeArea[m.order].list ==
           if LikelyToMerge(old(page), zoneOf, maxOrder, m.pfn, m.order) then old(freeArea)[m.order].list + [m.pfn]
           else [m.pfn] + old(freeArea)[m.order].list
    {
      MergeFrees(Blocks(), Block(pfn0, order0), maxOrder, Frames());
      var pfn, order := Coalesce(pfn0, order0);
      NotMarked(pfn, order);
      LikelyFrame(old(page), page, zoneOf, maxOrder, Block(pfn, order));
      LinkFree(pfn, order);
    }

    /** expand: give the upper halves of a block back, down to the order wanted. */
    method Expand(pfn: nat, low: nat, high0: nat)
      requires Valid() && low <= high0
      requires Fits(Block(pfn, high0), maxOrder, Frames()) && ApartFrom(Blocks(), Block(pfn, high0))
      modifies this
      ensures Valid() && OthersKept()
      ensures Blocks() == BuddyBlocks.Expand(old(Blocks()), pfn, low, high0)
      ensures HalvesAdded(old(freeArea), freeArea, pfn, low, high0)
    {
      var high: nat := high0;
      ghost var fa0 := freeArea;
      SplittingStart(fa0, pfn, low, high0);
      while high > low
        invariant Valid() && OthersKept() && Splitting(fa0, freeArea, pfn, low, high, high0)
        invariant Fits(Block(pfn, high), maxOrder, Frames()) && ApartFrom(Blocks(), Block(pfn, high))
      {
        ghost var fa := freeArea;
        high := high - 1;
        SplitOff(pfn, high);
        SplittingOn(fa0, fa, freeArea, pfn, low, high, high0);
      }
      SplittingEnd(fa0, freeArea, pfn, low, high0);
    }

    /** One turn of expand: list_add of the upper half, nr_free++ and set_page_order. */
    method SplitOff(pfn: nat, high: nat)
      requires Valid()
      requires Fits(Block(pfn, high + 1), maxOrder, Frames()) && ApartFrom(Blocks(), Block(pfn, high + 1))
      modifies this
      ensures Valid() && OthersKept()
      ensures Blocks() == old(Blocks()) + {Block(pfn + Pow2(high), high)}
      ensures Fits(Block(pfn, high), maxOrder, Frames()) && ApartFrom(Blocks(), Block(pfn, high))
      ensures var was := old(freeArea)[high];
        freeArea == old(freeArea)[high := FreeArea([pfn + Pow2(high)] + was.list, was.nrFree + 1)]
    {
      ghost var F, u := Blocks(), Block(pfn + Pow2(high), high);
      HalvesOf(pfn, high);
      assert !Apart(Block(pfn, high), Block(pfn, high + 1));
      NotMarked(u.pfn, high);
      PutBlock(freeArea, page, zoneOf, id, high, u.pfn, [u.pfn] + freeArea[high].list);
      AddBlock(F, u, maxOrder, Frames());
      var upper := pfn + Pow2(high);
      freeArea := freeArea[high := FreeArea([upper] + freeArea[high].list, freeArea[high].nrFree + 1)];
      page := page[upper := Page(true, high)];
    }

    /** The lowest order at or above `order` with a free block, if any. */
    ghost predicate FirstOrder(order: nat, h: nat)
      reads this
    {
      && order <= h < |freeArea| && freeArea[h].list != []
      && forall k: nat :: order <= k < h ==> freeArea[k].list == []
    }

    /**
     __rmqueue_smallest: the first block of the smallest sufficient order, split down to
     `order`; NULL exactly when no block of that order or a larger one is free.
     */
    method RmqueueSmallest(order: nat) returns (r: Option<nat>, ghost from: Block)
      requires Valid()
      modifies this
      ensures Valid() && OthersKept()
      ensures r.None? <==> forall b :: b in old(Blocks()) ==> b.order < order
      ensures r.None? ==> freeArea == old(freeArea) && page == old(page)
      ensures r.Some? ==>
        && old(FirstOrder(order, from.order)) && from.pfn == r.value == old(freeArea)[from.order].list[0]
        && from in old(Blocks())
        && Blocks() == BuddyBlocks.Expand(old(Blocks()) - {from}, from.pfn, order, from.order)
        && Fits(Block(r.value, order), maxOrder, Frames()) && ApartFrom(Blocks(), Block(r.value, order))
      ensures r.Some? ==>
        forall f :: Free(old(Blocks()), f) <==> Free(Blocks(), f) || Covers(Block(r.value, order), f)
    {
      var current := order;
      from := Block(0, 0);
      while current < maxOrder
        invariant Valid() && freeArea == old(freeArea) && page == old(page)
        invariant forall k: nat :: order <= k < current && k < maxOrder ==> freeArea[k].list == []
      {
        if freeArea[current].list != [] {
          var pfn := freeArea[current].list[0];
          from := Block(pfn, current);
          InBlocks(freeArea, from);
          r := Some(pfn);
          TakeAndExpand(pfn, order, current);
          return;
        }
        current := current + 1;
      }
      r := None;
      forall b | b in Blocks() ensures b.order < order {
        InBlocks(freeArea, b);
      }
    }

    /** Taking a free block off its list and splitting it. */
    method TakeAndExpand(pfn: nat, order: nat, current: nat)
      requires Valid() && Block(pfn, current) in Blocks() && order <= current
      modifies this
      ensures Valid() && OthersKept()
      ensures Blocks() == BuddyBlocks.Expand(old(Blocks()) - {Block(pfn, current)}, pfn, order, current)
      ensures Fits(Block(pfn, order), maxOrder, Frames()) && ApartFrom(Blocks(), Block(pfn, order))
      ensures forall f :: Free(old(Blocks()), f) <==> Free(Blocks(), f) || Covers(Block(pfn, order), f)
    {
      ghost var F, b := Blocks(), Block(pfn, current);
      Unlink(pfn, current);
      ExpandSplits(F - {b}, pfn, order, current, maxOrder, Frames());
      FreeMinus(F, b);
      Expand(pfn, order, current);
    }
  }

  lemma FreeMinus(F: set<Block>, b: Block)
    requires b in F
    ensures forall f :: Free(F, f) <==> Free(F - {b}, f) || Covers(b, f)
  {
    forall f ensures Free(F, f) <==> Free(F - {b}, f) || Covers(b, f) {
      if Free(F, f) {
        var a :| a in F && Covers(a, f);
        assert a == b || a in F - {b};
      }
      if Free(F - {b}, f) {
        var a :| a in F - {b} && Covers(a, f);
        assert a in F;
      }
    }
  }

  /** __ffs: the number of trailing zero bits. */
  function Ffs(n: nat): (k: nat)
    requires n > 0
    ensures Aligned(n, k) && !Aligned(n, k + 1)
  {
    if n % 2 == 1 then 0 else 1 + Ffs(n / 2)
  }

  lemma {:induction false} ZeroAligned(k: nat)
    ensures Aligned(0, k)
  {
    if k > 0 { ZeroAligned(k - 1); }
  }

  lemma {:induction false} AlignedUpTo(n: nat, k: nat, j: nat)
    requires Aligned(n, k) && j <= k
    ensures Aligned(n, j)
    decreases k
  {
    if 0 < j {
      AlignedUpTo(n / 2, k - 1, j - 1);
    }
  }

  /** The blocks follow each other without gap or overlap from `start` to `end`. */
  ghost predicate Tiles(blocks: seq<Block>, start: nat, end: nat) {
    if blocks == [] then start == end
    else blocks[0].pfn == start && Tiles(blocks[1..], start + Pow2(blocks[0].order), end)
  }

  lemma {:induction false} TilesSnoc(blocks: seq<Block>, start: nat, mid: nat, b: Block)
    requires Tiles(blocks, start, mid) && b.pfn == mid
    ensures Tiles(blocks + [b], start, mid + Pow2(b.order))
  {
    if blocks == [] {
      assert (blocks + [b])[1..] == [];
    } else {
      TilesSnoc(blocks[1..], start + Pow2(blocks[0].order), mid, b);
      assert (blocks + [b])[1..] == blocks[1..] + [b];
    }
  }

  /**
   __free_pages_memory: the frames from `start` to `end` as aligned blocks below the top
   order.  __ffs is undefined at 0; `ffsOfZero` is whatever it returns there.
   */
  method FreePagesMemory(start0: nat, end: nat, maxOrder: nat, ffsOfZero: nat) returns (blocks: seq<Block>)
    requires start0 <= end && maxOrder > 0
    ensures Tiles(blocks, start0, end)
    ensures forall i :: 0 <= i < |blocks| ==> blocks[i].order < maxOrder && Aligned(blocks[i].pfn, blocks[i].order)
  {
    var start := start0;
    blocks := [];
    while start < end
      invariant start0 <= start <= end && Tiles(blocks, start0, start)
      invariant forall i :: 0 <= i < |blocks| ==> blocks[i].order < maxOrder && Aligned(blocks[i].pfn, blocks[i].order)
    {
      var ffs := if start == 0 then ffsOfZero else Ffs(start);
      if start == 0 { ZeroAligned(ffs); }
      var order: nat := if maxOrder - 1 < ffs then maxOrder - 1 else ffs;
      while start + Pow2(order) > end
        invariant order < maxOrder && order <= ffs
      {
        assert order == 0 ==> Pow2(order) == 1;
        order := order - 1;
      }
      AlignedUpTo(start, ffs, order);
      TilesSnoc(blocks, start0, start, Block(start, order));
      blocks := blocks + [Block(start, order)];
      start := start + Pow2(order);
    }
  }
}
