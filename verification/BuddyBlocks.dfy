/**
 Sets of free blocks of a buddy allocator, and what freeing and splitting do to them
 (kernel/mm/page_alloc.c:144-205, 564-578; kernel/mm/internal.h:29-33).
 */
module BuddyBlocks {
  import opened Bits

  /** 2^order page frames from `pfn` on. */
  datatype Block = Block(pfn: nat, order: nat)

  function BuddyOf(b: Block): Block {
    Block(Xor(b.pfn, Pow2(b.order)), b.order)
  }

  /** The block that a block and its buddy merge into. */
  function Parent(b: Block): Block {
    Block(And(BuddyOf(b).pfn, b.pfn), b.order + 1)
  }

  predicate Covers(b: Block, f: int) {
    b.pfn <= f < b.pfn + Pow2(b.order)
  }

  predicate Inside(a: Block, b: Block) {
    b.pfn <= a.pfn && a.pfn + Pow2(a.order) <= b.pfn + Pow2(b.order)
  }

  predicate Apart(a: Block, b: Block) {
    a.pfn + Pow2(a.order) <= b.pfn || b.pfn + Pow2(b.order) <= a.pfn
  }

  ghost predicate Free(F: set<Block>, f: int) {
    exists b :: b in F && Covers(b, f)
  }

  /** A block the zone may contain. */
  ghost predicate Fits(b: Block, max: nat, zone: set<int>) {
    b.order < max && Aligned(b.pfn, b.order) && forall f :: Covers(b, f) ==> f in zone
  }

  ghost predicate ApartFrom(F: set<Block>, b: Block) {
    forall a :: a in F ==> Apart(a, b)
  }

  /** Free blocks are aligned, lie in the zone, are disjoint, and no two of them could merge. */
  ghost predicate FreeInv(F: set<Block>, max: nat, zone: set<int>) {
    && (forall b :: b in F ==> Fits(b, max, zone))
    && (forall a, b :: a in F && b in F && a != b ==> Apart(a, b))
    && (forall b :: b in F && b.order + 1 < max ==> BuddyOf(b) !in F)
  }

  /** What `__free_one_page` makes of the set of free blocks. */
  ghost function Merge(F: set<Block>, b: Block, max: nat): set<Block>
    decreases max - b.order
  {
    if b.order + 1 < max && BuddyOf(b) in F then Merge(F - {BuddyOf(b)}, Parent(b), max) else F + {b}
  }

  /** The block that ends up on a free list. */
  ghost function Merged(F: set<Block>, b: Block, max: nat): Block
    decreases max - b.order
  {
    if b.order + 1 < max && BuddyOf(b) in F then Merged(F - {BuddyOf(b)}, Parent(b), max) else b
  }

  /** What `expand` makes of it: the upper halves of a block of order `high`, down to order `low`. */
  ghost function Expand(F: set<Block>, pfn: nat, low: nat, high: nat): set<Block>
    decreases high
  {
    if high <= low then F else Expand(F + {Block(pfn + Pow2(high - 1), high - 1)}, pfn, low, high - 1)
  }

  // ------------------------------------------------------- geometry of aligned blocks

  /** Two aligned blocks that share a frame are nested. */
  lemma {:induction false} Nested(a: Block, b: Block, f: nat)
    requires Aligned(a.pfn, a.order) && Aligned(b.pfn, b.order) && a.order <= b.order
    requires Covers(a, f) && Covers(b, f)
    ensures Inside(a, b) && (a.order == b.order ==> a == b)
    decreases a.order
  {
    if a.order > 0 {
      var a', b' := Block(a.pfn / 2, a.order - 1), Block(b.pfn / 2, b.order - 1);
      assert Pow2(a.order) == 2 * Pow2(a.order - 1) && Pow2(b.order) == 2 * Pow2(b.order - 1);
      assert a.pfn == 2 * a'.pfn && b.pfn == 2 * b'.pfn;
      Nested(a', b', f / 2);
    } else if b.order == 0 {
      assert Pow2(0) == 1;
    }
  }

  /** Where a block's buddy and parent are. */
  lemma BuddyPlaces(b: Block)
    requires Aligned(b.pfn, b.order)
    ensures var c, p := BuddyOf(b), Parent(b);
      if Aligned(b.pfn, b.order + 1) then c.pfn == b.pfn + Pow2(b.order) && p.pfn == b.pfn
        && !Aligned(c.pfn, c.order + 1)
      else b.pfn == c.pfn + Pow2(b.order) && p.pfn == c.pfn && Aligned(c.pfn, c.order + 1)
    ensures Aligned(BuddyOf(b).pfn, b.order)
  {
    var k, c := b.order, BuddyOf(b);
    FlipBit(b.pfn, k);
    AndCommutes(b.pfn, c.pfn);
    if Aligned(b.pfn, k + 1) { AndAbove(b.pfn, k); } else { AndAbove(c.pfn, k); }
  }

  /** A block and its buddy are the two halves of their parent. */
  lemma BuddyGeometry(b: Block)
    requires Aligned(b.pfn, b.order)
    ensures var c, p := BuddyOf(b), Parent(b);
      && Aligned(c.pfn, c.order) && Aligned(p.pfn, p.order) && BuddyOf(c) == b && Parent(c) == p && c != b
      && Apart(b, c) && Inside(b, p) && Inside(c, p)
      && (forall f :: Covers(p, f) <==> Covers(b, f) || Covers(c, f))
      && ((p.pfn == b.pfn && c.pfn == b.pfn + Pow2(b.order)) || (p.pfn == c.pfn && b.pfn == c.pfn + Pow2(b.order)))
  {
    BuddyPlaces(b);
    BuddyPlaces(BuddyOf(b));
    assert Pow2(b.order + 1) == 2 * Pow2(b.order);
  }

  /** The lower half of a block and its buddy, the upper half. */
  lemma HalvesOf(p: nat, k: nat)
    requires Aligned(p, k + 1)
    ensures Aligned(p, k) && Aligned(p + Pow2(k), k)
    ensures BuddyOf(Block(p, k)) == Block(p + Pow2(k), k) && BuddyOf(Block(p + Pow2(k), k)) == Block(p, k)
    ensures forall f :: Covers(Block(p, k + 1), f) <==> Covers(Block(p, k), f) || Covers(Block(p + Pow2(k), k), f)
  {
    AlignedLess(p, k);
    BuddyGeometry(Block(p, k));
    BuddyPlaces(Block(p, k));
    assert Parent(Block(p, k)) == Block(p, k + 1);
  }

  // ------------------------------------------------------------------- freeing

  lemma MergeStep(F: set<Block>, b: Block, max: nat, zone: set<int>)
    requires FreeInv(F, max, zone) && Fits(b, max, zone) && ApartFrom(F, b)
    requires b.order + 1 < max && BuddyOf(b) in F
    ensures FreeInv(F - {BuddyOf(b)}, max, zone) && Fits(Parent(b), max, zone) && ApartFrom(F - {BuddyOf(b)}, Parent(b))
    ensures forall f :: Free(F, f) || Covers(b, f) <==> Free(F - {BuddyOf(b)}, f) || Covers(Parent(b), f)
  {
    BuddyGeometry(b);
    var c := BuddyOf(b);
    forall a | a in F - {c} ensures Apart(a, Parent(b)) {
      assert Apart(a, c) && Apart(a, b);
    }
    forall f ensures Free(F, f) || Covers(b, f) <==> Free(F - {c}, f) || Covers(Parent(b), f) {
      if Free(F, f) {
        var a :| a in F && Covers(a, f);
        assert a == c || a in F - {c};
      }
      if Covers(c, f) {
        assert Free(F, f);
      }
    }
  }

  /** Freeing a block keeps the invariant, and frees exactly the block's frames. */
  lemma {:induction false} MergeFrees(F: set<Block>, b: Block, max: nat, zone: set<int>)
    requires FreeInv(F, max, zone) && Fits(b, max, zone) && ApartFrom(F, b)
    ensures FreeInv(Merge(F, b, max), max, zone)
    ensures forall f :: Free(Merge(F, b, max), f) <==> Free(F, f) || Covers(b, f)
    decreases max - b.order
  {
    if b.order + 1 < max && BuddyOf(b) in F {
      MergeStep(F, b, max, zone);
      MergeFrees(F - {BuddyOf(b)}, Parent(b), max, zone);
    } else {
      BuddyGeometry(b);
      AddBlock(F, b, max, zone);
    }
  }

  lemma AddBlock(F: set<Block>, b: Block, max: nat, zone: set<int>)
    requires FreeInv(F, max, zone) && Fits(b, max, zone) && ApartFrom(F, b)
    requires b.order + 1 < max ==> BuddyOf(b) !in F && BuddyOf(b) != b
    ensures FreeInv(F + {b}, max, zone)
    ensures forall f :: Free(F + {b}, f) <==> Free(F, f) || Covers(b, f)
  {
    forall a | a in F + {b} && a.order + 1 < max ensures BuddyOf(a) !in F + {b} {
      BuddyGeometry(a);
    }
    forall f ensures Free(F + {b}, f) <==> Free(F, f) || Covers(b, f) {
      if Free(F + {b}, f) {
        var a :| a in F + {b} && Covers(a, f);
        assert a in F || a == b;
      }
      if Free(F, f) {
        var a :| a in F && Covers(a, f);
        assert a in F + {b};
      }
      if Covers(b, f) {
        assert b in F + {b};
      }
    }
  }

  // ------------------------------------------------------------------ splitting

  /** Splitting a block off keeps the invariant; what is left of it is the lowest block of the wanted order. */
  lemma {:induction false} ExpandSplits(F: set<Block>, p: nat, low: nat, high: nat, max: nat, zone: set<int>)
    requires FreeInv(F, max, zone) && low <= high && Fits(Block(p, high), max, zone) && ApartFrom(F, Block(p, high))
    ensures FreeInv(Expand(F, p, low, high), max, zone)
    ensures Fits(Block(p, low), max, zone) && ApartFrom(Expand(F, p, low, high), Block(p, low))
    ensures forall f ::
      Free(F, f) || Covers(Block(p, high), f) <==> Free(Expand(F, p, low, high), f) || Covers(Block(p, low), f)
    decreases high
  {
    if high > low {
      var k := high - 1;
      var u := Block(p + Pow2(k), k);
      HalvesOf(p, k);
      assert !Apart(Block(p, k), Block(p, high));
      AddBlock(F, u, max, zone);
      ExpandSplits(F + {u}, p, low, k, max, zone);
    }
  }

  // ------------------------------------------------------------ canonical free sets

  /** If every frame of an aligned block is free, one free block contains all of it. */
  lemma {:induction false} FullyFree(F: set<Block>, x: Block, max: nat, zone: set<int>) returns (a: Block)
    requires FreeInv(F, max, zone) && Aligned(x.pfn, x.order) && x.order < max
    requires forall f :: Covers(x, f) ==> Free(F, f)
    ensures a in F && Inside(x, a) && x.order <= a.order
    decreases x.order
  {
    assert Covers(x, x.pfn);
    if x.order == 0 {
      a :| a in F && Covers(a, x.pfn);
    } else {
      var k := x.order - 1;
      var l, r := Block(x.pfn, k), Block(x.pfn + Pow2(k), k);
      HalvesOf(x.pfn, k);
      var al := FullyFree(F, l, max, zone);
      var ar := FullyFree(F, r, max, zone);
      if al.order > k {
        Nested(x, al, l.pfn);
        a := al;
      } else if ar.order > k {
        Nested(x, ar, r.pfn);
        a := ar;
      } else {
        Nested(l, al, l.pfn);
        Nested(r, ar, r.pfn);
        assert false;
      }
    }
  }

  /** The buddy of a free block below the top order is inside no free block. */
  lemma BuddyNotInside(F: set<Block>, b: Block, a: Block, max: nat, zone: set<int>)
    requires FreeInv(F, max, zone) && b in F && b.order + 1 < max && a in F && b.order <= a.order
    ensures !Inside(BuddyOf(b), a)
  {
    var x, p := BuddyOf(b), Parent(b);
    BuddyGeometry(b);
    if Inside(x, a) {
      assert Covers(x, x.pfn) && Covers(a, x.pfn);
      if a.order == b.order {
        Nested(x, a, x.pfn);
      } else {
        Nested(p, a, x.pfn);
      }
      assert false;
    }
  }

  /** So it is not entirely free. */
  lemma BuddyNotFree(F: set<Block>, b: Block, max: nat, zone: set<int>)
    requires FreeInv(F, max, zone) && b in F && b.order + 1 < max
    ensures exists f :: Covers(BuddyOf(b), f) && !Free(F, f)
  {
    BuddyGeometry(b);
    if forall f :: Covers(BuddyOf(b), f) ==> Free(F, f) {
      var a := FullyFree(F, BuddyOf(b), max, zone);
      BuddyNotInside(F, b, a, max, zone);
      assert false;
    }
  }

  /** Coalesced sets that free the same frames cover each frame with blocks of the same order. */
  lemma SameOrder(F: set<Block>, G: set<Block>, b: Block, c: Block, max: nat, zone: set<int>)
    requires FreeInv(F, max, zone) && FreeInv(G, max, zone) && (forall f :: Free(F, f) <==> Free(G, f))
    requires b in F && c in G && Covers(c, b.pfn)
    ensures c.order <= b.order
  {
    if b.order < c.order {
      BuddyNotFree(F, b, max, zone);
      var f :| Covers(BuddyOf(b), f) && !Free(F, f);
      BuddyGeometry(b);
      Nested(Parent(b), c, b.pfn);
      assert Covers(c, f);
      assert false;
    }
  }

  lemma InOther(F: set<Block>, G: set<Block>, b: Block, max: nat, zone: set<int>)
    requires FreeInv(F, max, zone) && FreeInv(G, max, zone) && (forall f :: Free(F, f) <==> Free(G, f))
    requires b in F
    ensures b in G
  {
    assert Covers(b, b.pfn) && Free(F, b.pfn);
    var c :| c in G && Covers(c, b.pfn);
    SameOrder(F, G, b, c, max, zone);
    Nested(c, b, b.pfn);
    SameOrder(G, F, c, b, max, zone);
    Nested(b, c, b.pfn);
  }

  /** The free blocks are determined by the free frames. */
  lemma Canonical(F: set<Block>, G: set<Block>, max: nat, zone: set<int>)
    requires FreeInv(F, max, zone) && FreeInv(G, max, zone) && (forall f :: Free(F, f) <==> Free(G, f))
    ensures F == G
  {
    forall b | b in F ensures b in G { InOther(F, G, b, max, zone); }
    forall b | b in G ensures b in F { InOther(G, F, b, max, zone); }
  }

  /** Allocating a block and freeing it again restores the free blocks exactly. */
  lemma AllocThenFree(F: set<Block>, b: Block, low: nat, max: nat, zone: set<int>)
    requires FreeInv(F, max, zone) && b in F && low <= b.order
    ensures Merge(Expand(F - {b}, b.pfn, low, b.order), Block(b.pfn, low), max) == F
  {
    var F1 := F - {b};
    var F2 := Expand(F1, b.pfn, low, b.order);
    ExpandSplits(F1, b.pfn, low, b.order, max, zone);
    MergeFrees(F2, Block(b.pfn, low), max, zone);
    forall f ensures Free(Merge(F2, Block(b.pfn, low), max), f) <==> Free(F, f) {
      if Free(F, f) {
        var a :| a in F && Covers(a, f);
        assert a == b || a in F1;
      }
      if Free(F1, f) {
        var a :| a in F1 && Covers(a, f);
        assert a in F;
      }
    }
    Canonical(Merge(F2, Block(b.pfn, low), max), F, max, zone);
  }
}
