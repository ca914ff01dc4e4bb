/**
 The SLUB allocator of one kmem_cache (kernel/mm/slub.c).  Free objects are linked through
 a word inside the objects themselves; a slab has a free list of its own and, while it is
 the CPU slab of some CPU, that CPU's lockless free list.  Each operation holds the slab
 lock of the slab it works on, so the operations are atomic here; which slabs another CPU
 has locked while `get_partial` looks is a parameter.
 */
module Slub {
  import opened Wrappers
  import opened Lists

  const MIN_PARTIAL: nat := 5

  /** An object: its slab's page and its position in it. */
  datatype Obj = Obj(slab: int, index: nat)

  datatype Slab = Slab(freelist: Option<Obj>, inuse: int, frozen: bool)
  datatype Cpu = Cpu(page: Option<int>, freelist: Option<Obj>)

  /** What the state means: the two kinds of free list, the CPU of a frozen slab, the objects handed out. */
  datatype View = View(page: map<int, seq<Obj>>, cpu: seq<seq<Obj>>, owner: map<int, nat>, out: set<Obj>)

  function First(q: seq<Obj>): Option<Obj> {
    if q == [] then None else Some(q[0])
  }

  /** From `q[0]`, the free pointers lead through `q` and end. */
  ghost predicate Chain(fp: map<Obj, Option<Obj>>, q: seq<Obj>) {
    forall i: nat :: i < |q| ==> q[i] in fp && fp[q[i]] == First(q[i + 1..])
  }

  /** A free list of slab `p`. */
  ghost predicate FreeList(fp: map<Obj, Option<Obj>>, head: Option<Obj>, q: seq<Obj>, p: int, objects: nat,
                           out: set<Obj>) {
    && head == First(q) && Chain(fp, q) && NoDup(q)
    && (forall o :: o in q ==> o.slab == p && o.index < objects && o !in out)
  }

  ghost predicate SlabOk(fp: map<Obj, Option<Obj>>, slab: map<int, Slab>, v: View, p: int, objects: nat)
    requires p in slab
  {
    && p in v.page
    && FreeList(fp, slab[p].freelist, v.page[p], p, objects, v.out)
    && slab[p].inuse == objects - |v.page[p]|
  }

  ghost predicate CpuOk(fp: map<Obj, Option<Obj>>, slab: map<int, Slab>, cpu: seq<Cpu>, v: View, c: nat, objects: nat)
    requires c < |cpu| == |v.cpu|
  {
    match cpu[c].page
    case None => cpu[c].freelist == None && v.cpu[c] == []
    case Some(p) =>
      && p in slab && slab[p].frozen && p in v.page && p in v.owner && v.owner[p] == c
      && FreeList(fp, cpu[c].freelist, v.cpu[c], p, objects, v.out)
      && (forall o :: o in v.cpu[c] ==> o !in v.page[p])
  }

  /** Every object of a slab is on the slab's list, on the list of the CPU that owns it, or handed out. */
  ghost predicate Accounted(slab: map<int, Slab>, cpu: seq<Cpu>, v: View, p: int, objects: nat)
    requires p in slab && p in v.page && |cpu| == |v.cpu|
  {
    && (slab[p].frozen ==> p in v.owner && v.owner[p] < |cpu| && cpu[v.owner[p]].page == Some(p))
    && (forall i: nat :: i < objects ==>
          Obj(p, i) in v.page[p] || Obj(p, i) in v.out || (slab[p].frozen && Obj(p, i) in v.cpu[v.owner[p]]))
  }

  ghost predicate ObjectsInv(fp: map<Obj, Option<Obj>>, slab: map<int, Slab>, cpu: seq<Cpu>, v: View, objects: nat) {
    && |cpu| == |v.cpu|
    && (forall p :: p in slab ==> SlabOk(fp, slab, v, p, objects) && Accounted(slab, cpu, v, p, objects))
    && (forall c: nat :: c < |cpu| ==> CpuOk(fp, slab, cpu, v, c, objects))
    && (forall o :: o in v.out ==> o.slab in slab && o.index < objects)
  }

  /** An unfrozen slab is on the partial list exactly when it has free objects; a frozen one never is. */
  ghost predicate PartialInv(slab: map<int, Slab>, partial: seq<int>, nrPartial: int, v: View) {
    && NoDup(partial) && nrPartial == |partial|
    && (forall p :: p in partial <==> p in slab && p in v.page && !slab[p].frozen && v.page[p] != [])
  }

  /** The three places an object can be are exclusive, and together they hold every object of every slab. */
  lemma ObjectsPartition(fp: map<Obj, Option<Obj>>, slab: map<int, Slab>, cpu: seq<Cpu>, v: View, objects: nat, o: Obj)
    requires ObjectsInv(fp, slab, cpu, v, objects) && o.slab in slab && o.index < objects
    ensures var onPage := o in v.page[o.slab];
      var onCpu := exists c: nat :: c < |cpu| && o in v.cpu[c];
      var isOut := o in v.out;
      && (onPage || onCpu || isOut) && !(onPage && onCpu) && !(onPage && isOut) && !(onCpu && isOut)
    ensures forall c: nat, d: nat :: c < |cpu| && d < |cpu| && o in v.cpu[c] && o in v.cpu[d] ==> c == d
  {
    assert SlabOk(fp, slab, v, o.slab, objects) && Accounted(slab, cpu, v, o.slab, objects);
    assert o == Obj(o.slab, o.index);
    forall c: nat | c < |cpu| && o in v.cpu[c]
      ensures cpu[c].page == Some(o.slab) && o.slab in v.owner && v.owner[o.slab] == c
      ensures o !in v.out && o !in v.page[o.slab]
    {
      assert CpuOk(fp, slab, cpu, v, c, objects);
    }
  }

  // ---------------------------------------------------------------- free pointers

  /** Writing the free pointer of an object off the chain does not change the chain. */
  lemma ChainFrame(fp: map<Obj, Option<Obj>>, q: seq<Obj>, o: Obj, w: Option<Obj>)
    requires Chain(fp, q) && o !in q
    ensures Chain(fp[o := w], q)
  {
  }

  /** Pushing an object: its free pointer takes the old head. */
  lemma ChainPush(fp: map<Obj, Option<Obj>>, q: seq<Obj>, o: Obj)
    requires Chain(fp, q) && o !in q
    ensures Chain(fp[o := First(q)], [o] + q)
  {
    var q' := [o] + q;
    forall i: nat | i < |q'| ensures q'[i] in fp[o := First(q)] && fp[o := First(q)][q'[i]] == First(q'[i + 1..]) {
      if i == 0 {
        assert q'[1..] == q;
      } else {
        assert q'[i] == q[i - 1] && q'[i + 1..] == q[i..];
      }
    }
  }

  /** Popping: the head's free pointer is the next head. */
  lemma ChainPop(fp: map<Obj, Option<Obj>>, q: seq<Obj>)
    requires Chain(fp, q) && q != []
    ensures q[0] in fp && fp[q[0]] == First(q[1..]) && Chain(fp, q[1..])
  {
    forall i: nat | i < |q[1..]| ensures q[1..][i] in fp && fp[q[1..][i]] == First(q[1..][i + 1..]) {
      assert q[1..][i] == q[i + 1] && q[1..][i + 1..] == q[i + 2..];
    }
  }

  /** Objects of different slabs, on different lists, or handed out, are different objects. */
  lemma ListsApart(fp: map<Obj, Option<Obj>>, slab: map<int, Slab>, cpu: seq<Cpu>, v: View, objects: nat, c: nat,
                   d: nat)
    requires ObjectsInv(fp, slab, cpu, v, objects) && c < |cpu| && d < |cpu| && c != d
    requires cpu[c].page.Some? && cpu[d].page.Some?
    ensures cpu[c].page != cpu[d].page
  {
    assert CpuOk(fp, slab, cpu, v, c, objects) && CpuOk(fp, slab, cpu, v, d, objects);
  }

  /** Whoever holds an object may write over its free pointer: no list runs through it. */
  lemma UserWrite(fp: map<Obj, Option<Obj>>, slab: map<int, Slab>, cpu: seq<Cpu>, v: View, objects: nat, o: Obj,
                  w: Option<Obj>)
    requires ObjectsInv(fp, slab, cpu, v, objects) && o in v.out
    ensures ObjectsInv(fp[o := w], slab, cpu, v, objects)
  {
    var fp' := fp[o := w];
    forall p | p in slab ensures SlabOk(fp', slab, v, p, objects) {
      assert SlabOk(fp, slab, v, p, objects);
      ChainFrame(fp, v.page[p], o, w);
    }
    forall c: nat | c < |cpu| ensures CpuOk(fp', slab, cpu, v, c, objects) {
      assert CpuOk(fp, slab, cpu, v, c, objects);
      if cpu[c].page.Some? {
        ChainFrame(fp, v.cpu[c], o, w);
      }
    }
  }

  /** slab_alloc, fast path: the first object of the CPU's list is handed out. */
  lemma CpuPop(fp: map<Obj, Option<Obj>>, slab: map<int, Slab>, cpu: seq<Cpu>, v: View, objects: nat, c: nat)
    requires ObjectsInv(fp, slab, cpu, v, objects) && c < |cpu| && v.cpu[c] != []
    ensures cpu[c].page.Some? && v.cpu[c][0] in fp && v.cpu[c][0] !in v.out
    ensures var o := v.cpu[c][0];
      ObjectsInv(fp, slab, cpu[c := cpu[c].(freelist := fp[o])],
                 v.(cpu := v.cpu[c := v.cpu[c][1..]], out := v.out + {o}), objects)
  {
    assert CpuOk(fp, slab, cpu, v, c, objects);
    var q, o := v.cpu[c], v.cpu[c][0];
    var cpu', v' := cpu[c := cpu[c].(freelist := fp[o])], v.(cpu := v.cpu[c := q[1..]], out := v.out + {o});
    ChainPop(fp, q);
    assert forall x :: x in q <==> x == o || x in q[1..];
    forall p | p in slab ensures SlabOk(fp, slab, v', p, objects) && Accounted(slab, cpu', v', p, objects) {
      assert SlabOk(fp, slab, v, p, objects) && Accounted(slab, cpu, v, p, objects);
    }
    forall d: nat | d < |cpu| ensures CpuOk(fp, slab, cpu', v', d, objects) {
      assert CpuOk(fp, slab, cpu, v, d, objects);
    }
  }

  /** slab_free, fast path: the object goes to the front of the CPU's list. */
  lemma CpuPush(fp: map<Obj, Option<Obj>>, slab: map<int, Slab>, cpu: seq<Cpu>, v: View, objects: nat, c: nat, o: Obj)
    requires ObjectsInv(fp, slab, cpu, v, objects) && c < |cpu| && o in v.out && cpu[c].page == Some(o.slab)
    ensures
      ObjectsInv(fp[o := cpu[c].freelist], slab, cpu[c := cpu[c].(freelist := Some(o))],
                 v.(cpu := v.cpu[c := [o] + v.cpu[c]], out := v.out - {o}), objects)
  {
    assert CpuOk(fp, slab, cpu, v, c, objects);
    var q, w := v.cpu[c], cpu[c].freelist;
    UserWrite(fp, slab, cpu, v, objects, o, w);
    ChainPush(fp, q, o);
    var fp', cpu', v' := fp[o := w], cpu[c := cpu[c].(freelist := Some(o))],
        v.(cpu := v.cpu[c := [o] + q], out := v.out - {o});
    assert forall x :: x in [o] + q <==> x == o || x in q;
    forall p | p in slab ensures SlabOk(fp', slab, v', p, objects) && Accounted(slab, cpu', v', p, objects) {
      assert SlabOk(fp', slab, v, p, objects) && Accounted(slab, cpu, v, p, objects);
    }
    forall d: nat | d < |cpu| ensures CpuOk(fp', slab, cpu', v', d, objects) {
      assert CpuOk(fp', slab, cpu, v, d, objects);
    }
  }

  /** __slab_free: the object goes to the front of its slab's list. */
  lemma PagePush(fp: map<Obj, Option<Obj>>, slab: map<int, Slab>, cpu: seq<Cpu>, v: View, objects: nat, o: Obj)
    requires ObjectsInv(fp, slab, cpu, v, objects) && o in v.out
    ensures var p := o.slab;
      && p in slab && p in v.page
      && ObjectsInv(fp[o := slab[p].freelist],
                    slab[p := slab[p].(freelist := Some(o), inuse := slab[p].inuse - 1)], cpu,
                    v.(page := v.page[p := [o] + v.page[p]], out := v.out - {o}), objects)
  {
    var p := o.slab;
    assert SlabOk(fp, slab, v, p, objects);
    var q, w := v.page[p], slab[p].freelist;
    UserWrite(fp, slab, cpu, v, objects, o, w);
    ChainPush(fp, q, o);
    var fp', slab' := fp[o := w], slab[p := slab[p].(freelist := Some(o), inuse := slab[p].inuse - 1)];
    var v' := v.(page := v.page[p := [o] + q], out := v.out - {o});
    assert forall x :: x in [o] + q <==> x == o || x in q;
    forall r | r in slab' ensures SlabOk(fp', slab', v', r, objects) && Accounted(slab', cpu, v', r, objects) {
      assert SlabOk(fp', slab, v, r, objects) && Accounted(slab, cpu, v, r, objects);
    }
    forall d: nat | d < |cpu| ensures CpuOk(fp', slab', cpu, v', d, objects) {
      assert CpuOk(fp', slab, cpu, v, d, objects);
    }
  }

  /** load_freelist: the CPU takes over the slab's list; its first object is handed out. */
  lemma PageTake(fp: map<Obj, Option<Obj>>, slab: map<int, Slab>, cpu: seq<Cpu>, v: View, objects: nat, c: nat, p: int)
    requires ObjectsInv(fp, slab, cpu, v, objects) && c < |cpu| && cpu[c].page == Some(p) && v.cpu[c] == []
    requires p in slab && p in v.page && v.page[p] != []
    ensures v.page[p][0] in fp && v.page[p][0] !in v.out && slab[p].freelist == Some(v.page[p][0])
    ensures var q := v.page[p];
      ObjectsInv(fp, slab[p := slab[p].(freelist := None, inuse := objects)], cpu[c := cpu[c].(freelist := fp[q[0]])],
                 v.(page := v.page[p := []], cpu := v.cpu[c := q[1..]], out := v.out + {q[0]}), objects)
  {
    assert CpuOk(fp, slab, cpu, v, c, objects) && SlabOk(fp, slab, v, p, objects);
    var q := v.page[p];
    var slab', cpu' := slab[p := slab[p].(freelist := None, inuse := objects)], cpu[c := cpu[c].(freelist := fp[q[0]])];
    var v' := v.(page := v.page[p := []], cpu := v.cpu[c := q[1..]], out := v.out + {q[0]});
    ChainPop(fp, q);
    assert forall x :: x in q <==> x == q[0] || x in q[1..];
    forall r | r in slab' ensures SlabOk(fp, slab', v', r, objects) && Accounted(slab', cpu', v', r, objects) {
      assert SlabOk(fp, slab, v, r, objects) && Accounted(slab, cpu, v, r, objects);
    }
    forall d: nat | d < |cpu| ensures CpuOk(fp, slab', cpu', v', d, objects) {
      assert CpuOk(fp, slab, cpu, v, d, objects);
      if d != c && cpu[d].page.Some? {
        ListsApart(fp, slab, cpu, v, objects, c, d);
      }
    }
  }

  /** Dropping the CPU slab of a CPU whose list is empty. */
  lemma Unfreeze(fp: map<Obj, Option<Obj>>, slab: map<int, Slab>, cpu: seq<Cpu>, v: View, objects: nat, c: nat, p: int)
    requires ObjectsInv(fp, slab, cpu, v, objects) && c < |cpu| && cpu[c].page == Some(p) && v.cpu[c] == []
    ensures p in slab && ObjectsInv(fp, slab[p := slab[p].(frozen := false)], cpu[c := Cpu(None, None)], v, objects)
  {
    assert CpuOk(fp, slab, cpu, v, c, objects);
    var slab', cpu' := slab[p := slab[p].(frozen := false)], cpu[c := Cpu(None, None)];
    forall r | r in slab' ensures SlabOk(fp, slab', v, r, objects) && Accounted(slab', cpu', v, r, objects) {
      assert SlabOk(fp, slab, v, r, objects) && Accounted(slab, cpu, v, r, objects);
    }
    forall d: nat | d < |cpu| ensures CpuOk(fp, slab', cpu', v, d, objects) {
      assert CpuOk(fp, slab, cpu, v, d, objects);
    }
  }

  /** Making an unfrozen slab the CPU slab of a CPU without one. */
  lemma Freeze(fp: map<Obj, Option<Obj>>, slab: map<int, Slab>, cpu: seq<Cpu>, v: View, objects: nat, c: nat, p: int)
    requires ObjectsInv(fp, slab, cpu, v, objects) && c < |cpu| && cpu[c].page == None && p in slab && !slab[p].frozen
    ensures ObjectsInv(fp, slab[p := slab[p].(frozen := true)], cpu[c := Cpu(Some(p), None)],
                       v.(owner := v.owner[p := c]), objects)
  {
    assert CpuOk(fp, slab, cpu, v, c, objects);
    var slab', cpu', v' := slab[p := slab[p].(frozen := true)], cpu[c := Cpu(Some(p), None)],
        v.(owner := v.owner[p := c]);
    forall r | r in slab' ensures SlabOk(fp, slab', v', r, objects) && Accounted(slab', cpu', v', r, objects) {
      assert SlabOk(fp, slab, v, r, objects) && Accounted(slab, cpu, v, r, objects);
    }
    forall d: nat | d < |cpu| ensures CpuOk(fp, slab', cpu', v', d, objects) {
      assert CpuOk(fp, slab, cpu, v, d, objects);
    }
  }

  /** deactivate_slab, one turn: the first object of the CPU's list goes to the front of the slab's. */
  lemma MoveOne(fp: map<Obj, Option<Obj>>, slab: map<int, Slab>, cpu: seq<Cpu>, v: View, objects: nat, c: nat, p: int)
    requires ObjectsInv(fp, slab, cpu, v, objects) && c < |cpu| && cpu[c].page == Some(p) && v.cpu[c] != []
    ensures p in slab && p in v.page && v.cpu[c][0] in fp && cpu[c].freelist == Some(v.cpu[c][0])
    ensures var o := v.cpu[c][0];
      ObjectsInv(fp[o := slab[p].freelist], slab[p := slab[p].(freelist := Some(o), inuse := slab[p].inuse - 1)],
                 cpu[c := cpu[c].(freelist := fp[o])],
                 v.(page := v.page[p := [o] + v.page[p]], cpu := v.cpu[c := v.cpu[c][1..]]), objects)
  {
    assert CpuOk(fp, slab, cpu, v, c, objects);
    var o := v.cpu[c][0];
    CpuPop(fp, slab, cpu, v, objects, c);
    var cpu1, v1 := cpu[c := cpu[c].(freelist := fp[o])], v.(cpu := v.cpu[c := v.cpu[c][1..]], out := v.out + {o});
    PagePush(fp, slab, cpu1, v1, objects, o);
    assert v1.out - {o} == v.out;
  }

  /** A fully free slab that no CPU holds can go. */
  lemma Discard(fp: map<Obj, Option<Obj>>, slab: map<int, Slab>, cpu: seq<Cpu>, v: View, objects: nat, p: int)
    requires ObjectsInv(fp, slab, cpu, v, objects) && p in slab && !slab[p].frozen && slab[p].inuse == 0
    ensures forall o :: o in v.out ==> o.slab != p
    ensures ObjectsInv(fp, slab - {p}, cpu, v.(page := v.page - {p}), objects)
  {
    assert SlabOk(fp, slab, v, p, objects);
    FullList(v.page[p], p, objects);
    var slab', v' := slab - {p}, v.(page := v.page - {p});
    forall r | r in slab' ensures SlabOk(fp, slab', v', r, objects) && Accounted(slab', cpu, v', r, objects) {
      assert SlabOk(fp, slab, v, r, objects) && Accounted(slab, cpu, v, r, objects);
    }
    forall d: nat | d < |cpu| ensures CpuOk(fp, slab', cpu, v', d, objects) {
      assert CpuOk(fp, slab, cpu, v, d, objects);
    }
  }

  /** A list without duplicates that is as long as the slab has objects holds all of them. */
  lemma FullList(q: seq<Obj>, p: int, n: nat)
    requires NoDup(q) && |q| == n && forall o :: o in q ==> o.slab == p && o.index < n
    ensures forall i: nat :: i < n ==> Obj(p, i) in q
  {
    var all := set i: nat | i < n :: Obj(p, i);
    var got := set o | o in q;
    CountObjs(p, n);
    CountSeq(q);
    assert got <= all && all == got + (all - got);
    assert |all| == |got| + |all - got|;
    forall i: nat | i < n ensures Obj(p, i) in q {
      assert Obj(p, i) in all;
    }
  }

  lemma {:induction false} CountObjs(p: int, n: nat)
    ensures |set i: nat | i < n :: Obj(p, i)| == n
  {
    var s := set i: nat | i < n :: Obj(p, i);
    if n == 0 {
      assert s == {};
    } else {
      CountObjs(p, n - 1);
      assert s == (set i: nat | i < n - 1 :: Obj(p, i)) + {Obj(p, n - 1)};
    }
  }

  lemma {:induction false} CountSeq(q: seq<Obj>)
    requires NoDup(q)
    ensures |set o | o in q| == |q|
  {
    var s := set o | o in q;
    if q == [] {
      assert s == {};
    } else {
      CountSeq(q[1..]);
      assert q[0] !in q[1..];
      assert s == (set o | o in q[1..]) + {q[0]};
    }
  }

  /** The objects of a slab from position i on, in order. */
  function ObjsFrom(p: int, i: nat, n: nat): (q: seq<Obj>)
    requires i <= n
    ensures |q| == n - i && forall j: nat :: j < |q| ==> q[j] == Obj(p, i + j)
    decreases n - i
  {
    if i == n then [] else [Obj(p, i)] + ObjsFrom(p, i + 1, n)
  }

  /** A new slab, all of whose objects are on its list. */
  lemma NewSlab(fp: map<Obj, Option<Obj>>, fp': map<Obj, Option<Obj>>, slab: map<int, Slab>, cpu: seq<Cpu>, v: View,
                objects: nat, p: int)
    requires ObjectsInv(fp, slab, cpu, v, objects) && p !in slab && objects > 0
    requires Chain(fp', ObjsFrom(p, 0, objects))
    requires forall o: Obj :: o.slab != p && o in fp ==> o in fp' && fp'[o] == fp[o]
    ensures
      ObjectsInv(fp', slab[p := Slab(Some(Obj(p, 0)), 0, false)], cpu,
                 v.(page := v.page[p := ObjsFrom(p, 0, objects)]), objects)
  {
    var q := ObjsFrom(p, 0, objects);
    var slab', v' := slab[p := Slab(Some(Obj(p, 0)), 0, false)], v.(page := v.page[p := q]);
    forall r | r in slab' ensures SlabOk(fp', slab', v', r, objects) && Accounted(slab', cpu, v', r, objects) {
      if r == p {
        assert forall i: nat :: i < objects ==> q[i] == Obj(p, i);
      } else {
        assert SlabOk(fp, slab, v, r, objects) && Accounted(slab, cpu, v, r, objects);
      }
    }
    forall d: nat | d < |cpu| ensures CpuOk(fp', slab', cpu, v', d, objects) {
      assert CpuOk(fp, slab, cpu, v, d, objects);
    }
  }

  /** A new slab that becomes the CPU slab of CPU c at once. */
  lemma NewCpuSlab(fp: map<Obj, Option<Obj>>, fp': map<Obj, Option<Obj>>, slab: map<int, Slab>, cpu: seq<Cpu>,
                   v: View, objects: nat, c: nat, p: int)
    requires ObjectsInv(fp, slab, cpu, v, objects) && p !in slab && objects > 0 && c < |cpu| && cpu[c].page.None?
    requires Chain(fp', ObjsFrom(p, 0, objects))
    requires forall o: Obj :: o.slab != p && o in fp ==> o in fp' && fp'[o] == fp[o]
    ensures
      ObjectsInv(fp', slab[p := Slab(Some(Obj(p, 0)), 0, true)], cpu[c := Cpu(Some(p), None)],
                 v.(page := v.page[p := ObjsFrom(p, 0, objects)], owner := v.owner[p := c]), objects)
  {
    var slab1, v1 := slab[p := Slab(Some(Obj(p, 0)), 0, false)], v.(page := v.page[p := ObjsFrom(p, 0, objects)]);
    NewSlab(fp, fp', slab, cpu, v, objects, p);
    FrozenNew(slab, p);
    Freeze(fp', slab1, cpu, v1, objects, c, p);
  }

  lemma FrozenNew(slab: map<int, Slab>, p: int)
    ensures var slab1 := slab[p := Slab(Some(Obj(p, 0)), 0, false)];
      slab1[p := slab1[p].(frozen := true)] == slab[p := Slab(Some(Obj(p, 0)), 0, true)]
  {
  }

  /** `PartialInv`, with slab `p` not on the list. */
  ghost predicate PartialBut(slab: map<int, Slab>, partial: seq<int>, nrPartial: int, v: View, p: int) {
    && NoDup(partial) && nrPartial == |partial| && p !in partial
    && (forall r :: r != p ==> (r in partial <==> r in slab && r in v.page && !slab[r].frozen && v.page[r] != []))
  }

  /** What a freed object means for the partial list. */
  lemma PushPartial(slab: map<int, Slab>, partial: seq<int>, nrPartial: int, v: View, p: int, o: Obj)
    requires PartialInv(slab, partial, nrPartial, v) && p in slab && p in v.page
    requires slab[p].freelist.Some? <==> v.page[p] != []
    ensures var slab' := slab[p := slab[p].(freelist := Some(o), inuse := slab[p].inuse - 1)];
      var v' := v.(page := v.page[p := [o] + v.page[p]], out := v.out - {o});
      if slab[p].frozen || slab[p].freelist.Some? then PartialInv(slab', partial, nrPartial, v')
      else PartialBut(slab', partial, nrPartial, v', p)
  {
  }

  /** The partial list once a slab with that many objects in use is back on its own. */
  function WithSlab(partial: seq<int>, p: int, inuse: int, free: bool): seq<int> {
    if inuse != 0 then (if free then [p] + partial else partial)
    else if |partial| < MIN_PARTIAL then partial + [p] else partial
  }

  /** Slab p, with that many objects in use, has left its CPU: it is unfrozen and on the partial list as
      it should be, or gone; no other slab has changed. */
  ghost predicate LetGo(slab0: map<int, Slab>, slab: map<int, Slab>, partial0: seq<int>, partial: seq<int>, p: int,
                        inuse: int, free: bool) {
    && slab.Keys == slab0.Keys - (if inuse == 0 && |partial0| >= MIN_PARTIAL then {p} else {})
    && partial == WithSlab(partial0, p, inuse, free)
    && (p in slab ==> slab[p].inuse == inuse && slab[p].freelist.Some? == free && !slab[p].frozen)
    && (forall r :: r in slab && r != p ==> r in slab0 && slab[r] == slab0[r])
  }

  lemma LetGoFrom(slab0: map<int, Slab>, slab1: map<int, Slab>, slab: map<int, Slab>, partial0: seq<int>,
                  partial: seq<int>, p: int, inuse: int, free: bool)
    requires p in slab0 && p in slab1 && slab1 == slab0[p := slab1[p]]
    requires LetGo(slab1, slab, partial0, partial, p, inuse, free)
    ensures LetGo(slab0, slab, partial0, partial, p, inuse, free)
  {
  }

  /** What is on the list of a slab is the same in both views, if it is still there. */
  ghost predicate SamePages(page0: map<int, seq<Obj>>, page: map<int, seq<Obj>>, slab: map<int, Slab>) {
    forall r :: r in slab ==> r in page && r in page0 && page[r] == page0[r]
  }

  /** Part of the list of CPU c has been moved to that of its slab p. */
  ghost predicate Merging(c: nat, p: int, slab0: map<int, Slab>, v0: View, slab: map<int, Slab>, v: View) {
    && c < |v0.cpu| && p in slab0 && p in v0.page && c < |v.cpu| && p in slab && p in v.page
    && Rev(v.cpu[c]) + v.page[p] == Rev(v0.cpu[c]) + v0.page[p] && v.page == v0.page[p := v.page[p]]
    && slab == slab0[p := slab[p]] && slab[p].inuse - |v.cpu[c]| == slab0[p].inuse - |v0.cpu[c]|
    && (slab[p].freelist.Some? || v.cpu[c] != [] <==> slab0[p].freelist.Some? || v0.cpu[c] != [])
  }

  /** All of it has. */
  ghost predicate Merged(c: nat, p: int, slab0: map<int, Slab>, v0: View, slab: map<int, Slab>, v: View) {
    && c < |v0.cpu| && p in slab0 && p in v0.page && p in slab && slab == slab0[p := slab[p]]
    && v.page == v0.page[p := Rev(v0.cpu[c]) + v0.page[p]] && slab[p].inuse == slab0[p].inuse - |v0.cpu[c]|
    && (slab[p].freelist.Some? <==> slab0[p].freelist.Some? || v0.cpu[c] != [])
  }

  lemma MergingDone(c: nat, p: int, slab0: map<int, Slab>, v0: View, slab: map<int, Slab>, v: View)
    requires Merging(c, p, slab0, v0, slab, v) && v.cpu[c] == []
    ensures Merged(c, p, slab0, v0, slab, v)
  {
    assert Rev(v.cpu[c]) + v.page[p] == v.page[p];
  }

  lemma MergingOn(c: nat, p: int, slab0: map<int, Slab>, v0: View, slab: map<int, Slab>, v: View)
    requires Merging(c, p, slab0, v0, slab, v) && v.cpu[c] != []
    ensures var o := v.cpu[c][0];
      Merging(c, p, slab0, v0, slab[p := slab[p].(freelist := Some(o), inuse := slab[p].inuse - 1)],
              v.(page := v.page[p := [o] + v.page[p]], cpu := v.cpu[c := v.cpu[c][1..]]))
  {
    assert Rev(v.cpu[c][1..]) + ([v.cpu[c][0]] + v.page[p]) == Rev(v.cpu[c]) + v.page[p];
  }

  ghost predicate FirstUnlocked(q: seq<int>, locked: set<int>, p: int) {
    exists i: nat :: i < |q| && q[i] == p && p !in locked && forall j: nat :: j < i ==> q[j] in locked
  }

  /** The page allocator does not hand out a page that is in use as a slab. */
  ghost predicate OtherPages(alloc: set<int> -> Option<int>) {
    forall used: set<int> :: alloc(used).Some? ==> alloc(used).value !in used
  }

  class KmemCache {
    const objects: nat
    var fp: map<Obj, Option<Obj>>
    var slab: map<int, Slab>
    var partial: seq<int>
    var nrPartial: int
    var nrSlabs: int
    var cpu: seq<Cpu>
    ghost var v: View

    ghost predicate Valid()
      reads this
    {
      && objects > 0 && nrSlabs == |slab|
      && ObjectsInv(fp, slab, cpu, v, objects)
      && PartialInv(slab, partial, nrPartial, v)
    }

    constructor (objects: nat, cpus: nat)
      requires objects > 0
      ensures Valid() && this.objects == objects && |cpu| == cpus && v.out == {} && slab == map[]
    {
      this.objects := objects;
      fp, slab, partial, nrPartial, nrSlabs := map[], map[], [], 0, 0;
      cpu := seq(cpus, _ => Cpu(None, None));
      v := View(map[], seq(cpus, _ => []), map[], {});
    }

    /** The body of discard_slab: only a slab without any object in use gets here. */
    method DiscardSlab(p: int)
      requires objects > 0 && nrSlabs == |slab| && ObjectsInv(fp, slab, cpu, v, objects)
      requires p in slab && !slab[p].frozen && slab[p].inuse == 0 && PartialBut(slab, partial, nrPartial, v, p)
      modifies this`slab, this`nrSlabs, this`v
      ensures Valid() && slab == old(slab) - {p} && v == old(v).(page := old(v).page - {p})
      ensures forall o :: o in v.out ==> o.slab != p
    {
      Discard(fp, slab, cpu, v, objects, p);
      assert |slab| == |slab - {p}| + 1 by {
        assert slab.Keys == (slab - {p}).Keys + {p};
        assert |slab.Keys| == |(slab - {p}).Keys| + 1;
      }
      nrSlabs := nrSlabs - 1;
      slab := slab - {p};
      v := v.(page := v.page - {p});
    }

    method AddPartial(p: int, tail: bool)
      requires objects > 0 && nrSlabs == |slab| && ObjectsInv(fp, slab, cpu, v, objects)
      requires p in slab && p in v.page && !slab[p].frozen
      requires v.page[p] != [] && PartialBut(slab, partial, nrPartial, v, p)
      modifies this`partial, this`nrPartial
      ensures Valid() && partial == if tail then old(partial) + [p] else [p] + old(partial)
    {
      nrPartial := nrPartial + 1;
      partial := if tail then partial + [p] else [p] + partial;
    }

    /** unfreeze_slab: back to the partial list, or away if entirely free and enough such slabs are kept. */
    method UnfreezeSlab(p: int)
      requires objects > 0 && nrSlabs == |slab| && ObjectsInv(fp, slab, cpu, v, objects)
      requires p in slab && !slab[p].frozen && PartialBut(slab, partial, nrPartial, v, p)
      modifies this`partial, this`nrPartial, this`slab, this`nrSlabs, this`v
      ensures Valid() && v.out == old(v).out && v.cpu == old(v).cpu
      ensures slab == if old(slab)[p].inuse == 0 && |old(partial)| >= MIN_PARTIAL then old(slab) - {p} else old(slab)
      ensures partial == WithSlab(old(partial), p, old(slab)[p].inuse, old(slab)[p].freelist.Some?)
      ensures SamePages(old(v).page, v.page, slab)
    {
      assert forall r :: r in slab ==> SlabOk(fp, slab, v, r, objects);
      assert SlabOk(fp, slab, v, p, objects);
      if slab[p].inuse != 0 {
        if slab[p].freelist.Some? {
          AddPartial(p, false);
        }
      } else if nrPartial < MIN_PARTIAL {
        AddPartial(p, true);
      } else {
        DiscardSlab(p);
      }
    }

    /** One turn of the merge loop of deactivate_slab. */
    method MoveFirst(c: nat, p: int)
      requires Valid() && c < |cpu| && cpu[c].page == Some(p) && cpu[c].freelist.Some?
      modifies this`fp, this`cpu, this`slab, this`v
      ensures Valid() && |cpu| == |old(cpu)| && cpu == old(cpu)[c := cpu[c]] && cpu[c].page == Some(p)
      ensures v.out == old(v).out && c < |old(v).cpu|
      ensures p in old(slab) && p in old(v).page && old(v).cpu[c] != []
      ensures old(cpu)[c].freelist == Some(old(v).cpu[c][0])
      ensures var o := old(v).cpu[c][0];
        && slab == old(slab)[p := old(slab)[p].(freelist := Some(o), inuse := old(slab)[p].inuse - 1)]
        && v == old(v).(page := old(v).page[p := [o] + old(v).page[p]], cpu := old(v).cpu[c := old(v).cpu[c][1..]])
    {
      assert CpuOk(fp, slab, cpu, v, c, objects);
      MoveOne(fp, slab, cpu, v, objects, c, p);
      var obj := cpu[c].freelist.value;
      cpu := cpu[c := cpu[c].(freelist := fp[obj])];
      fp := fp[obj := slab[p].freelist];
      slab := slab[p := slab[p].(freelist := Some(obj), inuse := slab[p].inuse - 1)];
      v := v.(page := v.page[p := [obj] + v.page[p]], cpu := v.cpu[c := v.cpu[c][1..]]);
    }

    /** The end of deactivate_slab: the CPU lets go of a slab whose CPU list is empty. */
    method DropCpuSlab(c: nat, p: int)
      requires Valid() && c < |cpu| && cpu[c] == Cpu(Some(p), None)
      modifies this
      ensures Valid() && cpu == old(cpu)[c := Cpu(None, None)] && v.out == old(v).out && p in old(slab)
      ensures LetGo(old(slab), slab, old(partial), partial, p, old(slab)[p].inuse, old(slab)[p].freelist.Some?)
      ensures SamePages(old(v).page, v.page, slab)
    {
      assert CpuOk(fp, slab, cpu, v, c, objects);
      Unfreeze(fp, slab, cpu, v, objects, c, p);
      cpu := cpu[c := Cpu(None, None)];
      slab := slab[p := slab[p].(frozen := false)];
      UnfreezeSlab(p);
    }

    /** The loop of deactivate_slab. */
    method MergeLists(c: nat, p: int)
      requires Valid() && c < |cpu| && cpu[c].page == Some(p)
      modifies this`fp, this`cpu, this`slab, this`v
      ensures Valid() && cpu == old(cpu)[c := Cpu(Some(p), None)] && v.out == old(v).out && v.cpu[c] == []
      ensures Merged(c, p, old(slab), old(v), slab, v)
    {
      assert CpuOk(fp, slab, cpu, v, c, objects);
      while cpu[c].freelist.Some?
        invariant Valid() && |cpu| == |old(cpu)| && cpu[c].page == Some(p) && v.out == old(v).out
        invariant cpu == old(cpu)[c := cpu[c]] && |v.cpu| == |cpu| && Merging(c, p, old(slab), old(v), slab, v)
        decreases |v.cpu[c]|
      {
        assert CpuOk(fp, slab, cpu, v, c, objects);
        MergingOn(c, p, old(slab), old(v), slab, v);
        MoveFirst(c, p);
      }
      assert CpuOk(fp, slab, cpu, v, c, objects);
      MergingDone(c, p, old(slab), old(v), slab, v);
    }

    /** deactivate_slab: merge the CPU's list into the slab's, then let the slab go. */
    method DeactivateSlab(c: nat)
      requires Valid() && c < |cpu| && cpu[c].page.Some?
      modifies this
      ensures Valid() && cpu == old(cpu)[c := Cpu(None, None)] && v.out == old(v).out
      ensures var p := old(cpu)[c].page.value;
        && p in old(slab) && p in old(v).page && c < |old(v).cpu|
        && SamePages(old(v).page[p := Rev(old(v).cpu[c]) + old(v).page[p]], v.page, slab)
        && LetGo(old(slab), slab, old(partial), partial, p,
                 old(slab)[p].inuse - |old(v).cpu[c]|, old(slab)[p].freelist.Some? || old(v).cpu[c] != [])
    {
      var p := cpu[c].page.value;
      MergeLists(c, p);
      ghost var slab1 := slab;
      DropCpuSlab(c, p);
      LetGoFrom(old(slab), slab1, slab, old(partial), partial, p, slab1[p].inuse, slab1[p].freelist.Some?);
    }

    /** load_freelist: take over the slab's list, hand out its first object. */
    method LoadFreelist(c: nat, p: int) returns (obj: Obj)
      requires Valid() && c < |cpu| && cpu[c] == Cpu(Some(p), None)
      requires p in slab && slab[p].freelist.Some?
      modifies this`cpu, this`slab, this`v
      ensures Valid() && obj !in old(v).out && v.out == old(v).out + {obj} && obj.slab == p
      ensures |cpu| == |old(cpu)| && cpu == old(cpu)[c := cpu[c]] && cpu[c].page == Some(p)
      ensures Some(obj) == old(slab)[p].freelist
      ensures slab == old(slab)[p := old(slab)[p].(freelist := None, inuse := objects)]
      ensures c < |v.cpu| && p in old(v).page && [obj] + v.cpu[c] == old(v).page[p]
    {
      assert CpuOk(fp, slab, cpu, v, c, objects) && SlabOk(fp, slab, v, p, objects);
      PageTake(fp, slab, cpu, v, objects, c, p);
      obj := slab[p].freelist.value;
      cpu := cpu[c := cpu[c].(freelist := fp[obj])];
      slab := slab[p := slab[p].(freelist := None, inuse := objects)];
      v := v.(page := v.page[p := []], cpu := v.cpu[c := v.page[p][1..]], out := v.out + {obj});
    }

    /** get_partial_node: the first partial slab that nobody has locked leaves the list, frozen. */
    method GetPartial(c: nat, locked: set<int>) returns (r: Option<int>)
      requires Valid() && c < |cpu| && cpu[c].page.None?
      modifies this
      ensures Valid() && v.out == old(v).out
      ensures r.None? <==> forall p :: p in old(partial) ==> p in locked
      ensures r.None? ==> cpu == old(cpu) && slab == old(slab) && partial == old(partial) && v == old(v)
      ensures r.Some? ==> r.value in old(slab) && old(slab)[r.value].freelist.Some?
      ensures r.Some? ==> cpu == old(cpu)[c := Cpu(r, None)] && partial == Without(old(partial), r.value)
      ensures r.Some? ==> slab == old(slab)[r.value := old(slab)[r.value].(frozen := true)]
      ensures r.Some? ==> FirstUnlocked(old(partial), locked, r.value)
      ensures nrSlabs == old(nrSlabs)
    {
      var i := 0;
      while i < |partial|
        invariant Valid() && i <= |partial| && partial == old(partial)
        invariant v == old(v) && cpu == old(cpu) && slab == old(slab)
        invariant nrSlabs == old(nrSlabs)
        invariant forall j: nat :: j < i ==> partial[j] in locked
      {
        if partial[i] !in locked {
          var p := partial[i];
          TakePartial(c, p);
          return Some(p);
        }
        i := i + 1;
      }
      r := None;
    }

    /** lock_and_freeze_slab, and the slab becomes the CPU's. */
    method TakePartial(c: nat, p: int)
      requires Valid() && c < |cpu| && cpu[c].page.None? && p in partial
      modifies this
      ensures Valid() && v.out == old(v).out && p in old(slab)
      ensures old(slab)[p].freelist.Some? && cpu == old(cpu)[c := Cpu(Some(p), None)]
      ensures partial == Without(old(partial), p) && nrSlabs == old(nrSlabs)
      ensures slab == old(slab)[p := old(slab)[p].(frozen := true)]
    {
      assert SlabOk(fp, slab, v, p, objects);
      assert CpuOk(fp, slab, cpu, v, c, objects);
      Freeze(fp, slab, cpu, v, objects, c, p);
      WithoutProps(partial, p);
      partial := Without(partial, p);
      nrPartial := nrPartial - 1;
      slab := slab[p := slab[p].(frozen := true)];
      cpu := cpu[c := Cpu(Some(p), None)];
      v := v.(owner := v.owner[p := c]);
    }
  
    /**
     The object loop of new_slab: each object's free pointer is set to the object visited
     next, the first one's twice, and the last one's to NULL.
     */
    method LinkObjects(p: int)
      requires objects > 0
      modifies this`fp
      ensures Chain(fp, ObjsFrom(p, 0, objects))
      ensures forall o: Obj :: o.slab != p && o in old(fp) ==> o in fp && fp[o] == old(fp)[o]
    {
      var last, i := Obj(p, 0), 0;
      while i < objects
        invariant 0 <= i <= objects && last == Obj(p, if i == 0 then 0 else i - 1)
        invariant forall j: nat :: j + 1 < i ==> Obj(p, j) in fp && fp[Obj(p, j)] == Some(Obj(p, j + 1))
        invariant forall o: Obj :: o.slab != p && o in old(fp) ==> o in fp && fp[o] == old(fp)[o]
      {
        fp := fp[last := Some(Obj(p, i))];
        last := Obj(p, i);
        i := i + 1;
      }
      fp := fp[last := None];
      var q := ObjsFrom(p, 0, objects);
      forall j: nat | j < |q| ensures q[j] in fp && fp[q[j]] == First(q[j + 1..]) {
        assert j + 1 < |q| ==> q[j + 1..][0] == q[j + 1];
      }
    }

    /** new_slab on a page from the page allocator, made the CPU slab of CPU c. */
    method InstallNewSlab(c: nat, p: int)
      requires Valid() && c < |cpu| && cpu[c].page.None? && p !in slab
      modifies this
      ensures Valid() && v.out == old(v).out && cpu == old(cpu)[c := Cpu(Some(p), None)]
      ensures slab == old(slab)[p := Slab(Some(Obj(p, 0)), 0, true)] && nrSlabs == old(nrSlabs) + 1
      ensures partial == old(partial)
    {
      ghost var fp0 := fp;
      LinkObjects(p);
      NewCpuSlab(fp0, fp, slab, cpu, v, objects, c, p);
      assert slab[p := Slab(Some(Obj(p, 0)), 0, true)].Keys == slab.Keys + {p};
      nrSlabs := nrSlabs + 1;
      slab := slab[p := Slab(Some(Obj(p, 0)), 0, true)];
      cpu := cpu[c := Cpu(Some(p), None)];
      v := v.(page := v.page[p := ObjsFrom(p, 0, objects)], owner := v.owner[p := c]);
    }

    /** CPU c has no slab, or none with objects on the slab's own list. */
    ghost predicate OwnSlabEmpty(c: nat)
      requires c < |cpu|
      reads this
    {
      cpu[c].page.Some? && cpu[c].page.value in slab ==> slab[cpu[c].page.value].freelist.None?
    }

    /** The CPU gives up a slab it has used up: nothing changes but that it is no longer frozen. */
    method GiveUpSlab(c: nat)
      requires Valid() && c < |cpu| && cpu[c].freelist.None? && OwnSlabEmpty(c)
      modifies this
      ensures Valid() && cpu == old(cpu)[c := Cpu(None, None)] && v.out == old(v).out && partial == old(partial)
      ensures slab.Keys == old(slab).Keys
      ensures forall p :: p in partial ==> p in old(slab) && slab[p] == old(slab)[p]
    {
      assert CpuOk(fp, slab, cpu, v, c, objects);
      if cpu[c].page.Some? {
        assert SlabOk(fp, slab, v, cpu[c].page.value, objects);
        DeactivateSlab(c);
      }
    }

    /**
     __slab_alloc.  `alloc` is what the page allocator returns when it is asked, given the pages
     that are slabs of this cache then; `after` is the CPU the caller is on once it has; `locked`
     the slabs whose lock `get_partial` finds taken.  The object is the first on the list of the
     CPU's own slab; else of the first partial slab that nobody has locked; else of a new slab.
     */
    method SlabAllocSlow(c: nat, locked: set<int>, alloc: set<int> -> Option<int>,
                         after: nat) returns (obj: Option<Obj>)
      requires Valid() && c < |cpu| && after < |cpu| && cpu[c].freelist.None? && OtherPages(alloc)
      modifies this
      ensures Valid() && |cpu| == |old(cpu)|
      ensures obj.Some? ==> obj.value !in old(v).out && v.out == old(v).out + {obj.value}
      ensures obj.None? ==> v.out == old(v).out
      ensures !old(OwnSlabEmpty(c)) ==> obj == old(slab[cpu[c].page.value].freelist)
      ensures !old(OwnSlabEmpty(c)) ==> slab.Keys == old(slab).Keys && partial == old(partial)
      ensures old(OwnSlabEmpty(c)) ==> FromPartialOrNew(obj, old(slab), old(partial), locked, alloc)
    {
      assert CpuOk(fp, slab, cpu, v, c, objects);
      if cpu[c].page.Some? && slab[cpu[c].page.value].freelist.Some? {
        var o := LoadFreelist(c, cpu[c].page.value);
        return Some(o);
      }
      GiveUpSlab(c);
      obj := AllocFromPartial(c, locked);
      if obj.Some? {
        return;
      }
      var newPage := alloc(slab.Keys);
      if newPage.None? {
        return None;
      }
      var o := AllocNewSlab(after, newPage.value);
      obj := Some(o);
    }

    /** The first object of the first partial slab that nobody has locked. */
    method AllocFromPartial(c: nat, locked: set<int>) returns (obj: Option<Obj>)
      requires Valid() && c < |cpu| && cpu[c].page.None?
      modifies this
      ensures Valid() && |cpu| == |old(cpu)| && slab.Keys == old(slab).Keys
      ensures obj.None? <==> forall p :: p in old(partial) ==> p in locked
      ensures obj.None? ==> v.out == old(v).out && cpu == old(cpu) && slab == old(slab) && partial == old(partial)
      ensures obj.Some? ==> obj.value !in old(v).out && v.out == old(v).out + {obj.value}
      ensures obj.Some? ==> FirstUnlocked(old(partial), locked, obj.value.slab) && obj.value.slab in old(slab)
      ensures obj.Some? ==> obj == old(slab)[obj.value.slab].freelist
      ensures obj.Some? ==> partial == Without(old(partial), obj.value.slab)
    {
      var got := GetPartial(c, locked);
      if got.None? {
        return None;
      }
      var o := LoadFreelist(c, got.value);
      obj := Some(o);
    }

    method FlushSlab(c: nat)
      requires Valid() && c < |cpu|
      modifies this
      ensures Valid() && cpu == old(cpu)[c := Cpu(None, None)] && v.out == old(v).out && slab.Keys <= old(slab).Keys
    {
      assert CpuOk(fp, slab, cpu, v, c, objects);
      if cpu[c].page.Some? {
        DeactivateSlab(c);
      }
    }

    /** A new slab for the CPU that the caller is on, whose slab until then is flushed. */
    method AllocNewSlab(c: nat, p: int) returns (obj: Obj)
      requires Valid() && c < |cpu| && p !in slab
      modifies this
      ensures Valid() && |cpu| == |old(cpu)| && obj == Obj(p, 0) && obj !in old(v).out && v.out == old(v).out + {obj}
      ensures cpu == old(cpu)[c := cpu[c]] && cpu[c].page == Some(p) && p in slab && slab.Keys <= old(slab).Keys + {p}
    {
      FlushSlab(c);
      InstallNewSlab(c, p);
      obj := LoadFreelist(c, p);
    }

    /** Where the object of a CPU without one comes from, and when there is none. */
    ghost predicate FromPartialOrNew(obj: Option<Obj>, slab0: map<int, Slab>, partial0: seq<int>, locked: set<int>,
                                     alloc: set<int> -> Option<int>)
      reads this
    {
      if exists p :: p in partial0 && p !in locked then
        && obj.Some? && FirstUnlocked(partial0, locked, obj.value.slab)
        && obj.value.slab in slab0 && obj == slab0[obj.value.slab].freelist
        && slab.Keys == slab0.Keys && partial == Without(partial0, obj.value.slab)
      else if alloc(slab0.Keys).Some? then obj == Some(Obj(alloc(slab0.Keys).value, 0)) && obj.value.slab in slab
      else obj == None && slab.Keys == slab0.Keys && partial == partial0
    }

    /** slab_alloc: an object nobody holds, from the CPU's own list if there is one, or as above; NULL
        exactly if there is none in the CPU's slab, every partial slab is locked by somebody, and the
        page allocator has no page. */
    method SlabAlloc(c: nat, locked: set<int>, alloc: set<int> -> Option<int>, after: nat) returns (obj: Option<Obj>)
      requires Valid() && c < |cpu| && after < |cpu| && OtherPages(alloc)
      modifies this
      ensures Valid() && |cpu| == |old(cpu)|
      ensures obj.Some? ==> obj.value !in old(v).out && v.out == old(v).out + {obj.value}
      ensures obj.None? ==> v.out == old(v).out
      ensures obj.None? <==>
        && old(cpu)[c].freelist.None? && old(OwnSlabEmpty(c))
        && (forall p :: p in old(partial) ==> p in locked) && alloc(old(slab).Keys).None?
      ensures old(cpu)[c].freelist.Some? ==> obj == old(cpu)[c].freelist && slab == old(slab) && partial == old(partial)
      ensures old(cpu)[c].freelist.None? && !old(OwnSlabEmpty(c)) ==> obj == old(slab[cpu[c].page.value].freelist)
      ensures old(cpu)[c].freelist.None? && old(OwnSlabEmpty(c)) ==>
        FromPartialOrNew(obj, old(slab), old(partial), locked, alloc)
    {
      assert CpuOk(fp, slab, cpu, v, c, objects);
      if cpu[c].freelist.None? {
        obj := SlabAllocSlow(c, locked, alloc, after);
      } else {
        CpuPop(fp, slab, cpu, v, objects, c);
        obj := cpu[c].freelist;
        cpu := cpu[c := cpu[c].(freelist := fp[obj.value])];
        v := v.(cpu := v.cpu[c := v.cpu[c][1..]], out := v.out + {obj.value});
      }
    }

    /** The object is back on its slab's list.  The slab has joined the partial list if it was full, or
        left it and gone if this was its last object in use and no CPU has it. */
    ghost predicate BackInSlab(obj: Obj, slab0: map<int, Slab>, partial0: seq<int>)
      requires obj.slab in slab0
      reads this
    {
      var p, was := obj.slab, slab0[obj.slab];
      if !was.frozen && was.inuse == 1 then slab == slab0 - {p} && partial == Without(partial0, p)
      else
        && slab == slab0[p := was.(freelist := Some(obj), inuse := was.inuse - 1)]
        && partial == if was.frozen || was.freelist.Some? then partial0 else partial0 + [p]
    }

    /** __slab_free: onto the slab's list; the slab joins the partial list, or is discarded once empty. */
    method SlabFreeSlow(obj: Obj)
      requires Valid() && obj in v.out
      modifies this
      ensures Valid() && v.out == old(v).out - {obj} && cpu == old(cpu)
      ensures obj.slab in old(slab)
      ensures BackInSlab(obj, old(slab), old(partial))
    {
      var p := obj.slab;
      var prior := PushObject(obj);
      if slab[p].frozen {
        return;
      }
      if slab[p].inuse != 0 {
        if prior.None? {
          AddPartial(p, true);
        }
        return;
      }
      DiscardEmpty(p, prior.Some?);
    }

    /** The end of __slab_free for a slab with nothing in use: off the partial list, and away. */
    method DiscardEmpty(p: int, listed: bool)
      requires objects > 0 && nrSlabs == |slab| && ObjectsInv(fp, slab, cpu, v, objects)
      requires p in slab && p in v.page && v.page[p] != [] && !slab[p].frozen && slab[p].inuse == 0
      requires if listed then PartialInv(slab, partial, nrPartial, v) else PartialBut(slab, partial, nrPartial, v, p)
      modifies this`partial, this`nrPartial, this`slab, this`nrSlabs, this`v
      ensures Valid() && slab == old(slab) - {p} && partial == Without(old(partial), p) && v.out == old(v).out
    {
      WithoutProps(partial, p);
      if listed {
        RemovePartial(p);
      }
      DiscardSlab(p);
    }

    /** The object becomes the head of its slab's free list.  The slab is then on the partial list
        if it was on it, which `prior` tells for a slab that is not frozen. */
    method PushObject(obj: Obj) returns (prior: Option<Obj>)
      requires Valid() && obj in v.out
      modifies this`fp, this`slab, this`v
      ensures nrSlabs == |slab| && ObjectsInv(fp, slab, cpu, v, objects)
      ensures v.out == old(v).out - {obj} && v.cpu == old(v).cpu
      ensures var p := obj.slab;
        && p in old(slab) && prior == old(slab)[p].freelist && p in v.page && v.page[p] != []
        && slab == old(slab)[p := old(slab)[p].(freelist := Some(obj), inuse := old(slab)[p].inuse - 1)]
        && (if slab[p].frozen || prior.Some? then PartialInv(slab, partial, nrPartial, v)
            else PartialBut(slab, partial, nrPartial, v, p))
    {
      var p := obj.slab;
      assert SlabOk(fp, slab, v, p, objects);
      PagePush(fp, slab, cpu, v, objects, obj);
      PushPartial(slab, partial, nrPartial, v, p, obj);
      prior := slab[p].freelist;
      fp := fp[obj := prior];
      slab := slab[p := slab[p].(freelist := Some(obj), inuse := slab[p].inuse - 1)];
      v := v.(page := v.page[p := [obj] + v.page[p]], out := v.out - {obj});
    }

    method RemovePartial(p: int)
      requires p in partial && PartialInv(slab, partial, nrPartial, v)
      modifies this`partial, this`nrPartial
      ensures PartialBut(slab, partial, nrPartial, v, p) && partial == Without(old(partial), p)
    {
      WithoutProps(partial, p);
      partial := Without(partial, p);
      nrPartial := nrPartial - 1;
    }

    /** slab_free: to the CPU's own list if the object is from its CPU slab, else the slow path. */
    method SlabFree(c: nat, obj: Obj)
      requires Valid() && c < |cpu| && obj in v.out
      modifies this
      ensures Valid() && v.out == old(v).out - {obj} && |cpu| == |old(cpu)|
      ensures old(cpu)[c].page == Some(obj.slab) ==> slab == old(slab) && partial == old(partial)
      ensures old(cpu)[c].page == Some(obj.slab) ==> cpu == old(cpu)[c := Cpu(Some(obj.slab), Some(obj))]
      ensures old(cpu)[c].page != Some(obj.slab) ==>
        cpu == old(cpu) && obj.slab in old(slab) && BackInSlab(obj, old(slab), old(partial))
    {
      if cpu[c].page == Some(obj.slab) {
        CpuPush(fp, slab, cpu, v, objects, c, obj);
        fp := fp[obj := cpu[c].freelist];
        v := v.(cpu := v.cpu[c := [obj] + v.cpu[c]], out := v.out - {obj});
        cpu := cpu[c := cpu[c].(freelist := Some(obj))];
      } else {
        SlabFreeSlow(obj);
      }
    }

    /** The holder of an object may write anything into it. */
    method Scribble(obj: Obj, w: Option<Obj>)
      requires Valid() && obj in v.out
      modifies this`fp
      ensures Valid() && fp == old(fp)[obj := w]
    {
      UserWrite(fp, slab, cpu, v, objects, obj, w);
      fp := fp[obj := w];
    }
  }
}
