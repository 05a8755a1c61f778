// How many blocks are free, and how many a write has to allocate: what decides whether balloc panics
// in the middle of a write (fs.c).
module FreeSpace {
  import opened Volume

  // Blocks below n that the bitmap marks free.
  ghost function FreeCount(bmap: seq<Bits>, n: nat): nat {
    if n == 0 then 0 else FreeCount(bmap, n - 1) + if Bit(bmap, n - 1) then 0 else 1
  }

  lemma {:induction false} FreeCountFull(bmap: seq<Bits>, n: nat)
    ensures FreeCount(bmap, n) == 0 <==> forall c :: 0 <= c < n ==> Bit(bmap, c)
  {
    if n > 0 {
      FreeCountFull(bmap, n - 1);
      if FreeCount(bmap, n) == 0 {
        forall c | 0 <= c < n ensures Bit(bmap, c) {
          if c < n - 1 { assert Bit(bmap, c); }
        }
      }
    }
  }

  // Marking a free block takes it from the count.
  lemma {:induction false} FreeCountSet(bmap: seq<Bits>, b: int, n: nat)
    requires 0 <= b / 8 < |bmap| && 0 <= b && !Bit(bmap, b)
    ensures FreeCount(SetBit(bmap, b), n) == FreeCount(bmap, n) - if b < n then 1 else 0
  {
    hide Bit, SetBit;
    if n > 0 {
      FreeCountSet(bmap, b, n - 1);
      SetBitAt(bmap, b, n - 1);
    }
  }

  // ---- Blocks a write needs ----

  // Slot k leads to one of the data blocks lo to hi.
  predicate Serves(k: int, lo: int, hi: int) {
    if k < NDIRECT then lo <= k <= hi else if k == NDIRECT then lo <= hi && NDIRECT <= hi else lo <= k - 1 <= hi
  }

  // The data blocks lo to hi that file i does not have.
  ghost function Missing(g: Layout, v: Vol, i: int, lo: int, hi: int): nat
    requires Shape(g, v) && 0 <= i < |v.inodes| && 0 <= lo && hi < MAXFILE
    decreases hi - lo
  {
    if hi < lo then 0 else Missing(g, v, i, lo, hi - 1) + if Slot(g, v, i, DataSlot(hi)) == 0 then 1 else 0
  }

  // Blocks to allocate before blocks lo to hi can be written: those missing, and the indirect block.
  ghost function Need(g: Layout, v: Vol, i: int, lo: int, hi: int): nat
    requires Shape(g, v) && 0 <= i < |v.inodes| && 0 <= lo && hi < MAXFILE
  {
    Missing(g, v, i, lo, hi) + if Serves(NDIRECT, lo, hi) && Slot(g, v, i, NDIRECT) == 0 then 1 else 0
  }

  // Blocks to allocate for a write of n bytes at off.
  ghost function NeedFor(g: Layout, v: Vol, i: int, off: int, n: int): nat
    requires Shape(g, v) && 0 <= i < |v.inodes| && 0 <= off && off + n <= MAXFILE * BSIZE
  {
    if n <= 0 then 0 else Need(g, v, i, off / BSIZE, (off + n - 1) / BSIZE)
  }

  // From v to w file i got the blocks lo to hi that it lacked, and no other slot of it changed.
  ghost predicate Filled(g: Layout, v: Vol, w: Vol, i: int, lo: int, hi: int) {
    && Shape(g, v) && Shape(g, w) && 0 <= i < |v.inodes| == |w.inodes|
    && forall k :: 0 <= k < NSLOTS ==>
         && (Slot(g, v, i, k) == 0 && Serves(k, lo, hi) ==> Slot(g, w, i, k) != 0)
         && (Slot(g, v, i, k) != 0 || !Serves(k, lo, hi) ==> Slot(g, w, i, k) == Slot(g, v, i, k))
  }

  // Filling a range and then the next one, which may start with the last block again.
  lemma FilledMore(g: Layout, u: Vol, v: Vol, w: Vol, i: int, lo: int, e: int, lo': int, hi: int)
    requires Filled(g, u, v, i, lo, e) && Filled(g, v, w, i, lo', hi) && lo <= lo' <= e + 1 && e <= hi
    ensures Filled(g, u, w, i, lo, hi)
  {
    hide Slot, Shape;
    forall k | 0 <= k < NSLOTS
      ensures (Slot(g, u, i, k) == 0 && Serves(k, lo, hi) ==> Slot(g, w, i, k) != 0)
           && (Slot(g, u, i, k) != 0 || !Serves(k, lo, hi) ==> Slot(g, w, i, k) == Slot(g, u, i, k))
    {
      assert Slot(g, v, i, k) == 0 ==> Slot(g, u, i, k) == 0 && !Serves(k, lo, e);
    }
  }

  lemma FilledSame(g: Layout, u: Vol, v: Vol, w: Vol, i: int, lo: int, hi: int)
    requires Filled(g, u, v, i, lo, hi) && SameSlots(g, v, w)
    ensures Filled(g, u, w, i, lo, hi)
  {
    hide Slot, Shape;
    assert forall k :: 0 <= k < NSLOTS ==> Slot(g, w, i, k) == Slot(g, v, i, k);
  }

  lemma {:induction false} NeedGrows(g: Layout, v: Vol, i: int, lo: int, mid: int, hi: int)
    requires Shape(g, v) && 0 <= i < |v.inodes| && 0 <= lo && mid <= hi < MAXFILE
    ensures Need(g, v, i, lo, mid) <= Need(g, v, i, lo, hi)
    decreases hi - mid
  {
    if mid < hi {
      NeedGrows(g, v, i, lo, mid, hi - 1);
    }
  }

  lemma {:induction false} MissingMore(g: Layout, v: Vol, u: Vol, i: int, lo: int, e: int, lo': int, hi: int)
    requires Filled(g, v, u, i, lo, e) && 0 <= lo <= lo' && e <= lo' <= e + 1 && e <= hi < MAXFILE
    ensures Missing(g, v, i, lo, hi) == Missing(g, v, i, lo, e) + Missing(g, u, i, lo', hi)
    decreases hi - e
  {
    hide Slot, Shape;
    if e < hi {
      MissingMore(g, v, u, i, lo, e, lo', hi - 1);
      assert Slot(g, u, i, DataSlot(hi)) == Slot(g, v, i, DataSlot(hi));
    } else if lo' == e {
      assert Serves(DataSlot(e), lo, e) && Slot(g, u, i, DataSlot(e)) != 0;
      assert Missing(g, u, i, e, e - 1) == 0;
    }
  }

  // Once blocks lo to e are there, what is left to allocate is what the rest of the range lacks.
  lemma NeedMore(g: Layout, v: Vol, u: Vol, i: int, lo: int, e: int, lo': int, hi: int)
    requires Filled(g, v, u, i, lo, e) && 0 <= lo <= lo' && e <= lo' <= e + 1 && e <= hi < MAXFILE
    ensures Need(g, v, i, lo, hi) == Need(g, v, i, lo, e) + Need(g, u, i, lo', hi)
  {
    hide Slot, Shape, Missing;
    MissingMore(g, v, u, i, lo, e, lo', hi);
    assert Serves(NDIRECT, lo, e) ==> Slot(g, u, i, NDIRECT) != 0;
    assert !Serves(NDIRECT, lo, e) ==> Slot(g, u, i, NDIRECT) == Slot(g, v, i, NDIRECT);
  }

  // One block needs itself and, past the direct ones, the indirect block.
  lemma NeedOne(g: Layout, v: Vol, i: int, bn: int)
    requires Shape(g, v) && 0 <= i < |v.inodes| && 0 <= bn < MAXFILE
    ensures Need(g, v, i, bn, bn) == (if Slot(g, v, i, DataSlot(bn)) == 0 then 1 else 0)
                                   + if bn >= NDIRECT && Slot(g, v, i, NDIRECT) == 0 then 1 else 0
  {
    hide Slot, Shape;
    assert Missing(g, v, i, bn, bn - 1) == 0;
  }

  // A file without holes needs no block below its size.
  lemma {:induction false} NeedNone(g: Layout, v: Vol, i: int, lo: int, hi: int)
    requires Shape(g, v) && 0 <= i < |v.inodes| && 0 <= lo && hi < MAXFILE
    requires forall bn :: lo <= bn <= hi ==> MappedBlock(g, v, i, bn)
    ensures Need(g, v, i, lo, hi) == 0
    decreases hi - lo
  {
    if lo <= hi {
      NeedNone(g, v, i, lo, hi - 1);
      assert MappedBlock(g, v, i, hi);
    }
  }
}
