// Block allocation, the block map, and reading and writing files (fs.c).
//
// The object holds the disk blocks, the free bitmap, the in-memory inodes and the inodes as
// last copied to disk by iupdate.  `owner` says which slot of which inode names each block in
// use; `logged` collects the block numbers passed to log_write.  Buffers, locks and the log
// itself are the business of other modules.
module Files {
  import opened Volume
  import opened FreeSpace
  import opened Sequences

  const BPB: int := 8 * BSIZE            // bitmap bits per block
  const IPB: int := 8                    // inodes per block
  const T_DEV: int := 3
  const UINT: int := 0x1_0000_0000

  // OutOfBlocks is balloc's panic.  log_write's own panic, on a transaction that outgrows the log, is not a result
  // here: what a write lists is bounded from both sides, and GroupCommit says when the list is too long.
  datatype IoResult = Done(n: int) | Refused | ToDevice | OutOfBlocks

  // Slots that named a block still name it.
  ghost predicate SlotsGrow(g: Layout, v: Vol, w: Vol, i: int) {
    && Shape(g, v) && Shape(g, w) && |v.inodes| == |w.inodes| && 0 <= i < |v.inodes|
    && forall k :: 0 <= k < NSLOTS && Slot(g, v, i, k) != 0 ==> Slot(g, w, i, k) == Slot(g, v, i, k)
  }

  // The slots of every other inode name what they named.
  ghost predicate OtherSlots(g: Layout, v: Vol, w: Vol, i: int) {
    && Shape(g, v) && Shape(g, w) && |v.inodes| == |w.inodes|
    && forall j, k :: 0 <= j < |v.inodes| && j != i && 0 <= k < NSLOTS ==> Slot(g, w, j, k) == Slot(g, v, j, k)
  }

  // w is v with some empty slots of inode i filled: no file's blocks changed.
  ghost predicate Grown(g: Layout, v: Vol, w: Vol, i: int) {
    && Keeps(g, v, w) && SlotsGrow(g, v, w, i) && OtherSlots(g, v, w, i)
    && w.inodes == v.inodes[i := v.inodes[i].(addrs := w.inodes[i].addrs)]
  }

  lemma GrownTransitive(g: Layout, u: Vol, v: Vol, w: Vol, i: int)
    requires Grown(g, u, v, i) && Grown(g, v, w, i)
    ensures Grown(g, u, w, i)
  {
    KeepsTransitive(g, u, v, w);
    assert forall k :: 0 <= k < NSLOTS && Slot(g, u, i, k) != 0 ==> Slot(g, v, i, k) == Slot(g, u, i, k);
    OtherSlotsTransitive(g, u, v, w, i);
  }

  lemma OtherSlotsTransitive(g: Layout, u: Vol, v: Vol, w: Vol, i: int)
    requires OtherSlots(g, u, v, i) && OtherSlots(g, v, w, i)
    ensures OtherSlots(g, u, w, i)
  {
    forall j, k | 0 <= j < |u.inodes| && j != i && 0 <= k < NSLOTS ensures Slot(g, w, j, k) == Slot(g, u, j, k) {
      assert Slot(g, v, j, k) == Slot(g, u, j, k);
    }
  }

  lemma PutSlotGrows(g: Layout, v: Vol, owner: map<int, (int, int)>, i: int, k: int, b: int)
    requires Owned(g, v, owner) && 0 <= b < g.size && !Bit(v.bmap, b)
    requires 0 <= i < |v.inodes| && 0 <= k < NSLOTS && Slot(g, v, i, k) == 0
    requires k > NDIRECT ==> 0 < v.inodes[i].addrs[NDIRECT] < |v.blocks|
    ensures var w := PutSlot(g, Fresh(g, v, b), i, k, b);
      && Grown(g, v, w, i)
      && forall l :: 0 <= l < NSLOTS ==> Slot(g, w, i, l) == if l == k then b else Slot(g, v, i, l)
  {
    PutSlotKeeps(g, v, owner, i, k, b);
    forall j, l | 0 <= j < |v.inodes| && 0 <= l < NSLOTS
      ensures Slot(g, PutSlot(g, Fresh(g, v, b), i, k, b), j, l) == if (j, l) == (i, k) then b else Slot(g, v, j, l)
    {
      PutSlotAt(g, v, owner, i, k, b, j, l);
    }
  }

  lemma PutSlotCounts(g: Layout, v: Vol, i: int, k: int, b: int)
    requires Shape(g, v) && 0 <= i < |v.inodes| && 0 <= k < NSLOTS && 0 <= b < g.size && !Bit(v.bmap, b)
    requires k > NDIRECT ==> 0 < v.inodes[i].addrs[NDIRECT] < |v.blocks|
    ensures FreeCount(PutSlot(g, Fresh(g, v, b), i, k, b).bmap, g.size) == FreeCount(v.bmap, g.size) - 1
  {
    FreeCountSet(v.bmap, b, g.size);
  }

  // Slot k of file i is filled and its other slots are as they were.
  ghost predicate OneFilled(g: Layout, v: Vol, w: Vol, i: int, k: int) {
    && Shape(g, v) && Shape(g, w) && 0 <= i < |v.inodes| == |w.inodes|
    && forall l :: 0 <= l < NSLOTS ==>
         if l == k && Slot(g, v, i, l) == 0 then Slot(g, w, i, l) != 0 else Slot(g, w, i, l) == Slot(g, v, i, l)
  }

  lemma OwnedShape(g: Layout, v: Vol, owner: map<int, (int, int)>)
    requires Owned(g, v, owner)
    ensures Shape(g, v)
  {
  }

  lemma OtherSlot(g: Layout, v: Vol, w: Vol, i: int, k: int, l: int)
    requires OneFilled(g, v, w, i, k) && 0 <= l < NSLOTS && l != k
    ensures Slot(g, w, i, l) == Slot(g, v, i, l)
  {
  }

  // One block of file i, direct: its slot is all that is filled.
  lemma DirectFilled(g: Layout, v: Vol, w: Vol, i: int, bn: int)
    requires OneFilled(g, v, w, i, bn) && 0 <= bn < NDIRECT
    ensures Filled(g, v, w, i, bn, bn)
  {
    hide Slot, Shape;
  }

  // One block past the direct ones: the indirect block, then its entry.
  lemma EntryFilled(g: Layout, v: Vol, u: Vol, w: Vol, i: int, bn: int)
    requires OneFilled(g, v, u, i, NDIRECT) && OneFilled(g, u, w, i, bn + 1) && NDIRECT <= bn < MAXFILE
    ensures Filled(g, v, w, i, bn, bn)
  {
    hide Slot, Shape;
    forall k | 0 <= k < NSLOTS
      ensures (Slot(g, v, i, k) == 0 && Serves(k, bn, bn) ==> Slot(g, w, i, k) != 0)
           && (Slot(g, v, i, k) != 0 || !Serves(k, bn, bn) ==> Slot(g, w, i, k) == Slot(g, v, i, k))
    {
      assert k != NDIRECT ==> Slot(g, u, i, k) == Slot(g, v, i, k);
      assert k != bn + 1 ==> Slot(g, w, i, k) == Slot(g, u, i, k);
    }
  }

  // From v to w, file i got the blocks lo to hi it lacked, and they were taken from the free blocks.
  ghost predicate Paid(g: Layout, v: Vol, w: Vol, i: int, lo: int, hi: int) {
    && Shape(g, v) && Shape(g, w) && 0 <= i < |v.inodes| == |w.inodes| && 0 <= lo && hi < MAXFILE
    && Filled(g, v, w, i, lo, hi)
    && FreeCount(w.bmap, g.size) == FreeCount(v.bmap, g.size) - Need(g, v, i, lo, hi)
  }

  lemma PaidSame(g: Layout, u: Vol, v: Vol, w: Vol, i: int, lo: int, hi: int)
    requires Paid(g, u, v, i, lo, hi) && SameSlots(g, v, w) && w.bmap == v.bmap
    ensures Paid(g, u, w, i, lo, hi)
  {
    FilledSame(g, u, v, w, i, lo, hi);
  }

  lemma PaidFits(g: Layout, v: Vol, w: Vol, i: int, lo: int, hi: int)
    requires Paid(g, v, w, i, lo, hi)
    ensures FreeCount(v.bmap, g.size) >= Need(g, v, i, lo, hi)
  {
  }

  lemma PaidNone(g: Layout, v: Vol, i: int, lo: int)
    requires Shape(g, v) && 0 <= i < |v.inodes| && 0 <= lo <= MAXFILE
    ensures Paid(g, v, v, i, lo, lo - 1)
  {
  }

  lemma PaidMore(g: Layout, u: Vol, v: Vol, w: Vol, i: int, lo: int, e: int, lo': int, hi: int)
    requires Paid(g, u, v, i, lo, e) && Paid(g, v, w, i, lo', hi) && lo <= lo' && e <= lo' <= e + 1 && e <= hi
    ensures Paid(g, u, w, i, lo, hi)
  {
    hide Filled, Need, Slot;
    FilledMore(g, u, v, w, i, lo, e, lo', hi);
    NeedMore(g, u, v, i, lo, e, lo', hi);
  }

  // A write that could not be paid for at block lo' could not be paid for as a whole.
  lemma PaidShort(g: Layout, u: Vol, v: Vol, i: int, lo: int, e: int, lo': int, mid: int, hi: int)
    requires Paid(g, u, v, i, lo, e) && lo <= lo' && e <= lo' <= e + 1 && e <= mid <= hi < MAXFILE
    requires FreeCount(v.bmap, g.size) < Need(g, v, i, lo', mid)
    ensures FreeCount(u.bmap, g.size) < Need(g, u, i, lo, hi)
  {
    hide Filled, Need, Slot;
    NeedMore(g, u, v, i, lo, e, lo', mid);
    NeedGrows(g, u, i, lo, mid, hi);
  }

  lemma GrownSame(g: Layout, v: Vol, i: int)
    requires Shape(g, v) && 0 <= i < |v.inodes|
    ensures Grown(g, v, v, i)
  {
  }

  lemma SameBitmapBlock(b: int, bi: int)
    requires b % BPB == 0 && 0 <= bi < BPB
    ensures (b + bi) / BPB == b / BPB
  {
  }

  // ---- What changed on disk was logged ----

  // Blocks whose contents changed from v to w, and the bitmap blocks (from block bstart on) whose bits did.
  ghost predicate LogsBlocks(g: Layout, bstart: int, v: Vol, w: Vol, logged: set<int>) {
    && |w.blocks| == |v.blocks|
    && (forall b :: 0 <= b < |v.blocks| && w.blocks[b] != v.blocks[b] ==> b in logged)
    && LogsBits(g, bstart, v.bmap, w.bmap, logged)
  }

  ghost predicate LogsBits(g: Layout, bstart: int, bmap: seq<Bits>, bmap': seq<Bits>, logged: set<int>) {
    forall b :: 0 <= b < g.size && Bit(bmap', b) != Bit(bmap, b) ==> b / BPB + bstart in logged
  }

  // The blocks of inodes (from block istart on) of which a copy on disk changed.
  ghost predicate LogsInodes(istart: int, d: seq<Inode>, d': seq<Inode>, logged: set<int>) {
    |d'| == |d| && forall j :: 0 <= j < |d| && d'[j] != d[j] ==> j / IPB + istart in logged
  }

  lemma LogsNothing(g: Layout, bstart: int, v: Vol, logged: set<int>)
    ensures LogsBlocks(g, bstart, v, v, logged) && LogsBits(g, bstart, v.bmap, v.bmap, logged)
  {
  }

  lemma LogsBoth(g: Layout, bstart: int, u: Vol, v: Vol, w: Vol, was: set<int>, logged: set<int>)
    requires LogsBlocks(g, bstart, u, v, was) && LogsBlocks(g, bstart, v, w, logged) && was <= logged
    ensures LogsBlocks(g, bstart, u, w, logged)
  {
    forall b | 0 <= b < |u.blocks| && w.blocks[b] != u.blocks[b] ensures b in logged {
      assert v.blocks[b] != u.blocks[b] || w.blocks[b] != v.blocks[b];
    }
  }

  lemma LogsAlloc(g: Layout, bstart: int, v: Vol, i: int, k: int, b: int, logged: set<int>)
    requires Shape(g, v) && 0 <= i < |v.inodes| && 0 <= k < NSLOTS && 0 <= b < g.size
    requires k > NDIRECT ==> 0 < v.inodes[i].addrs[NDIRECT] < |v.blocks| && v.inodes[i].addrs[NDIRECT] in logged
    requires b in logged && b / BPB + bstart in logged
    ensures LogsBlocks(g, bstart, v, PutSlot(g, Fresh(g, v, b), i, k, b), logged)
  {
    hide SetBit, Bit, SetWord;
    forall c | 0 <= c < g.size && c != b ensures Bit(SetBit(v.bmap, b), c) == Bit(v.bmap, c) { SetBitAt(v.bmap, b, c); }
  }

  lemma LogsStore(g: Layout, bstart: int, v: Vol, a: int, x: Block, logged: set<int>)
    requires 0 <= a < |v.blocks| && a in logged
    ensures LogsBlocks(g, bstart, v, WithBlock(v, a, x), logged)
  {
  }

  // Later steps that leave blocks and bitmap alone.
  lemma LogsKept(g: Layout, bstart: int, v: Vol, u: Vol, w: Vol, was: set<int>, logged: set<int>)
    requires LogsBlocks(g, bstart, v, u, was) && w.blocks == u.blocks && w.bmap == u.bmap && was <= logged
    ensures LogsBlocks(g, bstart, v, w, logged)
  {
  }

  lemma LogsFree(g: Layout, bstart: int, m: seq<Bits>, before: seq<Bits>, after: seq<Bits>, a: int, was: set<int>,
                 logged: set<int>)
    requires LogsBits(g, bstart, m, before, was) && was <= logged && a / BPB + bstart in logged
    requires forall c :: Bit(after, c) <==> Bit(before, c) && c != a
    ensures LogsBits(g, bstart, m, after, logged)
  {
  }

  lemma LogsOneInode(istart: int, d: seq<Inode>, i: int, ip: Inode, logged: set<int>)
    requires 0 <= i < |d|
    ensures LogsInodes(istart, d, d, logged)
    ensures i / IPB + istart in logged ==> LogsInodes(istart, d, d[i := ip], logged)
  {
  }

  class FileSystem {
    const g: Layout
    const bmapstart: int
    const inodestart: int
    var blocks: seq<Block>
    var bmap: seq<Bits>
    var inodes: seq<Inode>
    var dinodes: seq<Inode>
    ghost var owner: map<int, (int, int)>
    ghost var logged: set<int>

    ghost function V(): Vol
      reads this
    {
      Vol(blocks, bmap, inodes)
    }

    ghost predicate Valid()
      reads this
    {
      && Owned(g, V(), owner) && NoHoles(g, V())
      && dinodes == inodes
    }

    // Every block is marked in use.
    ghost predicate DiskFull()
      reads this
    {
      forall c :: 0 <= c < g.size ==> Bit(bmap, c)
    }

    ghost function Free(): nat
      requires 0 <= g.size
      reads this
    {
      FreeCount(bmap, g.size)
    }

    // The bitmap blocks, as log_write sees them.
    ghost function BitmapBlocks(): set<int> {
      set b | 0 <= b < g.size :: b / BPB + bmapstart
    }

    // The blocks outside the file's own that an operation on inode i may log.
    ghost function Fixed(i: int): set<int> {
      BitmapBlocks() + {i / IPB + inodestart}
    }

    // Every block on disk that differs from volume v with inodes d was passed to log_write.
    ghost predicate Logs(v: Vol, d: seq<Inode>)
      reads this
    {
      LogsBlocks(g, bmapstart, v, V(), logged) && LogsInodes(inodestart, d, dinodes, logged)
    }

    constructor (g: Layout, bmapstart: int, inodestart: int, v: Vol, ghost owner: map<int, (int, int)>)
      requires Owned(g, v, owner) && NoHoles(g, v)
      ensures Valid() && V() == v && this.g == g && this.bmapstart == bmapstart && this.inodestart == inodestart
      ensures this.owner == owner && logged == {}
    {
      this.g, this.bmapstart, this.inodestart := g, bmapstart, inodestart;
      blocks, bmap, inodes, dinodes := v.blocks, v.bmap, v.inodes, v.inodes;
      this.owner, logged := owner, {};
    }

    method Bzero(b: int)
      requires 0 <= b < |blocks|
      modifies this`blocks, this`logged
      ensures blocks == old(blocks)[b := ZeroBlock()] && logged == old(logged) + {b}
    {
      blocks := blocks[b := ZeroBlock()];
      logged := logged + {b};
    }

    // balloc: the first free block, marked and zeroed; -1 stands for the panic.
    method Balloc() returns (r: int)
      requires Shape(g, V())
      modifies this`blocks, this`bmap, this`logged
      ensures r >= 0 ==>
        && r < g.size && !Bit(old(bmap), r) && (forall c :: 0 <= c < r ==> Bit(old(bmap), c))
        && V() == Fresh(g, old(V()), r)
        && logged == old(logged) + {r / BPB + bmapstart, r}
      ensures r < 0 ==> r == -1 && DiskFull() && V() == old(V()) && logged == old(logged)
    {
      var b := 0;
      while b < g.size
        invariant 0 <= b && b % BPB == 0
        invariant forall c :: 0 <= c < b && c < g.size ==> Bit(bmap, c)
        invariant V() == old(V()) && logged == old(logged)
        decreases g.size - b
      {
        var bi := 0;
        while bi < BPB && b + bi < g.size
          invariant 0 <= bi <= BPB
          invariant forall c :: 0 <= c < b + bi && c < g.size ==> Bit(bmap, c)
          invariant V() == old(V()) && logged == old(logged)
        {
          if !Bit(bmap, b + bi) {
            bmap := SetBit(bmap, b + bi);
            logged := logged + {b / BPB + bmapstart};
            Bzero(b + bi);
            SameBitmapBlock(b, bi);
            return b + bi;
          }
          bi := bi + 1;
        }
        b := b + BPB;
      }
      return -1;
    }

    // Allocate a block into slot k of inode i, which is empty.
    method AllocSlot(i: int, k: int) returns (addr: int)
      requires Owned(g, V(), owner) && 0 <= i < |inodes| && 0 <= k < NSLOTS && Slot(g, V(), i, k) == 0
      requires k > NDIRECT ==> 0 < inodes[i].addrs[NDIRECT] < |blocks|
      modifies this`blocks, this`bmap, this`inodes, this`owner, this`logged
      ensures addr >= 0 ==>
        && 0 < addr < g.size && !Bit(old(bmap), addr) && (forall c :: 0 <= c < addr ==> Bit(old(bmap), c))
        && V() == PutSlot(g, Fresh(g, old(V()), addr), i, k, addr)
        && Owned(g, V(), owner) && owner == old(owner)[addr := (i, k)]
        && Grown(g, old(V()), V(), i) && Slot(g, V(), i, k) == addr
        && logged == old(logged) + {addr / BPB + bmapstart, addr} + (if k > NDIRECT then {inodes[i].addrs[NDIRECT]} else {})
        && OneFilled(g, old(V()), V(), i, k) && Free() == old(Free()) - 1
        && LogsBlocks(g, bmapstart, old(V()), V(), logged)
      ensures addr < 0 <==> old(Free()) == 0
    {
      hide LogsBlocks, Keeps, OtherSlots, SlotsGrow, FreeCount, Owned;
      ghost var v := V();
      OwnedShape(g, v, owner);
      FreeCountFull(bmap, g.size);
      addr := Balloc();
      if addr < 0 { return; }
      PutSlotCounts(g, v, i, k, addr);
      FreshFacts(g, v, owner, addr);
      PutSlotOwned(g, v, owner, i, k, addr);
      PutSlotGrows(g, v, owner, i, k, addr);
      if k <= NDIRECT {
        inodes := inodes[i := WithAddr(inodes[i], k, addr)];
      } else {
        blocks := WithWord(blocks, inodes[i].addrs[NDIRECT], k - NDIRECT - 1, addr);
        logged := logged + {inodes[i].addrs[NDIRECT]};
      }
      owner := owner[addr := (i, k)];
      LogsAlloc(g, bmapstart, v, i, k, addr, logged);
    }

    // bmap's idiom: the block in slot k, allocated if there is none.
    method EnsureSlot(i: int, k: int) returns (addr: int)
      requires Owned(g, V(), owner) && 0 <= i < |inodes| && 0 <= k < NSLOTS
      requires k > NDIRECT ==> 0 < inodes[i].addrs[NDIRECT] < |blocks|
      modifies this`blocks, this`bmap, this`inodes, this`owner, this`logged
      ensures addr >= 0 ==>
        && Owned(g, V(), owner) && Grown(g, old(V()), V(), i)
        && Slot(g, V(), i, k) == addr && g.nmeta <= addr < g.size
        && (old(Slot(g, V(), i, k)) != 0 ==> V() == old(V()) && logged == old(logged) && owner == old(owner))
        && logged <= old(logged) + BitmapBlocks() + {addr} + (if k > NDIRECT then {inodes[i].addrs[NDIRECT]} else {})
        && OneFilled(g, old(V()), V(), i, k) && Free() == old(Free()) - (if old(Slot(g, V(), i, k)) == 0 then 1 else 0)
        && old(logged) <= logged && LogsBlocks(g, bmapstart, old(V()), V(), logged)
      ensures addr < 0 <==> old(Slot(g, V(), i, k)) == 0 && old(Free()) == 0
    {
      addr := if k <= NDIRECT then inodes[i].addrs[k] else Word(blocks[inodes[i].addrs[NDIRECT]], k - NDIRECT - 1);
      assert addr == Slot(g, V(), i, k);
      if addr == 0 {
        addr := AllocSlot(i, k);
        if addr < 0 { return; }
        assert addr / BPB + bmapstart in BitmapBlocks();
      } else {
        GrownSame(g, V(), i);
        LogsNothing(g, bmapstart, V(), logged);
      }
      SlotOwned(g, V(), owner, i, k);
    }

    // bmap's second half: the indirect block, allocated if there is none, then its entry.
    method BmapEntry(i: int, bn: int) returns (addr: int)
      requires Owned(g, V(), owner) && 0 <= i < |inodes| && NDIRECT <= bn < MAXFILE
      modifies this`blocks, this`bmap, this`inodes, this`owner, this`logged
      ensures addr >= 0 ==>
        && Owned(g, V(), owner) && Grown(g, old(V()), V(), i)
        && MappedBlock(g, V(), i, bn) && Slot(g, V(), i, bn + 1) == addr
        && (old(MappedBlock(g, V(), i, bn)) ==> V() == old(V()) && logged == old(logged) && owner == old(owner))
        && old(logged) <= logged <= old(logged) + Touched(g, Fixed(i), V(), i, bn, bn) && Paid(g, old(V()), V(), i, bn, bn)
        && LogsBlocks(g, bmapstart, old(V()), V(), logged)
      ensures addr < 0 <==> old(Free()) < Need(g, old(V()), i, bn, bn)
    {
      hide Owned, Touched, Keeps, OtherSlots, OneFilled, Need, Filled, LogsBlocks;
      ghost var v := V();
      OwnedShape(g, v, owner);
      NeedOne(g, v, i, bn);
      addr := EnsureSlot(i, NDIRECT);
      if addr < 0 { return; }
      ghost var u, ind, was := V(), addr, logged;
      OtherSlot(g, v, u, i, NDIRECT, bn + 1);
      addr := EnsureSlot(i, bn + 1);
      if addr < 0 { return; }
      LogsBoth(g, bmapstart, v, u, V(), was, logged);
      EntryFilled(g, v, u, V(), i, bn);
      GrownTransitive(g, v, u, V(), i);
      assert Slot(g, V(), i, NDIRECT) == ind == inodes[i].addrs[NDIRECT];
      TouchedOne(g, Fixed(i), V(), i, bn);
    }

    // bmap: the block of file i's bn-th block, allocated if there is none; -1 stands for a panic.
    method Bmap(i: int, bn: int) returns (addr: int)
      requires Owned(g, V(), owner) && 0 <= i < |inodes| && 0 <= bn
      modifies this`blocks, this`bmap, this`inodes, this`owner, this`logged
      ensures addr >= 0 ==>
        && bn < MAXFILE && Owned(g, V(), owner) && Grown(g, old(V()), V(), i)
        && MappedBlock(g, V(), i, bn) && Slot(g, V(), i, DataSlot(bn)) == addr
        && addr == (if bn < NDIRECT then inodes[i].addrs[bn] else Word(blocks[inodes[i].addrs[NDIRECT]], bn - NDIRECT))
        && (old(MappedBlock(g, V(), i, bn)) ==> V() == old(V()) && logged == old(logged) && owner == old(owner))
        && old(logged) <= logged <= old(logged) + Touched(g, Fixed(i), V(), i, bn, bn) && Paid(g, old(V()), V(), i, bn, bn)
        && LogsBlocks(g, bmapstart, old(V()), V(), logged)
      ensures addr < 0 <==> bn >= MAXFILE || old(Free()) < Need(g, old(V()), i, bn, bn)
      ensures old(MappedBlock(g, V(), i, bn)) ==> addr >= 0
    {
      hide Owned, Touched, Keeps, OtherSlots, OneFilled, Need, Filled, LogsBlocks;
      OwnedShape(g, V(), owner);
      if bn < MAXFILE { NeedOne(g, V(), i, bn); }
      if bn < NDIRECT {
        addr := EnsureSlot(i, bn);
        if addr >= 0 {
          TouchedOne(g, Fixed(i), V(), i, bn);
          DirectFilled(g, old(V()), V(), i, bn);
        }
        return;
      }
      if bn - NDIRECT < NINDIRECT {
        addr := BmapEntry(i, bn);
        return;
      }
      return -1;
    }

    // One round of readi's loop: after it the first `next` of the m bytes from off are read.
    method ReadNext(i: int, off: int, m: int, tot: int) returns (piece: seq<byte>, next: int)
      requires Valid() && 0 <= i < |inodes| && 0 <= off && 0 <= tot < m && off + m <= inodes[i].size
      modifies this`blocks, this`bmap, this`inodes, this`owner, this`logged
      ensures V() == old(V()) && logged == old(logged) && owner == old(owner)
      ensures tot < next <= m
      ensures Read(Contents(g, V(), i), off, tot) + piece == Read(Contents(g, V(), i), off, next)
    {
      hide Paid, Need, Filled, Owned, FreeCount, Grown;
      var at := off + tot;
      var k := Min(m - tot, BSIZE - at % BSIZE);
      next := tot + k;
      MappedAt(g, V(), i, inodes[i].size, at);
      var addr := Bmap(i, at / BSIZE);
      PieceOf(g, V(), i, at, k);
      piece := blocks[addr][at % BSIZE..at % BSIZE + k];
      ReadStep(Contents(g, V(), i), off, tot, next);
    }

    // readi: the slice of the file clipped at its size; nothing changes.
    method Readi(i: int, off: int, n: int) returns (r: IoResult, dst: seq<byte>)
      requires Valid() && 0 <= i < |inodes| && 0 <= off < UINT && 0 <= n < UINT
      modifies this`blocks, this`bmap, this`inodes, this`owner, this`logged
      ensures Valid() && V() == old(V()) && logged == old(logged) && owner == old(owner)
      ensures r == if inodes[i].typ == T_DEV then ToDevice
                   else if off > inodes[i].size || off + n >= UINT then Refused
                   else Done(|dst|)
      ensures r.Done? ==> dst == Contents(g, V(), i)[off..Min(off + n, inodes[i].size)]
      ensures !r.Done? ==> dst == []
    {
      dst := [];
      if inodes[i].typ == T_DEV { return ToDevice, dst; }
      if off > inodes[i].size || (off + n) % UINT < off { return Refused, dst; }
      var m := n;
      if off + m > inodes[i].size { m := inodes[i].size - off; }
      ghost var c := Contents(g, V(), i);
      var tot := 0;
      while tot < m
        invariant 0 <= tot <= m <= |c| - off
        invariant V() == old(V()) && logged == old(logged) && owner == old(owner)
        invariant dst == Read(c, off, tot)
        decreases m - tot
      {
        var piece, next := ReadNext(i, off, m, tot);
        dst := dst + piece;
        tot := next;
      }
      r := Done(m);
    }

    // One round of writei's loop: bmap, copy into the block, log_write.
    method WritePiece(i: int, at: int, d: seq<byte>, ghost s: seq<byte>) returns (ok: bool)
      requires Owned(g, V(), owner) && 0 <= i < |inodes|
      requires Holds(g, V(), i, s) && 0 <= at <= |s| && 0 < |d| && at % BSIZE + |d| <= BSIZE && at < MAXFILE * BSIZE
      modifies this`blocks, this`bmap, this`inodes, this`owner, this`logged
      ensures ok ==>
        && Owned(g, V(), owner) && Written(g, old(V()), V(), i)
        && Holds(g, V(), i, Spliced(s, at, d))
        && (old(MappedBlock(g, V(), i, at / BSIZE)) ==> inodes == old(inodes))
        && old(logged) <= logged <= old(logged) + Touched(g, Fixed(i), V(), i, at / BSIZE, at / BSIZE)
        && LogsRange(g, V(), i, at / BSIZE, at / BSIZE, logged) && LogsBlocks(g, bmapstart, old(V()), V(), logged)
        && Paid(g, old(V()), V(), i, at / BSIZE, at / BSIZE)
      ensures ok <==> old(Free()) >= Need(g, old(V()), i, at / BSIZE, at / BSIZE)
    {
      hide Filled, Need, FreeCount, LogsRange, Owned, Holds, Written, Touched, Grown, LogsBlocks;
      ghost var v := V();
      var bn := at / BSIZE;
      var addr := Bmap(i, bn);
      if addr < 0 { return false; }
      ghost var u, was := V(), logged;
      PieceWritten(g, v, u, owner, i, s, at, d);
      var x := SpliceBlock(blocks[addr], at % BSIZE, d);
      blocks := blocks[addr := x];
      logged := logged + {addr};
      assert V() == WithBlock(u, addr, x);
      LogsStore(g, bmapstart, u, addr, x, logged);
      LogsBoth(g, bmapstart, v, u, V(), was, logged);
      TouchedSame(g, Fixed(i), u, V(), i, bn, bn);
      PaidSame(g, v, u, V(), i, bn, bn);
      LogsOne(g, u, V(), i, bn, logged);
      TouchedOne(g, Fixed(i), u, i, bn);
      return true;
    }

    method Iupdate(i: int)
      requires 0 <= i < |inodes| && |dinodes| == |inodes|
      modifies this`dinodes, this`logged
      ensures dinodes == old(dinodes)[i := inodes[i]] && logged == old(logged) + {i / IPB + inodestart}
    {
      dinodes := dinodes[i := inodes[i]];
      logged := logged + {i / IPB + inodestart};
    }

    // The next piece of a write at off of which tot bytes are done; then `next` bytes are.
    method WriteNext(i: int, src: seq<byte>, off: int, n: int, tot: int, ghost c: seq<byte>) returns (ok: bool, next: int)
      requires Owned(g, V(), owner) && 0 <= i < |inodes| && 0 <= off <= |c| && 0 <= tot < n <= |src|
      requires Holds(g, V(), i, Progress(c, off, src, tot)) && off + n <= MAXFILE * BSIZE
      modifies this`blocks, this`bmap, this`inodes, this`owner, this`logged
      ensures tot < next <= n && (next == n || (off + next) % BSIZE == 0) && (off + next - 1) / BSIZE == (off + tot) / BSIZE
      ensures ok ==>
        && Owned(g, V(), owner) && Written(g, old(V()), V(), i)
        && Holds(g, V(), i, Progress(c, off, src, next))
        && (off + tot < |c| ==> inodes == old(inodes))
        && old(logged) <= logged <= old(logged) + Touched(g, Fixed(i), V(), i, (off + tot) / BSIZE, (off + tot) / BSIZE)
        && LogsRange(g, V(), i, (off + tot) / BSIZE, (off + tot) / BSIZE, logged)
        && LogsBlocks(g, bmapstart, old(V()), V(), logged)
        && Paid(g, old(V()), V(), i, (off + tot) / BSIZE, (off + tot) / BSIZE)
      ensures ok <==> old(Free()) >= Need(g, old(V()), i, (off + tot) / BSIZE, (off + tot) / BSIZE)
    {
      hide Paid, Need, FreeCount, Owned, Written, Touched, Holds, Slot, LogsRange, LogsBlocks;
      OwnedShape(g, V(), owner);
      var at := off + tot;
      var m := Min(n - tot, BSIZE - at % BSIZE);
      next := tot + m;
      PieceEnd(off, n, tot);
      ghost var s, t := Progress(c, off, src, tot), Progress(c, off, src, next);
      if at < |c| { HoldsAt(g, V(), i, s, at); }
      assert Spliced(s, at, src[tot..next]) == t by { SpliceStep(c, off, src, tot, next); }
      ok := WritePiece(i, at, src[tot..next], s);
    }

    // writei's loop.
    method WriteLoop(i: int, src: seq<byte>, off: int, n: int) returns (ok: bool)
      requires Valid() && 0 <= i < |inodes| && 0 <= off <= inodes[i].size && 0 <= n <= |src| && off + n <= MAXFILE * BSIZE
      modifies this`blocks, this`bmap, this`inodes, this`owner, this`logged
      ensures ok ==>
        && Owned(g, V(), owner) && Written(g, old(V()), V(), i)
        && Holds(g, V(), i, Progress(Contents(g, old(V()), i), off, src, n))
        && (off + n <= old(inodes)[i].size ==> inodes == old(inodes))
        && (n == 0 ==> V() == old(V()) && logged == old(logged))
        && old(logged) <= logged <= old(logged) + Touched(g, Fixed(i), V(), i, off / BSIZE, (off + n - 1) / BSIZE)
        && (n > 0 ==> Paid(g, old(V()), V(), i, off / BSIZE, (off + n - 1) / BSIZE))
        && (n > 0 ==> LogsRange(g, V(), i, off / BSIZE, (off + n - 1) / BSIZE, logged))
        && LogsBlocks(g, bmapstart, old(V()), V(), logged)
      ensures ok <==> old(Free()) >= NeedFor(g, old(V()), i, off, n)
    {
      hide DiskFull, Owned, Touched, Progress, Holds, Contents, KeepsBlock, Paid, Need, FreeCount, LogsRange, LogsBlocks;
      ghost var v, c, b := V(), Contents(g, V(), i), off / BSIZE;
      PaidNone(g, v, i, b);
      LogsNone(g, v, i, b, logged);
      LogsNothing(g, bmapstart, v, logged);
      NothingWritten(g, v, i, off, src);
      var tot := 0;
      while tot < n
        invariant 0 <= tot <= n
        invariant Owned(g, V(), owner) && Written(g, v, V(), i)
        invariant Holds(g, V(), i, Progress(c, off, src, tot))
        invariant off + tot <= v.inodes[i].size ==> inodes == v.inodes
        invariant tot == 0 ==> V() == v && logged == old(logged)
        invariant old(logged) <= logged <= old(logged) + Touched(g, Fixed(i), V(), i, off / BSIZE, (off + n - 1) / BSIZE)
        invariant Paid(g, v, V(), i, off / BSIZE, b - 1) && off / BSIZE <= b
        invariant LogsRange(g, V(), i, off / BSIZE, b - 1, logged) && LogsBlocks(g, bmapstart, v, V(), logged)
        invariant if tot < n then b == (off + tot) / BSIZE else n > 0 ==> b - 1 == (off + n - 1) / BSIZE
        decreases n - tot
      {
        ghost var u, was := V(), logged;
        var next;
        ok, next := WriteNext(i, src, off, n, tot, c);
        if !ok {
          PaidShort(g, v, u, i, off / BSIZE, b - 1, b, b, (off + n - 1) / BSIZE);
          return;
        }
        PaidMore(g, v, u, V(), i, off / BSIZE, b - 1, b, b);
        LogsMore(g, u, V(), i, off / BSIZE, b, was, logged);
        LogsBoth(g, bmapstart, v, u, V(), was, logged);
        b := b + 1;
        WrittenTransitive(g, v, u, V(), i);
        TouchedGrow(g, Fixed(i), u, V(), i, off / BSIZE, (off + n - 1) / BSIZE, off / BSIZE, (off + n - 1) / BSIZE);
        TouchedGrow(g, Fixed(i), V(), V(), i, (off + tot) / BSIZE, (off + tot) / BSIZE, off / BSIZE, (off + n - 1) / BSIZE);
        tot := next;
      }
      PaidFits(g, v, V(), i, off / BSIZE, b - 1);
      ok := true;
    }

    // The end of writei: a file that grew gets its new size and goes to disk.
    method FinishWrite(i: int, off: int, n: int, ghost v: Vol, ghost d: seq<byte>)
      requires NoHoles(g, v) && Owned(g, V(), owner) && Written(g, v, V(), i) && 0 <= off <= v.inodes[i].size && |d| == n
      requires off + n <= MAXFILE * BSIZE && Holds(g, V(), i, Spliced(Contents(g, v, i), off, d))
      requires dinodes == v.inodes && (off + n <= v.inodes[i].size ==> inodes == v.inodes)
      modifies this`inodes, this`dinodes, this`logged
      ensures Valid() && SplicedFile(g, v, V(), i, off, d)
      ensures old(logged) <= logged <= old(logged) + Fixed(i) && SameSlots(g, old(V()), V()) && bmap == old(bmap)
      ensures LogsInodes(inodestart, old(dinodes), dinodes, logged)
      ensures forall lo, hi :: Touched(g, Fixed(i), V(), i, lo, hi) == old(Touched(g, Fixed(i), V(), i, lo, hi))
    {
      hide LogsInodes;
      ghost var u := V();
      WriteDone(g, v, u, owner, i, d, off);
      LogsOneInode(inodestart, dinodes, i, inodes[i], logged);
      if n > 0 && off + n > inodes[i].size {
        inodes := inodes[i := Inode(inodes[i].typ, off + n, inodes[i].addrs)];
        LogsOneInode(inodestart, dinodes, i, inodes[i], logged + {i / IPB + inodestart});
        Iupdate(i);
      }
      assert V() == Resized(u, i, Max(v.inodes[i].size, off + n));
    }

    // writei: a splice that grows the file to max(size, off + n); no other file changes.
    method Writei(i: int, src: seq<byte>, off: int, n: int) returns (r: IoResult)
      requires Valid() && 0 <= i < |inodes| && 0 <= off < UINT && 0 <= n < UINT && n <= |src|
      modifies this`blocks, this`bmap, this`inodes, this`dinodes, this`owner, this`logged
      ensures r == (if old(inodes)[i].typ == T_DEV then ToDevice
                    else if off > old(inodes)[i].size || off + n >= UINT || off + n > MAXFILE * BSIZE then Refused
                    else if old(Free()) < NeedFor(g, old(V()), i, off, n) then OutOfBlocks else Done(n))
      ensures r.Refused? || r.ToDevice? ==> Valid() && V() == old(V()) && logged == old(logged)
      ensures r.Done? ==>
        && Valid() && SplicedFile(g, old(V()), V(), i, off, src[..n])
        && old(logged) <= logged <= old(logged) + Touched(g, Fixed(i), V(), i, off / BSIZE, (off + n - 1) / BSIZE)
        && (n > 0 ==> Paid(g, old(V()), V(), i, off / BSIZE, (off + n - 1) / BSIZE))
        && (n > 0 ==> LogsRange(g, V(), i, off / BSIZE, (off + n - 1) / BSIZE, logged))
        && Logs(old(V()), old(dinodes))
    {
      hide Paid, Need, FreeCount, LogsRange, LogsBlocks, LogsInodes;
      if inodes[i].typ == T_DEV { return ToDevice; }
      if off > inodes[i].size || (off + n) % UINT < off { return Refused; }
      if off + n > MAXFILE * BSIZE { return Refused; }
      ghost var v := V();
      var ok := WriteLoop(i, src, off, n);
      if !ok { return OutOfBlocks; }
      ghost var u, was := V(), logged;
      FinishWrite(i, off, n, v, src[..n]);
      LogsKept(g, bmapstart, v, u, V(), was, logged);
      if n > 0 {
        PaidSame(g, v, u, V(), i, off / BSIZE, (off + n - 1) / BSIZE);
        LogsSame(g, u, V(), i, off / BSIZE, (off + n - 1) / BSIZE, was, logged);
      }
      return Done(n);
    }

    // bfree: clear the block's bit; panics (false) when it is already clear.
    method Bfree(b: int) returns (ok: bool)
      requires 0 <= b < g.size <= 8 * |bmap|
      modifies this`bmap, this`logged
      ensures ok == Bit(old(bmap), b) && |bmap| == |old(bmap)|
      ensures forall c :: Bit(bmap, c) <==> Bit(old(bmap), c) && (ok ==> c != b)
      ensures logged == old(logged) + if ok then {b / BPB + bmapstart} else {}
    {
      if !Bit(bmap, b) { return false; }
      forall c ensures Bit(ClearBit(bmap, b), c) <==> c != b && Bit(bmap, c) { ClearBitAt(bmap, b, c); }
      bmap := ClearBit(bmap, b);
      logged := logged + {b / BPB + bmapstart};
      return true;
    }

    // itrunc's first loop: free the direct blocks.
    method FreeDirect(i: int, ghost v: Vol) returns (ok: bool)
      requires Owned(g, V(), owner) && v == V() && 0 <= i < |inodes|
      modifies this`bmap, this`inodes, this`logged
      ensures ok && |bmap| == |v.bmap|
      ensures |inodes| == |v.inodes|
      ensures inodes == v.inodes[i := Inode(v.inodes[i].typ, v.inodes[i].size, inodes[i].addrs)]
      ensures |inodes[i].addrs| == NDIRECT + 1 && inodes[i].addrs[NDIRECT] == v.inodes[i].addrs[NDIRECT]
      ensures forall k :: 0 <= k < NDIRECT ==> inodes[i].addrs[k] == 0
      ensures FreedSlots(g, v, owner, bmap, i, NDIRECT, NDIRECT + 1)
      ensures LogsBits(g, bmapstart, v.bmap, bmap, logged) && old(logged) <= logged
    {
      hide LogsBits;
      LogsNothing(g, bmapstart, v, logged);
      var k := 0;
      while k < NDIRECT
        invariant 0 <= k <= NDIRECT && |bmap| == |v.bmap|
        invariant |inodes| == |v.inodes|
        invariant inodes == v.inodes[i := Inode(v.inodes[i].typ, v.inodes[i].size, inodes[i].addrs)]
        invariant |inodes[i].addrs| == NDIRECT + 1
        invariant forall j :: 0 <= j <= NDIRECT ==> inodes[i].addrs[j] == if j < k then 0 else v.inodes[i].addrs[j]
        invariant FreedSlots(g, v, owner, bmap, i, k, NDIRECT + 1)
        invariant LogsBits(g, bmapstart, v.bmap, bmap, logged) && old(logged) <= logged
      {
        ghost var before, was := bmap, logged;
        var a := inodes[i].addrs[k];
        assert a == Slot(g, v, i, k);
        if a != 0 {
          StillMarked(g, v, owner, bmap, i, k, k, NDIRECT + 1);
          ok := Bfree(a);
          LogsFree(g, bmapstart, v.bmap, before, bmap, a, was, logged);
          inodes := inodes[i := WithAddr(inodes[i], k, 0)];
        }
        FreedStep(g, v, owner, before, bmap, i, k, k, NDIRECT + 1, k + 1, NDIRECT + 1);
        k := k + 1;
      }
      ok := true;
    }

    // itrunc's second loop: free the blocks listed in the indirect block.
    method FreeEntries(i: int, ghost v: Vol, ind: int) returns (ok: bool)
      requires Owned(g, v, owner) && 0 <= i < |v.inodes| && blocks == v.blocks && |bmap| == |v.bmap|
      requires ind == v.inodes[i].addrs[NDIRECT] && ind != 0
      requires FreedSlots(g, v, owner, bmap, i, NDIRECT, NDIRECT + 1) && LogsBits(g, bmapstart, v.bmap, bmap, logged)
      modifies this`bmap, this`logged
      ensures ok && |bmap| == |v.bmap|
      ensures FreedSlots(g, v, owner, bmap, i, NDIRECT, NSLOTS)
      ensures LogsBits(g, bmapstart, v.bmap, bmap, logged) && old(logged) <= logged
    {
      hide LogsBits;
      assert ind == Slot(g, v, i, NDIRECT);
      SlotOwned(g, v, owner, i, NDIRECT);
      assert Shape(g, v);
      var j := 0;
      while j < NINDIRECT
        invariant 0 <= j <= NINDIRECT && |bmap| == |v.bmap|
        invariant FreedSlots(g, v, owner, bmap, i, NDIRECT, NDIRECT + 1 + j)
        invariant LogsBits(g, bmapstart, v.bmap, bmap, logged) && old(logged) <= logged
      {
        ghost var before, was := bmap, logged;
        var a := Word(blocks[ind], j);
        assert a == Slot(g, v, i, NDIRECT + 1 + j);
        if a != 0 {
          StillMarked(g, v, owner, bmap, i, NDIRECT + 1 + j, NDIRECT, NDIRECT + 1 + j);
          ok := Bfree(a);
          LogsFree(g, bmapstart, v.bmap, before, bmap, a, was, logged);
        }
        FreedStep(g, v, owner, before, bmap, i, NDIRECT + 1 + j, NDIRECT, NDIRECT + 1 + j, NDIRECT, NDIRECT + 1 + j + 1);
        j := j + 1;
      }
      ok := true;
    }

    // itrunc's second half: free the indirect block and what it lists.
    method FreeIndirect(i: int, ghost v: Vol) returns (ok: bool)
      requires Owned(g, v, owner) && 0 <= i < |v.inodes| && blocks == v.blocks && |bmap| == |v.bmap| && |inodes| == |v.inodes|
      requires |inodes[i].addrs| == NDIRECT + 1 && inodes[i].addrs[NDIRECT] == v.inodes[i].addrs[NDIRECT]
      requires FreedSlots(g, v, owner, bmap, i, NDIRECT, NDIRECT + 1) && LogsBits(g, bmapstart, v.bmap, bmap, logged)
      modifies this`bmap, this`inodes, this`logged
      ensures ok && |bmap| == |v.bmap|
      ensures inodes == old(inodes)[i := WithAddr(old(inodes)[i], NDIRECT, 0)]
      ensures forall b :: 0 <= b < g.size ==> (Bit(bmap, b) <==> Bit(v.bmap, b) && !(b in owner && owner[b].0 == i))
      ensures LogsBits(g, bmapstart, v.bmap, bmap, logged) && old(logged) <= logged
    {
      hide LogsBits;
      var ind := inodes[i].addrs[NDIRECT];
      assert ind == Slot(g, v, i, NDIRECT);
      if ind != 0 {
        SlotOwned(g, v, owner, i, NDIRECT);
        ok := FreeEntries(i, v, ind);
        assert Bit(bmap, ind);
        ghost var before, was := bmap, logged;
        ok := Bfree(ind);
        LogsFree(g, bmapstart, v.bmap, before, bmap, ind, was, logged);
        inodes := inodes[i := WithAddr(inodes[i], NDIRECT, 0)];
      } else {
        NoEntries(g, v, owner, bmap, i);
        assert WithAddr(inodes[i], NDIRECT, 0) == inodes[i];
        ok := true;
      }
    }

    // itrunc: no panic, the file is empty, exactly its blocks are free, and all else is as it was.
    method Itrunc(i: int) returns (ok: bool)
      requires Valid() && 0 <= i < |inodes|
      modifies this`bmap, this`inodes, this`dinodes, this`owner, this`logged
      ensures ok && Valid() && blocks == old(blocks) && |inodes| == |old(inodes)|
      ensures inodes[i].size == 0 && inodes[i].typ == old(inodes)[i].typ
      ensures forall k :: 0 <= k <= NDIRECT ==> inodes[i].addrs[k] == 0
      ensures owner == map b | b in old(owner) && old(owner)[b].0 != i :: old(owner)[b]
      ensures forall b :: 0 <= b < g.size ==>
        (Bit(bmap, b) <==> old(Bit(bmap, b)) && !(b in old(owner) && old(owner)[b].0 == i))
      ensures forall j :: 0 <= j < |inodes| && j != i ==>
        inodes[j] == old(inodes)[j] && Contents(g, V(), j) == old(Contents(g, V(), j))
      ensures Logs(old(V()), old(dinodes)) && old(logged) <= logged
    {
      ghost var v := V();
      ok := FreeDirect(i, v);
      ok := FreeIndirect(i, v);
      inodes := inodes[i := Inode(inodes[i].typ, 0, inodes[i].addrs)];
      Iupdate(i);
      owner := map b | b in owner && owner[b].0 != i :: owner[b];
      TruncDone(g, v, old(owner), V(), owner, i);
    }
  }

  // Without an indirect block there are no entries to free.
  lemma NoEntries(g: Layout, v: Vol, owner: map<int, (int, int)>, bmap: seq<Bits>, i: int)
    requires Owned(g, v, owner) && 0 <= i < |v.inodes| && v.inodes[i].addrs[NDIRECT] == 0
    requires FreedSlots(g, v, owner, bmap, i, NDIRECT, NDIRECT + 1)
    ensures forall b :: b in owner && owner[b].0 == i ==> owner[b].1 < NDIRECT
  {
    forall b | b in owner && owner[b].0 == i ensures owner[b].1 < NDIRECT {
      assert Slot(g, v, owner[b].0, owner[b].1) == b;
    }
  }

  lemma TruncDone(g: Layout, v: Vol, owner: map<int, (int, int)>, w: Vol, owner': map<int, (int, int)>, i: int)
    requires Owned(g, v, owner) && NoHoles(g, v) && 0 <= i < |v.inodes|
    requires w.blocks == v.blocks && |w.bmap| == |v.bmap| && |w.inodes| == |v.inodes|
    requires |w.inodes[i].addrs| == NDIRECT + 1 && w.inodes[i].size == 0
    requires forall k :: 0 <= k <= NDIRECT ==> w.inodes[i].addrs[k] == 0
    requires forall j :: 0 <= j < |v.inodes| && j != i ==> w.inodes[j] == v.inodes[j]
    requires owner' == map b | b in owner && owner[b].0 != i :: owner[b]
    requires forall b :: 0 <= b < g.size ==> (Bit(w.bmap, b) <==> Bit(v.bmap, b) && !(b in owner && owner[b].0 == i))
    ensures Owned(g, w, owner') && NoHoles(g, w)
    ensures forall j :: 0 <= j < |w.inodes| && j != i ==> Contents(g, w, j) == Contents(g, v, j)
  {
    assert Shape(g, w);
    assert forall j, k :: 0 <= j < |v.inodes| && 0 <= k < NSLOTS ==>
      Slot(g, w, j, k) == if j == i then 0 else Slot(g, v, j, k);
    assert Owned(g, w, owner');
    forall j | 0 <= j < |w.inodes| && j != i
      ensures Mapped(g, w, j, w.inodes[j].size) && Contents(g, w, j) == Contents(g, v, j)
    {
      assert forall bn :: KeepsBlock(g, v, w, j, bn);
      HoldsKept(g, v, w, j, Contents(g, v, j));
    }
  }

  // From v, exactly the blocks in direct slots below d and in entry slots from NDIRECT+1 below e
  // of inode i have been freed.
  ghost predicate FreedSlots(g: Layout, v: Vol, owner: map<int, (int, int)>, bmap: seq<Bits>, i: int, d: int, e: int) {
    forall b :: 0 <= b < g.size ==> (Bit(bmap, b) <==> Bit(v.bmap, b) && !(b in owner && Gone(owner[b], i, d, e)))
  }

  predicate Gone(o: (int, int), i: int, d: int, e: int) {
    o.0 == i && (0 <= o.1 < d || NDIRECT < o.1 < e)
  }

  // A block whose slot has not been reached is still marked.
  lemma StillMarked(g: Layout, v: Vol, owner: map<int, (int, int)>, bmap: seq<Bits>, i: int, k: int, d: int, e: int)
    requires Owned(g, v, owner) && 0 <= i < |v.inodes| && 0 <= k < NSLOTS && Slot(g, v, i, k) != 0
    requires FreedSlots(g, v, owner, bmap, i, d, e) && !Gone((i, k), i, d, e)
    ensures var a := Slot(g, v, i, k); 0 <= a < g.size && Bit(bmap, a)
  {
    SlotOwned(g, v, owner, i, k);
  }

  lemma FreedStep(g: Layout, v: Vol, owner: map<int, (int, int)>, before: seq<Bits>, after: seq<Bits>,
                  i: int, k: int, d: int, e: int, d': int, e': int)
    requires Owned(g, v, owner) && 0 <= i < |v.inodes| && 0 <= k < NSLOTS
    requires FreedSlots(g, v, owner, before, i, d, e)
    requires var a := Slot(g, v, i, k); forall c :: Bit(after, c) <==> Bit(before, c) && (a != 0 ==> c != a)
    requires forall o :: Gone(o, i, d', e') <==> Gone(o, i, d, e) || o == (i, k)
    ensures FreedSlots(g, v, owner, after, i, d', e')
  {
    var a := Slot(g, v, i, k);
    if a != 0 { SlotOwned(g, v, owner, i, k); }
    forall b | 0 <= b < g.size
      ensures Bit(after, b) <==> Bit(v.bmap, b) && !(b in owner && Gone(owner[b], i, d', e'))
    {
      if b in owner && owner[b] == (i, k) { assert Slot(g, v, owner[b].0, owner[b].1) == b; }
    }
  }

  // From v to w, file i was spliced with d at off and no other file changed.
  ghost predicate SplicedFile(g: Layout, v: Vol, w: Vol, i: int, off: int, d: seq<byte>) {
    && NoHoles(g, v) && NoHoles(g, w) && |w.inodes| == |v.inodes| && 0 <= i < |v.inodes| && 0 <= off <= v.inodes[i].size
    && Contents(g, w, i) == Spliced(Contents(g, v, i), off, d)
    && w.inodes[i].size == Max(v.inodes[i].size, off + |d|) && w.inodes[i].typ == v.inodes[i].typ
    && forall j :: 0 <= j < |w.inodes| && j != i ==> w.inodes[j] == v.inodes[j] && Contents(g, w, j) == Contents(g, v, j)
  }

  // The file after tot bytes of a write at off.
  ghost function Progress(c: seq<byte>, off: int, src: seq<byte>, tot: int): (r: seq<byte>)
    requires 0 <= off <= |c| && 0 <= tot <= |src|
    ensures |r| == Max(|c|, off + tot)
  {
    Spliced(c, off, src[..tot])
  }

  lemma NothingWritten(g: Layout, v: Vol, i: int, off: int, src: seq<byte>)
    requires NoHoles(g, v) && 0 <= i < |v.inodes| && 0 <= off <= v.inodes[i].size
    ensures Holds(g, v, i, Progress(Contents(g, v, i), off, src, 0)) && Written(g, v, v, i)
  {
    assert Progress(Contents(g, v, i), off, src, 0) == Contents(g, v, i);
  }

  lemma SpliceStep(c: seq<byte>, off: int, src: seq<byte>, tot: int, next: int)
    requires 0 <= off <= |c| && 0 <= tot <= next <= |src|
    ensures Spliced(Progress(c, off, src, tot), off + tot, src[tot..next]) == Progress(c, off, src, next)
  {
    SplicedTwice(c, off, src[..tot], src[tot..next]);
    assert src[..tot] + src[tot..next] == src[..next];
  }

  ghost function Resized(v: Vol, i: int, size: int): Vol
    requires 0 <= i < |v.inodes|
  {
    Vol(v.blocks, v.bmap, v.inodes[i := Inode(v.inodes[i].typ, size, v.inodes[i].addrs)])
  }

  lemma ResizedKeeps(g: Layout, u: Vol, owner: map<int, (int, int)>, i: int, size: int)
    requires Owned(g, u, owner) && 0 <= i < |u.inodes| && 0 <= size <= MAXFILE * BSIZE
    ensures var w := Resized(u, i, size);
      && Owned(g, w, owner) && SameSlots(g, u, w)
      && (forall j, bn :: 0 <= j < |u.inodes| ==> KeepsBlock(g, u, w, j, bn))
      && (forall fixed, lo, hi :: Touched(g, fixed, w, i, lo, hi) == Touched(g, fixed, u, i, lo, hi))
  {
    var w := Resized(u, i, size);
    assert SameSlots(g, u, w);
  }

  // The new size makes the spliced bytes the file's contents.
  lemma WriteDone(g: Layout, v: Vol, u: Vol, owner: map<int, (int, int)>, i: int, d: seq<byte>, off: int)
    requires NoHoles(g, v) && Owned(g, u, owner) && Written(g, v, u, i) && 0 <= off <= v.inodes[i].size
    requires off + |d| <= MAXFILE * BSIZE
    requires Holds(g, u, i, Spliced(Contents(g, v, i), off, d))
    ensures var w := Resized(u, i, Max(v.inodes[i].size, off + |d|));
      && Owned(g, w, owner) && NoHoles(g, w)
      && Contents(g, w, i) == Spliced(Contents(g, v, i), off, d)
      && (forall j :: 0 <= j < |w.inodes| && j != i ==> Contents(g, w, j) == Contents(g, v, j))
      && (forall fixed, lo, hi :: Touched(g, fixed, w, i, lo, hi) == Touched(g, fixed, u, i, lo, hi))
      && SameSlots(g, u, w)
  {
    var w := Resized(u, i, Max(v.inodes[i].size, off + |d|));
    var s := Spliced(Contents(g, v, i), off, d);
    ResizedKeeps(g, u, owner, i, Max(v.inodes[i].size, off + |d|));
    HoldsKept(g, u, w, i, s);
    forall j | 0 <= j < |w.inodes| && j != i
      ensures Mapped(g, w, j, w.inodes[j].size) && Contents(g, w, j) == Contents(g, v, j)
    {
      var c := Contents(g, v, j);
      assert forall bn :: KeepsBlock(g, v, u, j, bn) && KeepsBlock(g, u, w, j, bn) ==> KeepsBlock(g, v, w, j, bn);
      HoldsKept(g, v, w, j, c);
    }
  }

  function Max(a: int, b: int): int { if a < b then b else a }

  // From v to w only file i was written: its slots only grew and every other file is as it was.
  ghost predicate Written(g: Layout, v: Vol, w: Vol, i: int) {
    && SlotsGrow(g, v, w, i) && OtherSlots(g, v, w, i)
    && w.inodes == v.inodes[i := Inode(v.inodes[i].typ, v.inodes[i].size, w.inodes[i].addrs)]
    && forall j, bn :: 0 <= j < |v.inodes| && j != i ==> KeepsBlock(g, v, w, j, bn)
  }

  lemma WrittenThrough(g: Layout, v: Vol, u: Vol, w: Vol, i: int)
    requires Grown(g, v, u, i) && SameSlots(g, u, w) && w.inodes == u.inodes
    requires forall j, bn :: 0 <= j < |u.inodes| && j != i ==> KeepsBlock(g, u, w, j, bn)
    ensures Written(g, v, w, i)
  {
    assert OtherSlots(g, u, w, i);
    OtherSlotsTransitive(g, v, u, w, i);
    forall k | 0 <= k < NSLOTS && Slot(g, v, i, k) != 0 ensures Slot(g, w, i, k) == Slot(g, v, i, k) {
      assert Slot(g, w, i, k) == Slot(g, u, i, k);
    }
    forall j, bn | 0 <= j < |v.inodes| && j != i ensures KeepsBlock(g, v, w, j, bn) {
      assert KeepsBlock(g, v, u, j, bn) && KeepsBlock(g, u, w, j, bn);
    }
  }

  // Copying d into the mapped block at `at` splices the file, owns what was owned, and leaves
  // every other file alone.
  lemma PieceWritten(g: Layout, v: Vol, u: Vol, owner: map<int, (int, int)>, i: int, s: seq<byte>, at: int, d: seq<byte>)
    requires Owned(g, u, owner) && Grown(g, v, u, i) && Holds(g, v, i, s)
    requires 0 <= at <= |s| && 0 < |d| && at % BSIZE + |d| <= BSIZE && MappedBlock(g, u, i, at / BSIZE)
    ensures var addr := Slot(g, u, i, DataSlot(at / BSIZE));
      var w := WithBlock(u, addr, SpliceBlock(u.blocks[addr], at % BSIZE, d));
      Owned(g, w, owner) && SameSlots(g, u, w) && Written(g, v, w, i) && Holds(g, w, i, Spliced(s, at, d))
  {
    var bn := at / BSIZE;
    var addr := Slot(g, u, i, DataSlot(bn));
    var x := SpliceBlock(u.blocks[addr], at % BSIZE, d);
    var w := WithBlock(u, addr, x);
    WriteBlock(g, u, owner, i, bn, x);
    HoldsKept(g, v, u, i, s);
    HoldsSpliced(g, u, w, i, s, at, d);
    WrittenThrough(g, v, u, w, i);
  }

  lemma WrittenTransitive(g: Layout, u: Vol, v: Vol, w: Vol, i: int)
    requires Written(g, u, v, i) && Written(g, v, w, i)
    ensures Written(g, u, w, i)
  {
    OtherSlotsTransitive(g, u, v, w, i);
    forall k | 0 <= k < NSLOTS && Slot(g, u, i, k) != 0 ensures Slot(g, w, i, k) == Slot(g, u, i, k) {
      assert Slot(g, v, i, k) == Slot(g, u, i, k);
    }
    forall j, bn | 0 <= j < |u.inodes| && j != i ensures KeepsBlock(g, u, w, j, bn) {
      assert KeepsBlock(g, u, v, j, bn) && KeepsBlock(g, v, w, j, bn);
    }
  }

  // The indirect block of file i, if it has one.
  ghost function Indirect(v: Vol, i: int): set<int>
    requires 0 <= i < |v.inodes| && |v.inodes[i].addrs| == NDIRECT + 1
  {
    if v.inodes[i].addrs[NDIRECT] == 0 then {} else {v.inodes[i].addrs[NDIRECT]}
  }

  // The data blocks lo..hi of file i that exist.
  ghost function DataBlocks(g: Layout, v: Vol, i: int, lo: int, hi: int): set<int>
    requires Shape(g, v) && 0 <= i < |v.inodes|
  {
    set bn | lo <= bn <= hi && 0 <= bn < MAXFILE && Slot(g, v, i, DataSlot(bn)) != 0 :: Slot(g, v, i, DataSlot(bn))
  }

  // The data blocks lo to hi of file i exist and are logged.
  ghost predicate LogsRange(g: Layout, v: Vol, i: int, lo: int, hi: int, logged: set<int>) {
    && Shape(g, v) && 0 <= i < |v.inodes| && 0 <= lo && hi < MAXFILE
    && forall bn :: lo <= bn <= hi ==> Slot(g, v, i, DataSlot(bn)) != 0 && Slot(g, v, i, DataSlot(bn)) in logged
  }

  lemma LogsNone(g: Layout, v: Vol, i: int, lo: int, logged: set<int>)
    requires Shape(g, v) && 0 <= i < |v.inodes| && 0 <= lo <= MAXFILE
    ensures LogsRange(g, v, i, lo, lo - 1, logged)
  {
  }

  lemma LogsOne(g: Layout, v: Vol, w: Vol, i: int, bn: int, logged: set<int>)
    requires SameSlots(g, v, w) && 0 <= i < |v.inodes| && MappedBlock(g, v, i, bn) && Slot(g, v, i, DataSlot(bn)) in logged
    ensures LogsRange(g, w, i, bn, bn, logged)
  {
  }

  lemma LogsSame(g: Layout, v: Vol, w: Vol, i: int, lo: int, hi: int, was: set<int>, logged: set<int>)
    requires LogsRange(g, v, i, lo, hi, was) && SameSlots(g, v, w) && was <= logged
    ensures LogsRange(g, w, i, lo, hi, logged)
  {
    hide Slot, Shape;
    assert forall bn :: lo <= bn <= hi ==> Slot(g, w, i, DataSlot(bn)) == Slot(g, v, i, DataSlot(bn));
  }

  lemma LogsMore(g: Layout, v: Vol, w: Vol, i: int, lo: int, b: int, was: set<int>, logged: set<int>)
    requires LogsRange(g, v, i, lo, b - 1, was) && LogsRange(g, w, i, b, b, logged) && SlotsGrow(g, v, w, i) && was <= logged
    ensures LogsRange(g, w, i, lo, b, logged)
  {
    hide Slot, Shape;
    forall bn | lo <= bn <= b ensures Slot(g, w, i, DataSlot(bn)) != 0 && Slot(g, w, i, DataSlot(bn)) in logged {
      if bn < b { assert Slot(g, v, i, DataSlot(bn)) != 0; }
    }
  }

  // A write lists at least the data blocks it covers: they are distinct.
  lemma ListsAtLeast(g: Layout, v: Vol, owner: map<int, (int, int)>, i: int, lo: int, hi: int, logged: set<int>)
    requires Owned(g, v, owner) && LogsRange(g, v, i, lo, hi, logged) && lo <= hi
    ensures hi - lo + 1 <= |logged|
  {
    var bs := seq(hi - lo + 1, k requires 0 <= k <= hi - lo => Slot(g, v, i, DataSlot(lo + k)));
    forall j, k | 0 <= j < k < |bs| ensures bs[j] != bs[k] {
      if bs[j] == bs[k] { OneSlotPerBlock(g, v, owner, i, DataSlot(lo + j), i, DataSlot(lo + k)); }
    }
    AtLeast(bs, logged);
  }

  // Everything a write to blocks lo..hi of file i may log.
  ghost function Touched(g: Layout, fixed: set<int>, v: Vol, i: int, lo: int, hi: int): (t: set<int>)
    requires Shape(g, v) && 0 <= i < |v.inodes|
    ensures fixed <= t
  {
    fixed + Indirect(v, i) + DataBlocks(g, v, i, lo, hi)
  }

  lemma TouchedOne(g: Layout, fixed: set<int>, v: Vol, i: int, bn: int)
    requires Shape(g, v) && 0 <= i < |v.inodes| && MappedBlock(g, v, i, bn)
    ensures Slot(g, v, i, DataSlot(bn)) in Touched(g, fixed, v, i, bn, bn)
    ensures v.inodes[i].addrs[NDIRECT] != 0 ==> v.inodes[i].addrs[NDIRECT] in Touched(g, fixed, v, i, bn, bn)
  {
    assert Slot(g, v, i, DataSlot(bn)) in DataBlocks(g, v, i, bn, bn);
  }

  lemma TouchedSame(g: Layout, fixed: set<int>, v: Vol, w: Vol, i: int, lo: int, hi: int)
    requires SameSlots(g, v, w) && 0 <= i < |v.inodes|
    ensures Touched(g, fixed, w, i, lo, hi) == Touched(g, fixed, v, i, lo, hi)
  {
    TouchedGrow(g, fixed, v, w, i, lo, hi, lo, hi);
    TouchedGrow(g, fixed, w, v, i, lo, hi, lo, hi);
  }

  lemma TouchedGrow(g: Layout, fixed: set<int>, v: Vol, w: Vol, i: int, lo: int, hi: int, lo': int, hi': int)
    requires SlotsGrow(g, v, w, i) && lo' <= lo && hi <= hi'
    ensures Touched(g, fixed, v, i, lo, hi) <= Touched(g, fixed, w, i, lo', hi')
  {
    assert Slot(g, v, i, NDIRECT) == v.inodes[i].addrs[NDIRECT] && Slot(g, w, i, NDIRECT) == w.inodes[i].addrs[NDIRECT];
    forall a | a in DataBlocks(g, v, i, lo, hi) ensures a in DataBlocks(g, w, i, lo', hi') {
      var bn :| lo <= bn <= hi && 0 <= bn < MAXFILE && Slot(g, v, i, DataSlot(bn)) == a && a != 0;
      assert Slot(g, w, i, DataSlot(bn)) == a;
    }
  }

  // A piece ends with the request or with its block.
  lemma PieceEnd(off: int, n: int, tot: int)
    requires 0 <= off && 0 <= tot < n
    ensures var at := off + tot; var next := tot + Min(n - tot, BSIZE - at % BSIZE);
      && tot < next <= n && at % BSIZE + (next - tot) <= BSIZE
      && (next == n || (off + next) % BSIZE == 0) && (off + next - 1) / BSIZE == at / BSIZE
  {
  }

  // The first tot bytes of a read at off.
  function Read(c: seq<byte>, off: int, tot: int): (r: seq<byte>)
    requires 0 <= off && 0 <= tot && off + tot <= |c|
    ensures |r| == tot
  {
    c[off..off + tot]
  }

  lemma ReadStep(c: seq<byte>, off: int, tot: int, next: int)
    requires 0 <= off && 0 <= tot <= next && off + next <= |c|
    ensures Read(c, off, tot) + c[off + tot..off + next] == Read(c, off, next)
  {
  }

  function Min(a: int, b: int): int { if a < b then a else b }

  // A piece of a file that lies in one block.
  lemma PieceOf(g: Layout, v: Vol, i: int, at: int, k: int)
    requires Shape(g, v) && 0 <= i < |v.inodes| && Mapped(g, v, i, v.inodes[i].size)
    requires 0 <= at && 0 < k && at % BSIZE + k <= BSIZE && at + k <= v.inodes[i].size
    ensures MappedBlock(g, v, i, at / BSIZE)
    ensures FileBlock(g, v, i, at / BSIZE)[at % BSIZE..at % BSIZE + k] == Contents(g, v, i)[at..at + k]
  {
    MappedAt(g, v, i, v.inodes[i].size, at);
    var x, c := FileBlock(g, v, i, at / BSIZE), Contents(g, v, i);
    var p, q := x[at % BSIZE..at % BSIZE + k], c[at..at + k];
    forall j | 0 <= j < k ensures p[j] == q[j] {
      assert (at + j) / BSIZE == at / BSIZE && (at + j) % BSIZE == at % BSIZE + j;
      ContentsAt(g, v, i, at + j);
    }
  }
}
