// mkfs.c: the program that builds the first disk image.
//
// Blocks are handed out in increasing order by freeblock, and the bitmap is written once at the
// end.  The proofs reuse the ownership of Volume.dfy by carrying a ghost bitmap that always marks
// exactly the blocks below freeblock.
module Mkfs {
  import opened Volume
  import opened FreeSpace
  import opened Files

  const NINODES: int := 200

  // A bitmap of n bytes whose first `used` bits are set.
  ghost predicate FirstBits(bmap: seq<Bits>, used: int, size: int) {
    forall b :: 0 <= b < size ==> (Bit(bmap, b) <==> b < used)
  }

  // Inode i has no block past its first n bytes.
  ghost predicate Tight(g: Layout, v: Vol, i: int, n: int)
    requires Shape(g, v) && 0 <= i < |v.inodes|
  {
    forall bn :: 0 <= bn < MAXFILE && Slot(g, v, i, DataSlot(bn)) != 0 ==> bn * BSIZE < n
  }

  function Blank(typ: int): Inode {
    Inode(typ, 0, [0, 0, 0, 0, 0, 0, 0, 0, 0, 0, 0, 0, 0])
  }

  class Builder {
    const g: Layout
    var blocks: seq<Block>
    var inodes: seq<Inode>
    var freeblock: int
    var freeinode: int
    ghost var marks: seq<Bits>
    ghost var owner: map<int, (int, int)>

    ghost function V(): Vol
      reads this
    {
      Vol(blocks, marks, inodes)
    }

    // Structure that holds between and inside appends.
    ghost predicate Sound()
      reads this
    {
      && Owned(g, V(), owner) && |blocks| == g.size < 8 * BSIZE
      && g.nmeta <= freeblock <= g.size && FirstBits(marks, freeblock, g.size)
      && forall b :: freeblock <= b < g.size ==> blocks[b] == ZeroBlock()
    }

    ghost predicate Valid()
      reads this
    {
      && Sound() && NoHoles(g, V())
      && (forall i :: 0 <= i < |inodes| ==> Tight(g, V(), i, inodes[i].size))
      && 1 <= freeinode <= |inodes|
      && forall i :: freeinode <= i < |inodes| ==> inodes[i] == Blank(0)
    }

    // Every sector zeroed, no inode in use.
    constructor (g: Layout)
      requires 1 <= g.nmeta <= g.size < 8 * BSIZE
      ensures Valid() && this.g == g && freeblock == g.nmeta && freeinode == 1 && |inodes| == NINODES
    {
      this.g := g;
      blocks := seq(g.size, _ => ZeroBlock());
      inodes := seq(NINODES, _ => Blank(0));
      freeblock, freeinode := g.nmeta, 1;
      marks := Marks(g.nmeta);
      owner := map[];
      new;
      MarksAre(g.nmeta, g.size);
      assert Shape(g, V());
      assert forall i, k :: 0 <= i < |inodes| && 0 <= k < NSLOTS ==> Slot(g, V(), i, k) == 0;
    }

    // ialloc: the next inode number.  mkfs does not check that the inode blocks have room; -1 marks the case
    // it would write past them.
    method Ialloc(typ: int) returns (inum: int)
      requires Valid()
      modifies this`inodes, this`freeinode
      ensures Valid() && (inum == -1 <==> old(freeinode) == |old(inodes)|)
      ensures inum == -1 ==> inodes == old(inodes) && freeinode == old(freeinode)
      ensures inum != -1 ==> inum == old(freeinode) && freeinode == inum + 1 && inodes == old(inodes)[inum := Blank(typ)]
    {
      if freeinode == |inodes| { return -1; }
      ghost var v := V();
      inum := freeinode;
      freeinode := freeinode + 1;
      inodes := inodes[inum := Blank(typ)];
      RetypeKeeps(g, v, owner, inum, typ);
    }

    // iappend's idiom: the block in slot k, taken from freeblock if there is none.  mkfs does not
    // check that the image has room; -1 marks the case it would run off the end.
    method Claim(i: int, k: int) returns (addr: int)
      requires Sound() && 0 <= i < |inodes| && 0 <= k < NSLOTS
      requires k > NDIRECT ==> 0 < inodes[i].addrs[NDIRECT] < |blocks|
      modifies this`blocks, this`inodes, this`freeblock, this`marks, this`owner
      ensures addr >= 0 ==>
        && Sound() && Grown(g, old(V()), V(), i)
        && Slot(g, V(), i, k) == addr && g.nmeta <= addr < g.size
        && OneFilled(g, old(V()), V(), i, k)
        && freeblock == old(freeblock) + if old(Slot(g, V(), i, k)) == 0 then 1 else 0
      ensures addr < 0 <==> old(Slot(g, V(), i, k)) == 0 && old(freeblock) == g.size
    {
      hide Owned, Grown, Word, SetWord;
      ghost var v := V();
      OwnedShape(g, v, owner);
      addr := if k <= NDIRECT then inodes[i].addrs[k] else Word(blocks[inodes[i].addrs[NDIRECT]], k - NDIRECT - 1);
      assert addr == Slot(g, v, i, k);
      if addr != 0 {
        SlotOwned(g, v, owner, i, k);
        GrownSame(g, v, i);
        return;
      }
      if freeblock == g.size { return -1; }
      addr := freeblock;
      TakeFacts(g, v, owner, i, k, addr);
      assert blocks[addr := ZeroBlock()] == blocks;
      freeblock := freeblock + 1;
      if k <= NDIRECT {
        inodes := inodes[i := WithAddr(inodes[i], k, addr)];
      } else {
        blocks := WithWord(blocks, inodes[i].addrs[NDIRECT], k - NDIRECT - 1, addr);
      }
      marks := SetBit(marks, addr);
      owner := owner[addr := (i, k)];
      assert V() == PutSlot(g, Fresh(g, v, addr), i, k, addr);
      NextMark(v.bmap, addr, g.size);
      IndirectIsTaken(g, v, old(owner), i);
    }

    // iappend's choice of block for file block fbn.
    method ClaimBlock(i: int, fbn: int) returns (addr: int)
      requires Sound() && 0 <= i < |inodes| && 0 <= fbn < MAXFILE
      modifies this`blocks, this`inodes, this`freeblock, this`marks, this`owner
      ensures addr >= 0 ==>
        && Sound() && Grown(g, old(V()), V(), i)
        && MappedBlock(g, V(), i, fbn) && Slot(g, V(), i, DataSlot(fbn)) == addr && Paid(g, old(V()), V(), i, fbn, fbn)
      ensures addr < 0 <==> g.size - old(freeblock) < Need(g, old(V()), i, fbn, fbn)
    {
      hide Owned, FirstBits, OneFilled, Need, Filled, FreeCount, Keeps, OtherSlots;
      ghost var v := V();
      OwnedShape(g, v, owner);
      NeedOne(g, v, i, fbn);
      FirstBitsCount(marks, freeblock, g.size);
      if fbn < NDIRECT {
        addr := Claim(i, fbn);
        if addr < 0 { return; }
        DirectFilled(g, v, V(), i, fbn);
      } else {
        addr := Claim(i, NDIRECT);
        if addr < 0 { return; }
        ghost var u := V();
        OwnedShape(g, u, owner);
        assert Slot(g, u, i, NDIRECT) == inodes[i].addrs[NDIRECT];
        OtherSlot(g, v, u, i, NDIRECT, fbn + 1);
        addr := Claim(i, fbn + 1);
        if addr < 0 { return; }
        GrownTransitive(g, v, u, V(), i);
        EntryFilled(g, v, u, V(), i, fbn);
      }
      FirstBitsCount(marks, freeblock, g.size);
      OwnedShape(g, V(), owner);
    }

    // One round of iappend's loop; then `next` bytes of p are in the file.
    method AppendNext(i: int, p: seq<byte>, start: int, tot: int, ghost c: seq<byte>) returns (ok: bool, next: int)
      requires Sound() && 0 <= i < |inodes| && 0 <= tot < |p| && start == |c|
      requires Holds(g, V(), i, Progress(c, |c|, p, tot)) && Tight(g, V(), i, |c| + tot)
      modifies this`blocks, this`inodes, this`freeblock, this`marks, this`owner
      ensures tot < next <= |p| && (next == |p| || (start + next) % BSIZE == 0)
      ensures (start + next - 1) / BSIZE == (start + tot) / BSIZE
      ensures ok ==>
        && Sound() && Written(g, old(V()), V(), i)
        && Holds(g, V(), i, Progress(c, |c|, p, next)) && Tight(g, V(), i, |c| + next)
        && Paid(g, old(V()), V(), i, (start + tot) / BSIZE, (start + tot) / BSIZE)
      ensures ok <==> (start + tot) / BSIZE < MAXFILE &&
                      g.size - old(freeblock) >= Need(g, old(V()), i, (start + tot) / BSIZE, (start + tot) / BSIZE)
    {
      hide Owned, Holds, Tight, FirstBits, Spliced, Progress, Written, Slot, Grown, SameSlots, Paid, Need;
      ghost var v := V();
      OwnedShape(g, v, owner);
      var off := start + tot;
      PieceEnd(start, |p|, tot);
      var fbn := off / BSIZE;
      var n1 := Min(|p| - tot, (fbn + 1) * BSIZE - off);
      next := tot + n1;
      if fbn >= MAXFILE { return false, next; }
      var x := ClaimBlock(i, fbn);
      if x < 0 { return false, next; }
      ghost var u, s, t := V(), Progress(c, |c|, p, tot), Progress(c, |c|, p, next);
      assert Spliced(s, off, p[tot..next]) == t by { SpliceStep(c, |c|, p, tot, next); }
      PieceWritten(g, v, u, owner, i, s, off, p[tot..next]);
      TakenSlot(g, u, owner, i, DataSlot(fbn), freeblock);
      blocks := blocks[x := SpliceBlock(blocks[x], off % BSIZE, p[tot..next])];
      TightNext(g, v, u, V(), i, fbn, off, start + next);
      PaidSame(g, v, u, V(), i, fbn, fbn);
      ok := true;
    }

    // iappend's loop.
    method AppendLoop(i: int, p: seq<byte>, start: int, ghost v: Vol, ghost c: seq<byte>) returns (ok: bool)
      requires Sound() && v == V() && 0 <= i < |inodes| && start == |c|
      requires Holds(g, V(), i, Progress(c, |c|, p, 0)) && Tight(g, V(), i, |c|)
      modifies this`blocks, this`inodes, this`freeblock, this`marks, this`owner
      ensures ok ==>
        && Sound() && Written(g, v, V(), i)
        && Holds(g, V(), i, Progress(c, |c|, p, |p|)) && Tight(g, V(), i, |c| + |p|)
      ensures |c| + |p| <= MAXFILE * BSIZE ==> (ok <==> g.size - old(freeblock) >= NeedFor(g, v, i, start, |p|))
    {
      hide Owned, FirstBits, Progress, Tight, Holds, KeepsBlock, Paid, Need, FreeCount;
      OwnedShape(g, v, owner);
      WrittenSame(g, v, i);
      FirstBitsCount(marks, freeblock, g.size);
      ghost var fits, b, lo, hi := |c| + |p| <= MAXFILE * BSIZE, start / BSIZE, start / BSIZE, (start + |p| - 1) / BSIZE;
      if fits { PaidNone(g, v, i, b); }
      var tot := 0;
      while tot < |p|
        invariant 0 <= tot <= |p| && Sound() && Written(g, v, V(), i)
        invariant Holds(g, V(), i, Progress(c, |c|, p, tot)) && Tight(g, V(), i, |c| + tot)
        invariant fits ==> Paid(g, v, V(), i, lo, b - 1) && lo <= b
        invariant if tot < |p| then b == (start + tot) / BSIZE else |p| > 0 ==> b - 1 == hi
        decreases |p| - tot
      {
        ghost var u := V();
        FirstBitsCount(marks, freeblock, g.size);
        var next;
        ok, next := AppendNext(i, p, start, tot, c);
        if !ok {
          if fits { PaidShort(g, v, u, i, lo, b - 1, b, b, hi); }
          return;
        }
        WrittenTransitive(g, v, u, V(), i);
        if fits { PaidMore(g, v, u, V(), i, lo, b - 1, b, b); }
        b := b + 1;
        tot := next;
      }
      if fits { PaidFits(g, v, V(), i, lo, b - 1); }
      ok := true;
    }

    // iappend: the file's contents grow by p; false exactly when the file or the image has no room for them.
    method Iappend(i: int, p: seq<byte>) returns (ok: bool)
      requires Valid() && 0 <= i < freeinode
      modifies this`blocks, this`inodes, this`freeblock, this`marks, this`owner
      ensures ok ==>
        && Valid() && |inodes| == |old(inodes)| && Contents(g, V(), i) == old(Contents(g, V(), i)) + p
        && inodes[i].typ == old(inodes)[i].typ
        && forall j :: 0 <= j < |inodes| && j != i ==>
             inodes[j] == old(inodes)[j] && Contents(g, V(), j) == Contents(g, old(V()), j)
      ensures ok <==> old(inodes)[i].size + |p| <= MAXFILE * BSIZE &&
                      g.size - old(freeblock) >= NeedFor(g, old(V()), i, old(inodes)[i].size, |p|)
    {
      hide Owned, FirstBits, Progress, Tight, Holds, Contents, KeepsBlock, NeedFor;
      ghost var v, c := V(), Contents(g, V(), i);
      var start := inodes[i].size;
      NothingWritten(g, v, i, start, p);
      assert Tight(g, v, i, inodes[i].size);
      ok := AppendLoop(i, p, start, v, c);
      if !ok || start + |p| > MAXFILE * BSIZE { return false; }
      ghost var u := V();
      AppendDone(g, v, u, owner, i, p);
      inodes := inodes[i := Inode(inodes[i].typ, start + |p|, inodes[i].addrs)];
      assert V() == Resized(u, i, v.inodes[i].size + |p|);
    }

    // The end of main: round the root directory's size up and write the bitmap.  The image owns
    // its blocks exactly.  It has no holes if and only if the root directory did not end on a
    // block boundary: otherwise the rounding adds a block that was never allocated.
    method Finish(root: int) returns (v: Vol)
      requires Valid() && 0 <= root < |inodes|
      modifies this`inodes
      ensures v.blocks == blocks && (old(inodes)[root].size < MAXFILE * BSIZE ==> Owned(g, v, owner))
      ensures v.inodes == old(inodes)[root := Inode(old(inodes)[root].typ, (old(inodes)[root].size / BSIZE + 1) * BSIZE, old(inodes)[root].addrs)]
      ensures NoHoles(g, v) <==> old(inodes)[root].size % BSIZE != 0
    {
      hide Owned, NoHoles, FirstBits, Tight;
      OwnedShape(g, V(), owner);
      var off := inodes[root].size;
      ghost var u := V();
      assert Tight(g, u, root, inodes[root].size);
      if off < MAXFILE * BSIZE { RoundedRoot(g, u, owner, root); }
      inodes := inodes[root := Inode(inodes[root].typ, (off / BSIZE + 1) * BSIZE, inodes[root].addrs)];
      var bmap := Balloc(freeblock);
      v := Vol(blocks, bmap, inodes);
      SameFirstBits(bmap, marks, freeblock, 8 * BSIZE, g.size);
      if off < MAXFILE * BSIZE {
        SameBits(g, V(), v, owner);
      } else {
        TooLarge(g, v, root);
      }
    }
  }

  // balloc: a bitmap block with exactly the first `used` bits set.
  method Balloc(used: int) returns (buf: seq<Bits>)
    requires 0 <= used < 8 * BSIZE
    ensures |buf| == BSIZE && FirstBits(buf, used, 8 * BSIZE)
  {
    buf := seq(BSIZE, _ => [false, false, false, false, false, false, false, false]);
    var i := 0;
    while i < used
      invariant 0 <= i <= used && |buf| == BSIZE && FirstBits(buf, i, 8 * BSIZE)
    {
      NextMark(buf, i, 8 * BSIZE);
      buf := SetBit(buf, i);
      i := i + 1;
    }
  }

  lemma SameBits(g: Layout, v: Vol, w: Vol, owner: map<int, (int, int)>)
    requires Owned(g, v, owner) && w.blocks == v.blocks && w.inodes == v.inodes && g.size <= 8 * |w.bmap|
    requires forall b :: 0 <= b < g.size ==> Bit(w.bmap, b) == Bit(v.bmap, b)
    ensures Owned(g, w, owner) && (NoHoles(g, w) <==> NoHoles(g, v))
  {
    assert SameSlots(g, v, w);
    forall i | 0 <= i < |v.inodes| ensures Mapped(g, w, i, w.inodes[i].size) <==> Mapped(g, v, i, v.inodes[i].size) {
      assert forall bn :: MappedBlock(g, w, i, bn) <==> MappedBlock(g, v, i, bn);
    }
  }

  lemma RoundedRoot(g: Layout, u: Vol, owner: map<int, (int, int)>, root: int)
    requires Owned(g, u, owner) && NoHoles(g, u) && 0 <= root < |u.inodes|
    requires Tight(g, u, root, u.inodes[root].size) && u.inodes[root].size < MAXFILE * BSIZE
    ensures var w := Resized(u, root, (u.inodes[root].size / BSIZE + 1) * BSIZE);
      Owned(g, w, owner) && (NoHoles(g, w) <==> u.inodes[root].size % BSIZE != 0)
  {
    var size := u.inodes[root].size;
    var w := Resized(u, root, (size / BSIZE + 1) * BSIZE);
    ResizedKeeps(g, u, owner, root, (size / BSIZE + 1) * BSIZE);
    var last := size / BSIZE;
    assert MappedBlock(g, w, root, last) <==> size % BSIZE != 0 by {
      assert Slot(g, w, root, DataSlot(last)) == Slot(g, u, root, DataSlot(last));
      if size % BSIZE != 0 { assert MappedBlock(g, u, root, last); }
    }
    forall i | 0 <= i < |w.inodes| && i != root ensures Mapped(g, w, i, w.inodes[i].size) {
      forall bn | 0 <= bn && bn * BSIZE < u.inodes[i].size ensures MappedBlock(g, w, i, bn) {
        assert Mapped(g, u, i, u.inodes[i].size) && MappedBlock(g, u, i, bn) && KeepsBlock(g, u, w, i, bn);
      }
    }
    forall bn | 0 <= bn < last ensures MappedBlock(g, w, root, bn) {
      assert MappedBlock(g, u, root, bn) && KeepsBlock(g, u, w, root, bn);
    }
  }

  // A full root directory is rounded past the largest file.
  lemma TooLarge(g: Layout, v: Vol, root: int)
    requires 0 <= root < |v.inodes| && v.inodes[root].size > MAXFILE * BSIZE
    ensures !NoHoles(g, v)
  {
  }

  // The first block of an empty file takes one block.
  lemma FirstBlock(g: Layout, v: Vol, i: int, typ: int)
    requires Shape(g, v) && 0 <= i < |v.inodes| && v.inodes[i] == Blank(typ)
    ensures NeedFor(g, v, i, 0, BSIZE) == 1
  {
    NeedOne(g, v, i, 0);
  }

  // It happens: on the layout mkfs uses, a root directory of 32 entries fills one block, and rounding its size
  // up leaves a hole in an image that had none.
  method RoundingLeavesAHole() returns (v: Vol)
    ensures !NoHoles(Layout(1000, 59), v)
    ensures |v.inodes| == NINODES && v.inodes[1].size == 2 * BSIZE
  {
    hide Owned, NoHoles, FirstBits, NeedFor, Tight, Contents;
    var b := new Builder(Layout(1000, 59));
    var root := b.Ialloc(1);
    OwnedShape(b.g, b.V(), b.owner);
    FirstBlock(b.g, b.V(), root, 1);
    var ok := b.Iappend(root, Zeros(BSIZE));
    assert b.inodes[root].size == 512;
    v := b.Finish(root);
  }

  lemma WrittenSame(g: Layout, v: Vol, i: int)
    requires Shape(g, v) && 0 <= i < |v.inodes|
    ensures Written(g, v, v, i)
  {
  }

  lemma AppendDone(g: Layout, v: Vol, u: Vol, owner: map<int, (int, int)>, i: int, p: seq<byte>)
    requires NoHoles(g, v) && Owned(g, u, owner) && Written(g, v, u, i) && v.inodes[i].size + |p| <= MAXFILE * BSIZE
    requires forall j :: 0 <= j < |v.inodes| ==> Tight(g, v, j, v.inodes[j].size)
    requires var c := Contents(g, v, i); Holds(g, u, i, Progress(c, |c|, p, |p|)) && Tight(g, u, i, |c| + |p|)
    ensures var w := Resized(u, i, v.inodes[i].size + |p|);
      && Owned(g, w, owner) && NoHoles(g, w)
      && Contents(g, w, i) == Contents(g, v, i) + p
      && (forall j :: 0 <= j < |w.inodes| ==> Tight(g, w, j, w.inodes[j].size))
      && forall j :: 0 <= j < |w.inodes| && j != i ==> Contents(g, w, j) == Contents(g, v, j)
  {
    hide Owned, Holds, Tight, Spliced, Progress, KeepsBlock;
    var c := Contents(g, v, i);
    SplicedEnd(c, p);
    WriteDone(g, v, u, owner, i, p, |c|);
    ResizedKeeps(g, u, owner, i, |c| + |p|);
    var w := Resized(u, i, |c| + |p|);
    forall j | 0 <= j < |w.inodes| ensures Tight(g, w, j, w.inodes[j].size) {
      if j != i { OtherTight(g, v, u, w, i, j); } else { TightSame(g, u, w, i, |c| + |p|); }
    }
  }

  lemma TightNext(g: Layout, v: Vol, u: Vol, w: Vol, i: int, fbn: int, n: int, n': int)
    requires Shape(g, v) && 0 <= i < |v.inodes| && Tight(g, v, i, n) && SameSlots(g, u, w) && |u.inodes| == |v.inodes|
    requires Paid(g, v, u, i, fbn, fbn)
    requires n <= n' && fbn * BSIZE < n'
    ensures Tight(g, w, i, n')
  {
    hide Slot, Shape, Need;
    forall bn | 0 <= bn < MAXFILE && Slot(g, w, i, DataSlot(bn)) != 0 ensures bn * BSIZE < n' {
      assert Slot(g, w, i, DataSlot(bn)) == Slot(g, u, i, DataSlot(bn));
      assert Serves(DataSlot(bn), fbn, fbn) ==> bn == fbn;
    }
  }

  lemma SplicedEnd(c: seq<byte>, p: seq<byte>)
    ensures Progress(c, |c|, p, |p|) == Spliced(c, |c|, p) == c + p
  {
    assert p[..|p|] == p;
  }

  lemma TightSame(g: Layout, u: Vol, w: Vol, i: int, n: int)
    requires SameSlots(g, u, w) && 0 <= i < |u.inodes| && Tight(g, u, i, n)
    ensures Tight(g, w, i, n)
  {
    forall bn | 0 <= bn < MAXFILE && Slot(g, w, i, DataSlot(bn)) != 0 ensures bn * BSIZE < n {
      assert Slot(g, w, i, DataSlot(bn)) == Slot(g, u, i, DataSlot(bn));
    }
  }

  lemma OtherTight(g: Layout, v: Vol, u: Vol, w: Vol, i: int, j: int)
    requires Written(g, v, u, i) && SameSlots(g, u, w) && 0 <= j < |v.inodes| && j != i
    requires Tight(g, v, j, v.inodes[j].size)
    ensures Tight(g, w, j, v.inodes[j].size)
  {
    forall bn | 0 <= bn < MAXFILE && Slot(g, w, j, DataSlot(bn)) != 0 ensures bn * BSIZE < v.inodes[j].size {
      assert Slot(g, w, j, DataSlot(bn)) == Slot(g, u, j, DataSlot(bn)) == Slot(g, v, j, DataSlot(bn));
    }
  }

  lemma TakeFacts(g: Layout, v: Vol, owner: map<int, (int, int)>, i: int, k: int, b: int)
    requires Owned(g, v, owner) && 0 <= b < g.size && !Bit(v.bmap, b)
    requires 0 <= i < |v.inodes| && 0 <= k < NSLOTS && Slot(g, v, i, k) == 0
    requires k > NDIRECT ==> 0 < v.inodes[i].addrs[NDIRECT] < |v.blocks|
    ensures var w := PutSlot(g, Fresh(g, v, b), i, k, b);
      && g.nmeta <= b && Owned(g, w, owner[b := (i, k)]) && Grown(g, v, w, i)
      && forall l :: 0 <= l < NSLOTS ==> Slot(g, w, i, l) == if l == k then b else Slot(g, v, i, l)
  {
    FreshFacts(g, v, owner, b);
    PutSlotOwned(g, v, owner, i, k, b);
    PutSlotGrows(g, v, owner, i, k, b);
  }

  // A block in use is below freeblock.
  lemma TakenSlot(g: Layout, v: Vol, owner: map<int, (int, int)>, i: int, k: int, used: int)
    requires Owned(g, v, owner) && FirstBits(v.bmap, used, g.size)
    requires 0 <= i < |v.inodes| && 0 <= k < NSLOTS && Slot(g, v, i, k) != 0
    ensures Slot(g, v, i, k) < used
  {
    SlotOwned(g, v, owner, i, k);
  }

  lemma {:induction false} FirstBitsCount(bmap: seq<Bits>, used: int, size: nat)
    requires FirstBits(bmap, used, size) && 0 <= used <= size
    ensures FreeCount(bmap, size) == size - used
  {
    if size > 0 {
      if used == size { FreeCountFull(bmap, size); } else { FirstBitsCount(bmap, used, size - 1); }
    }
  }

  lemma SameFirstBits(a: seq<Bits>, b: seq<Bits>, used: int, n: int, m: int)
    requires FirstBits(a, used, n) && FirstBits(b, used, m) && m <= n
    ensures forall c :: 0 <= c < m ==> Bit(a, c) == Bit(b, c)
  {
  }

  lemma NextMark(bmap: seq<Bits>, b: int, size: int)
    requires FirstBits(bmap, b, size) && 0 <= b < size <= 8 * |bmap|
    ensures FirstBits(SetBit(bmap, b), b + 1, size)
  {
    forall c | 0 <= c < size ensures Bit(SetBit(bmap, b), c) <==> c < b + 1 { SetBitAt(bmap, b, c); }
  }

  // An indirect block is below freeblock, so writing it leaves the free blocks zero.
  lemma IndirectIsTaken(g: Layout, v: Vol, owner: map<int, (int, int)>, i: int)
    requires Owned(g, v, owner) && 0 <= i < |v.inodes|
    ensures v.inodes[i].addrs[NDIRECT] != 0 ==> Bit(v.bmap, v.inodes[i].addrs[NDIRECT])
  {
    assert Slot(g, v, i, NDIRECT) == v.inodes[i].addrs[NDIRECT];
    if v.inodes[i].addrs[NDIRECT] != 0 { SlotOwned(g, v, owner, i, NDIRECT); }
  }

  ghost function Marks(used: int): (m: seq<Bits>)
    ensures |m| == BSIZE
  {
    seq(BSIZE, i => [8 * i < used, 8 * i + 1 < used, 8 * i + 2 < used, 8 * i + 3 < used,
                     8 * i + 4 < used, 8 * i + 5 < used, 8 * i + 6 < used, 8 * i + 7 < used])
  }

  lemma MarksAre(used: int, size: int)
    requires size <= 8 * BSIZE
    ensures FirstBits(Marks(used), used, size)
  {
    forall b | 0 <= b < size ensures Bit(Marks(used), b) <==> b < used {
      assert b == 8 * (b / 8) + b % 8;
    }
  }

  lemma RetypeKeeps(g: Layout, v: Vol, owner: map<int, (int, int)>, i: int, typ: int)
    requires Owned(g, v, owner) && NoHoles(g, v) && 0 <= i < |v.inodes| && v.inodes[i] == Blank(0)
    requires forall j :: 0 <= j < |v.inodes| ==> Tight(g, v, j, v.inodes[j].size)
    ensures var w := Vol(v.blocks, v.bmap, v.inodes[i := Blank(typ)]);
      && Owned(g, w, owner) && NoHoles(g, w)
      && forall j :: 0 <= j < |w.inodes| ==> Tight(g, w, j, w.inodes[j].size)
  {
    var w := Vol(v.blocks, v.bmap, v.inodes[i := Blank(typ)]);
    assert SameSlots(g, v, w);
    forall j | 0 <= j < |w.inodes| ensures Mapped(g, w, j, w.inodes[j].size) && Tight(g, w, j, w.inodes[j].size) {
      assert Mapped(g, v, j, v.inodes[j].size) && Tight(g, v, j, v.inodes[j].size);
      assert forall bn :: MappedBlock(g, v, j, bn) ==> MappedBlock(g, w, j, bn);
    }
  }
}
