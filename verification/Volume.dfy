// The on-disk structures of the file layer (fs.h, fs.c) as values: blocks of bytes, the free
// bitmap, inodes with direct and indirect block numbers, and what they mean.
module Volume {

  const BSIZE: int := 512
  const NDIRECT: int := 12
  const NINDIRECT: int := 128
  const MAXFILE: int := NDIRECT + NINDIRECT
  const NSLOTS: int := NDIRECT + 1 + NINDIRECT

  type byte = x: int | 0 <= x < 256
  type Block = b: seq<byte> | |b| == BSIZE witness seq(BSIZE, _ => 0)

  function Zeros(n: nat): (z: seq<byte>)
    ensures |z| == n && forall i :: 0 <= i < n ==> z[i] == 0
  {
    if n == 0 then [] else Zeros(n - 1) + [0]
  }

  function ZeroBlock(): (z: Block)
    ensures forall i :: 0 <= i < BSIZE ==> z[i] == 0
  {
    Zeros(BSIZE)
  }

  // ---- Words: (uint*)bp->data, little endian ----

  function Word(b: Block, j: int): (w: int)
    requires 0 <= j < NINDIRECT
    ensures 0 <= w < 0x1_0000_0000
  {
    b[4 * j] as int + 0x100 * (b[4 * j + 1] as int) + 0x1_0000 * (b[4 * j + 2] as int) + 0x100_0000 * (b[4 * j + 3] as int)
  }

  function SetWord(b: Block, j: int, w: int): (r: Block)
    requires 0 <= j < NINDIRECT && 0 <= w < 0x1_0000_0000
  {
    b[4 * j := w % 0x100][4 * j + 1 := (w / 0x100) % 0x100][4 * j + 2 := (w / 0x1_0000) % 0x100][4 * j + 3 := w / 0x100_0000]
  }

  lemma SplitWord(w: int)
    requires 0 <= w < 0x1_0000_0000
    ensures w == w % 0x100 + 0x100 * ((w / 0x100) % 0x100) + 0x1_0000 * ((w / 0x1_0000) % 0x100) + 0x100_0000 * (w / 0x100_0000)
  {
    var a := w / 0x100;
    var c := a / 0x100;
    assert w / 0x1_0000 == c && w / 0x100_0000 == c / 0x100;
  }

  lemma SetWordAt(b: Block, j: int, w: int, k: int)
    requires 0 <= j < NINDIRECT && 0 <= w < 0x1_0000_0000 && 0 <= k < NINDIRECT
    ensures Word(SetWord(b, j, w), k) == if k == j then w else Word(b, k)
  {
    SplitWord(w);
  }

  // ---- Bits: a byte of the bitmap is its eight bits; m = 1 << (b % 8) selects one ----

  type Bits = x: seq<bool> | |x| == 8 witness [false, false, false, false, false, false, false, false]

  // Block b is marked in use.
  predicate Bit(bmap: seq<Bits>, b: int) {
    0 <= b / 8 < |bmap| && bmap[b / 8][b % 8]
  }

  // Marks block b in use.
  function SetBit(bmap: seq<Bits>, b: int): seq<Bits>
    requires 0 <= b / 8 < |bmap|
  {
    bmap[b / 8 := bmap[b / 8][b % 8 := true]]
  }

  // Marks block b free.
  function ClearBit(bmap: seq<Bits>, b: int): seq<Bits>
    requires 0 <= b / 8 < |bmap|
  {
    bmap[b / 8 := bmap[b / 8][b % 8 := false]]
  }

  // Marking and unmarking touch exactly the one block's bit.
  lemma SetBitAt(bmap: seq<Bits>, b: int, c: int)
    requires 0 <= b / 8 < |bmap|
    ensures Bit(SetBit(bmap, b), c) <==> c == b || Bit(bmap, c)
  {
    assert c / 8 == b / 8 && c % 8 == b % 8 ==> c == b;
  }

  lemma ClearBitAt(bmap: seq<Bits>, b: int, c: int)
    requires 0 <= b / 8 < |bmap|
    ensures Bit(ClearBit(bmap, b), c) <==> c != b && Bit(bmap, c)
  {
    assert c / 8 == b / 8 && c % 8 == b % 8 ==> c == b;
  }

  // ---- Inodes, block slots and ownership ----

  datatype Inode = Inode(typ: int, size: int, addrs: seq<int>)

  // sb.size and the first block after the metadata.
  datatype Layout = Layout(size: int, nmeta: int)

  datatype Vol = Vol(blocks: seq<Block>, bmap: seq<Bits>, inodes: seq<Inode>)

  predicate Shape(g: Layout, v: Vol) {
    && 1 <= g.nmeta <= g.size <= |v.blocks| && g.size <= 8 * |v.bmap| && g.size < 0x1_0000_0000
    && forall i :: 0 <= i < |v.inodes| ==> |v.inodes[i].addrs| == NDIRECT + 1 && 0 <= v.inodes[i].size <= MAXFILE * BSIZE
  }

  // An inode's block slots: 0..11 direct, 12 the indirect block, 13+j entry j of that block.
  function SlotAt(blocks: seq<Block>, ip: Inode, k: int): int
    requires |ip.addrs| == NDIRECT + 1 && 0 <= k < NSLOTS
  {
    if k <= NDIRECT then ip.addrs[k]
    else if 0 < ip.addrs[NDIRECT] < |blocks| then Word(blocks[ip.addrs[NDIRECT]], k - NDIRECT - 1)
    else 0
  }

  function Slot(g: Layout, v: Vol, i: int, k: int): int
    requires Shape(g, v) && 0 <= i < |v.inodes| && 0 <= k < NSLOTS
  {
    SlotAt(v.blocks, v.inodes[i], k)
  }

  // The slot of the bn-th data block of a file.
  function DataSlot(bn: int): int { if bn < NDIRECT then bn else bn + 1 }

  // Every block named by a slot is a data block, named by that slot alone; and the bitmap marks
  // exactly the metadata and the named blocks.
  ghost predicate Owned(g: Layout, v: Vol, owner: map<int, (int, int)>) {
    && Shape(g, v)
    && (forall i, k :: 0 <= i < |v.inodes| && 0 <= k < NSLOTS && Slot(g, v, i, k) != 0 ==>
          Slot(g, v, i, k) in owner && owner[Slot(g, v, i, k)] == (i, k))
    && (forall b :: b in owner ==>
          && g.nmeta <= b < g.size
          && 0 <= owner[b].0 < |v.inodes| && 0 <= owner[b].1 < NSLOTS
          && Slot(g, v, owner[b].0, owner[b].1) == b)
    && (forall b :: 0 <= b < g.size ==> (Bit(v.bmap, b) <==> b < g.nmeta || b in owner))
  }

  lemma SlotOwned(g: Layout, v: Vol, owner: map<int, (int, int)>, i: int, k: int)
    requires Owned(g, v, owner) && 0 <= i < |v.inodes| && 0 <= k < NSLOTS && Slot(g, v, i, k) != 0
    ensures var a := Slot(g, v, i, k); a in owner && owner[a] == (i, k) && g.nmeta <= a < g.size && Bit(v.bmap, a)
  {
  }

  // No block is reachable from two slots, of one inode or of two.
  lemma OneSlotPerBlock(g: Layout, v: Vol, owner: map<int, (int, int)>, i: int, k: int, j: int, l: int)
    requires Owned(g, v, owner)
    requires 0 <= i < |v.inodes| && 0 <= k < NSLOTS && 0 <= j < |v.inodes| && 0 <= l < NSLOTS
    requires Slot(g, v, i, k) != 0 && Slot(g, v, i, k) == Slot(g, v, j, l)
    ensures (i, k) == (j, l)
  {
    SlotOwned(g, v, owner, i, k);
    SlotOwned(g, v, owner, j, l);
  }

  // ---- Files as byte sequences ----

  predicate MappedBlock(g: Layout, v: Vol, i: int, bn: int)
    requires Shape(g, v) && 0 <= i < |v.inodes|
  {
    0 <= bn < MAXFILE && 0 < Slot(g, v, i, DataSlot(bn)) < |v.blocks|
  }

  // The byte at offset off, where the file has a block.
  function ByteAt(g: Layout, v: Vol, i: int, off: int): byte
    requires Shape(g, v) && 0 <= i < |v.inodes| && 0 <= off && MappedBlock(g, v, i, off / BSIZE)
  {
    v.blocks[Slot(g, v, i, DataSlot(off / BSIZE))][off % BSIZE]
  }

  // The file has blocks for its first n bytes.
  ghost predicate Mapped(g: Layout, v: Vol, i: int, n: int)
    requires Shape(g, v) && 0 <= i < |v.inodes|
  {
    forall bn :: 0 <= bn && bn * BSIZE < n ==> MappedBlock(g, v, i, bn)
  }

  ghost predicate NoHoles(g: Layout, v: Vol) {
    Shape(g, v) && forall i :: 0 <= i < |v.inodes| ==> Mapped(g, v, i, v.inodes[i].size)
  }

  lemma MappedAt(g: Layout, v: Vol, i: int, n: int, off: int)
    requires Shape(g, v) && 0 <= i < |v.inodes| && Mapped(g, v, i, n) && 0 <= off < n
    ensures MappedBlock(g, v, i, off / BSIZE)
  {
    assert (off / BSIZE) * BSIZE <= off;
  }

  // What the file holds.
  ghost function Contents(g: Layout, v: Vol, i: int): (s: seq<byte>)
    requires Shape(g, v) && 0 <= i < |v.inodes| && Mapped(g, v, i, v.inodes[i].size)
    ensures |s| == v.inodes[i].size
  {
    Prefix(g, v, i, v.inodes[i].size)
  }

  ghost function Prefix(g: Layout, v: Vol, i: int, n: int): (s: seq<byte>)
    requires Shape(g, v) && 0 <= i < |v.inodes| && 0 <= n && Mapped(g, v, i, n)
    ensures |s| == n
  {
    if n == 0 then []
    else
      MappedAt(g, v, i, n, n - 1);
      assert Mapped(g, v, i, n - 1);
      Prefix(g, v, i, n - 1) + [ByteAt(g, v, i, n - 1)]
  }

  lemma {:induction false} PrefixAt(g: Layout, v: Vol, i: int, n: int, off: int)
    requires Shape(g, v) && 0 <= i < |v.inodes| && 0 <= off < n && Mapped(g, v, i, n)
    ensures MappedBlock(g, v, i, off / BSIZE) && Prefix(g, v, i, n)[off] == ByteAt(g, v, i, off)
  {
    MappedAt(g, v, i, n, off);
    assert Mapped(g, v, i, n - 1);
    if off < n - 1 { PrefixAt(g, v, i, n - 1, off); }
  }

  // The file's bytes are where the block map says.
  lemma ContentsAt(g: Layout, v: Vol, i: int, off: int)
    requires Shape(g, v) && 0 <= i < |v.inodes| && Mapped(g, v, i, v.inodes[i].size) && 0 <= off < v.inodes[i].size
    ensures MappedBlock(g, v, i, off / BSIZE) && Contents(g, v, i)[off] == ByteAt(g, v, i, off)
  {
    PrefixAt(g, v, i, v.inodes[i].size, off);
  }

  // ---- How the volume changes ----

  // balloc: mark b and zero it.
  function Fresh(g: Layout, v: Vol, b: int): (r: Vol)
    requires Shape(g, v) && 0 <= b < g.size
    ensures Shape(g, r)
  {
    Vol(v.blocks[b := ZeroBlock()], SetBit(v.bmap, b), v.inodes)
  }

  // Store block number b in slot k of inode i.
  function PutSlot(g: Layout, v: Vol, i: int, k: int, b: int): (r: Vol)
    requires Shape(g, v) && 0 <= i < |v.inodes| && 0 <= k < NSLOTS && 0 <= b < g.size
    requires k > NDIRECT ==> 0 < v.inodes[i].addrs[NDIRECT] < |v.blocks|
    ensures Shape(g, r)
  {
    if k <= NDIRECT then Vol(v.blocks, v.bmap, v.inodes[i := WithAddr(v.inodes[i], k, b)])
    else Vol(WithWord(v.blocks, v.inodes[i].addrs[NDIRECT], k - NDIRECT - 1, b), v.bmap, v.inodes)
  }

  function WithAddr(ip: Inode, k: int, b: int): Inode
    requires 0 <= k < |ip.addrs|
  {
    Inode(ip.typ, ip.size, ip.addrs[k := b])
  }

  function WithWord(blocks: seq<Block>, ind: int, j: int, w: int): (r: seq<Block>)
    requires 0 <= ind < |blocks| && 0 <= j < NINDIRECT && 0 <= w < 0x1_0000_0000
    ensures |r| == |blocks|
  {
    blocks[ind := SetWord(blocks[ind], j, w)]
  }

  ghost predicate SameSlots(g: Layout, v: Vol, w: Vol) {
    && Shape(g, v) && Shape(g, w) && |w.inodes| == |v.inodes|
    && forall i, k :: 0 <= i < |v.inodes| && 0 <= k < NSLOTS ==> Slot(g, w, i, k) == Slot(g, v, i, k)
  }

  // A block no slot names can change without changing any slot.
  lemma UnownedChange(g: Layout, v: Vol, owner: map<int, (int, int)>, b: int, x: Block)
    requires Owned(g, v, owner) && 0 <= b < |v.blocks|
    requires b in owner ==> owner[b].1 != NDIRECT
    ensures SameSlots(g, v, Vol(v.blocks[b := x], v.bmap, v.inodes))
  {
    var w := Vol(v.blocks[b := x], v.bmap, v.inodes);
    forall i, k | 0 <= i < |v.inodes| && 0 <= k < NSLOTS ensures Slot(g, w, i, k) == Slot(g, v, i, k) {
      if Slot(g, v, i, NDIRECT) != 0 { SlotOwned(g, v, owner, i, NDIRECT); }
    }
  }

  lemma FreshFacts(g: Layout, v: Vol, owner: map<int, (int, int)>, b: int)
    requires Owned(g, v, owner) && 0 <= b < g.size && !Bit(v.bmap, b)
    ensures b !in owner && g.nmeta <= b && SameSlots(g, v, Fresh(g, v, b))
    ensures forall c :: 0 <= c < g.size ==> (Bit(Fresh(g, v, b).bmap, c) <==> c == b || c < g.nmeta || c in owner)
  {
    UnownedChange(g, v, owner, b, ZeroBlock());
    var w := Vol(v.blocks[b := ZeroBlock()], v.bmap, v.inodes);
    forall i, k | 0 <= i < |v.inodes| && 0 <= k < NSLOTS ensures Slot(g, Fresh(g, v, b), i, k) == Slot(g, v, i, k) {
      assert Slot(g, w, i, k) == Slot(g, v, i, k);
    }
    forall c | 0 <= c < g.size ensures Bit(Fresh(g, v, b).bmap, c) <==> c == b || c < g.nmeta || c in owner {
      SetBitAt(v.bmap, b, c);
    }
  }

  lemma ZeroWords(j: int)
    requires 0 <= j < NINDIRECT
    ensures Word(ZeroBlock(), j) == 0
  {
  }

  lemma PutAddrAt(g: Layout, f: Vol, i: int, k: int, b: int, j: int, l: int)
    requires Shape(g, f) && 0 <= i < |f.inodes| && 0 <= k <= NDIRECT && 0 <= b < g.size && Slot(g, f, i, k) == 0
    requires 0 <= j < |f.inodes| && 0 <= l < NSLOTS && f.blocks[b] == ZeroBlock()
    ensures Slot(g, PutSlot(g, f, i, k, b), j, l) == if (j, l) == (i, k) then b else Slot(g, f, j, l)
  {
    hide Word, SetWord;
    if k == NDIRECT && j == i && l > NDIRECT { ZeroWords(l - NDIRECT - 1); }
  }

  lemma PutEntryAt(g: Layout, f: Vol, i: int, k: int, b: int, j: int, l: int)
    requires Shape(g, f) && 0 <= i < |f.inodes| && NDIRECT < k < NSLOTS && 0 <= b < g.size
    requires 0 <= j < |f.inodes| && 0 <= l < NSLOTS && 0 < f.inodes[i].addrs[NDIRECT] < |f.blocks|
    requires j != i ==> f.inodes[j].addrs[NDIRECT] != f.inodes[i].addrs[NDIRECT]
    ensures Slot(g, PutSlot(g, f, i, k, b), j, l) == if (j, l) == (i, k) then b else Slot(g, f, j, l)
  {
    hide Word, SetWord;
    if j == i && l > NDIRECT {
      SetWordAt(f.blocks[f.inodes[i].addrs[NDIRECT]], k - NDIRECT - 1, b, l - NDIRECT - 1);
    }
  }

  // Putting the fresh block into an empty slot changes that slot alone.
  lemma PutSlotAt(g: Layout, v: Vol, owner: map<int, (int, int)>, i: int, k: int, b: int, j: int, l: int)
    requires Owned(g, v, owner) && 0 <= b < g.size && !Bit(v.bmap, b)
    requires 0 <= i < |v.inodes| && 0 <= k < NSLOTS && Slot(g, v, i, k) == 0
    requires k > NDIRECT ==> 0 < v.inodes[i].addrs[NDIRECT] < |v.blocks|
    requires 0 <= j < |v.inodes| && 0 <= l < NSLOTS
    ensures Slot(g, PutSlot(g, Fresh(g, v, b), i, k, b), j, l) == if (j, l) == (i, k) then b else Slot(g, v, j, l)
  {
    hide Owned, Word, SetWord, Bit, PutSlot;
    FreshFacts(g, v, owner, b);
    var f := Fresh(g, v, b);
    assert Slot(g, f, j, l) == Slot(g, v, j, l) && Slot(g, f, i, k) == Slot(g, v, i, k);
    if k <= NDIRECT {
      PutAddrAt(g, f, i, k, b, j, l);
    } else {
      var ind := v.inodes[i].addrs[NDIRECT];
      assert Slot(g, v, i, NDIRECT) == ind && Slot(g, v, j, NDIRECT) == v.inodes[j].addrs[NDIRECT];
      SlotOwned(g, v, owner, i, NDIRECT);
      if Slot(g, v, j, NDIRECT) != 0 { SlotOwned(g, v, owner, j, NDIRECT); }
      PutEntryAt(g, f, i, k, b, j, l);
    }
  }

  lemma PutSlotOwned(g: Layout, v: Vol, owner: map<int, (int, int)>, i: int, k: int, b: int)
    requires Owned(g, v, owner) && 0 <= b < g.size && !Bit(v.bmap, b)
    requires 0 <= i < |v.inodes| && 0 <= k < NSLOTS && Slot(g, v, i, k) == 0
    requires k > NDIRECT ==> 0 < v.inodes[i].addrs[NDIRECT] < |v.blocks|
    ensures Owned(g, PutSlot(g, Fresh(g, v, b), i, k, b), owner[b := (i, k)])
  {
    FreshFacts(g, v, owner, b);
    var w := PutSlot(g, Fresh(g, v, b), i, k, b);
    forall j, l | 0 <= j < |v.inodes| && 0 <= l < NSLOTS
      ensures Slot(g, w, j, l) == if (j, l) == (i, k) then b else Slot(g, v, j, l)
    {
      PutSlotAt(g, v, owner, i, k, b, j, l);
    }
  }

  // ---- Files under change ----

  function FileBlock(g: Layout, v: Vol, i: int, bn: int): Block
    requires Shape(g, v) && 0 <= i < |v.inodes| && MappedBlock(g, v, i, bn)
  {
    v.blocks[Slot(g, v, i, DataSlot(bn))]
  }

  // Block bn of file i is still there and unchanged.
  predicate KeepsBlock(g: Layout, v: Vol, w: Vol, i: int, bn: int)
    requires Shape(g, v) && Shape(g, w) && 0 <= i < |v.inodes| && |v.inodes| == |w.inodes|
  {
    MappedBlock(g, v, i, bn) ==> MappedBlock(g, w, i, bn) && FileBlock(g, w, i, bn) == FileBlock(g, v, i, bn)
  }

  ghost predicate Keeps(g: Layout, v: Vol, w: Vol) {
    && Shape(g, v) && Shape(g, w) && |w.inodes| == |v.inodes|
    && forall i, bn :: 0 <= i < |v.inodes| ==> KeepsBlock(g, v, w, i, bn)
  }

  lemma KeepsTransitive(g: Layout, u: Vol, v: Vol, w: Vol)
    requires Keeps(g, u, v) && Keeps(g, v, w)
    ensures Keeps(g, u, w)
  {
    forall i, bn | 0 <= i < |u.inodes| ensures KeepsBlock(g, u, w, i, bn) {
      assert KeepsBlock(g, u, v, i, bn) && KeepsBlock(g, v, w, i, bn);
    }
  }

  // Allocating a block into an empty slot disturbs no file.
  lemma PutSlotKeeps(g: Layout, v: Vol, owner: map<int, (int, int)>, i: int, k: int, b: int)
    requires Owned(g, v, owner) && 0 <= b < g.size && !Bit(v.bmap, b)
    requires 0 <= i < |v.inodes| && 0 <= k < NSLOTS && Slot(g, v, i, k) == 0
    requires k > NDIRECT ==> 0 < v.inodes[i].addrs[NDIRECT] < |v.blocks|
    ensures Keeps(g, v, PutSlot(g, Fresh(g, v, b), i, k, b))
  {
    FreshFacts(g, v, owner, b);
    var w := PutSlot(g, Fresh(g, v, b), i, k, b);
    if k > NDIRECT {
      assert Slot(g, v, i, NDIRECT) == v.inodes[i].addrs[NDIRECT];
      SlotOwned(g, v, owner, i, NDIRECT);
    }
    forall j, bn | 0 <= j < |v.inodes| ensures KeepsBlock(g, v, w, j, bn) {
      if MappedBlock(g, v, j, bn) {
        SlotOwned(g, v, owner, j, DataSlot(bn));
        PutSlotAt(g, v, owner, i, k, b, j, DataSlot(bn));
      }
    }
  }

  function WithBlock(v: Vol, a: int, x: Block): Vol
    requires 0 <= a < |v.blocks|
  {
    Vol(v.blocks[a := x], v.bmap, v.inodes)
  }

  // Storing into a data block changes that block of that file and nothing else.
  lemma WriteBlock(g: Layout, v: Vol, owner: map<int, (int, int)>, i: int, bn: int, x: Block)
    requires Owned(g, v, owner) && 0 <= i < |v.inodes| && MappedBlock(g, v, i, bn)
    ensures var w := WithBlock(v, Slot(g, v, i, DataSlot(bn)), x);
      && Owned(g, w, owner) && SameSlots(g, v, w)
      && MappedBlock(g, w, i, bn) && FileBlock(g, w, i, bn) == x
      && forall j, cn :: 0 <= j < |v.inodes| && (j, cn) != (i, bn) ==> KeepsBlock(g, v, w, j, cn)
  {
    var a := Slot(g, v, i, DataSlot(bn));
    var w := WithBlock(v, a, x);
    SlotOwned(g, v, owner, i, DataSlot(bn));
    UnownedChange(g, v, owner, a, x);
    assert forall j, k :: 0 <= j < |v.inodes| && 0 <= k < NSLOTS ==> Slot(g, w, j, k) == Slot(g, v, j, k);
    forall j, cn | 0 <= j < |v.inodes| && (j, cn) != (i, bn) ensures KeepsBlock(g, v, w, j, cn) {
      if MappedBlock(g, v, j, cn) {
        SlotOwned(g, v, owner, j, DataSlot(cn));
      }
    }
  }

  // The first |s| bytes of file i are s.
  ghost predicate Holds(g: Layout, v: Vol, i: int, s: seq<byte>)
    requires Shape(g, v) && 0 <= i < |v.inodes|
  {
    Mapped(g, v, i, |s|) && Prefix(g, v, i, |s|) == s
  }

  lemma HoldsAt(g: Layout, v: Vol, i: int, s: seq<byte>, off: int)
    requires Shape(g, v) && 0 <= i < |v.inodes| && Holds(g, v, i, s) && 0 <= off < |s|
    ensures MappedBlock(g, v, i, off / BSIZE) && ByteAt(g, v, i, off) == s[off]
  {
    PrefixAt(g, v, i, |s|, off);
  }

  lemma HoldsIntro(g: Layout, v: Vol, i: int, s: seq<byte>)
    requires Shape(g, v) && 0 <= i < |v.inodes| && Mapped(g, v, i, |s|)
    requires forall off :: 0 <= off < |s| ==> MappedBlock(g, v, i, off / BSIZE) && ByteAt(g, v, i, off) == s[off]
    ensures Holds(g, v, i, s)
  {
    var p := Prefix(g, v, i, |s|);
    forall off | 0 <= off < |s| ensures p[off] == s[off] { PrefixAt(g, v, i, |s|, off); }
  }

  lemma HoldsKept(g: Layout, v: Vol, w: Vol, i: int, s: seq<byte>)
    requires Shape(g, v) && Shape(g, w) && |v.inodes| == |w.inodes| && 0 <= i < |v.inodes|
    requires Holds(g, v, i, s) && forall bn :: KeepsBlock(g, v, w, i, bn)
    ensures Holds(g, w, i, s)
  {
    forall bn | 0 <= bn && bn * BSIZE < |s| ensures MappedBlock(g, w, i, bn) {
      assert MappedBlock(g, v, i, bn) && KeepsBlock(g, v, w, i, bn);
    }
    forall off | 0 <= off < |s| ensures MappedBlock(g, w, i, off / BSIZE) && ByteAt(g, w, i, off) == s[off] {
      HoldsAt(g, v, i, s, off);
      assert KeepsBlock(g, v, w, i, off / BSIZE);
    }
    HoldsIntro(g, w, i, s);
  }

  // Overwriting at off, growing the sequence when the data runs past its end.
  function Spliced(s: seq<byte>, off: int, d: seq<byte>): (r: seq<byte>)
    requires 0 <= off <= |s|
    ensures |r| == if off + |d| < |s| then |s| else off + |d|
  {
    s[..off] + d + if off + |d| < |s| then s[off + |d|..] else []
  }

  lemma SplicedTwice(s: seq<byte>, off: int, d: seq<byte>, e: seq<byte>)
    requires 0 <= off <= |s|
    ensures off + |d| <= |Spliced(s, off, d)|
    ensures Spliced(Spliced(s, off, d), off + |d|, e) == Spliced(s, off, d + e)
  {
    var r := Spliced(s, off, d);
    assert r[..off + |d|] == s[..off] + d;
  }

  function SpliceBlock(x: Block, o: int, d: seq<byte>): (r: Block)
    requires 0 <= o && o + |d| <= BSIZE
  {
    x[..o] + d + x[o + |d|..]
  }

  // One block-sized piece of a write.
  lemma HoldsSpliced(g: Layout, v: Vol, w: Vol, i: int, s: seq<byte>, off: int, d: seq<byte>)
    requires Shape(g, v) && Shape(g, w) && |v.inodes| == |w.inodes| && 0 <= i < |v.inodes|
    requires Holds(g, v, i, s) && 0 <= off <= |s| && off % BSIZE + |d| <= BSIZE && |d| > 0
    requires MappedBlock(g, v, i, off / BSIZE) && MappedBlock(g, w, i, off / BSIZE)
    requires FileBlock(g, w, i, off / BSIZE) == SpliceBlock(FileBlock(g, v, i, off / BSIZE), off % BSIZE, d)
    requires forall bn :: bn != off / BSIZE ==> KeepsBlock(g, v, w, i, bn)
    ensures Holds(g, w, i, Spliced(s, off, d))
  {
    var r := Spliced(s, off, d);
    forall bn | 0 <= bn && bn * BSIZE < |r| ensures MappedBlock(g, w, i, bn) {
      if bn != off / BSIZE {
        assert bn * BSIZE < |s|;
        assert MappedBlock(g, v, i, bn) && KeepsBlock(g, v, w, i, bn);
      }
    }
    forall p | 0 <= p < |r| ensures MappedBlock(g, w, i, p / BSIZE) && ByteAt(g, w, i, p) == r[p] {
      SplicedByte(g, v, w, i, s, off, d, p);
    }
    HoldsIntro(g, w, i, r);
  }

  lemma SplicedByte(g: Layout, v: Vol, w: Vol, i: int, s: seq<byte>, off: int, d: seq<byte>, p: int)
    requires Shape(g, v) && Shape(g, w) && |v.inodes| == |w.inodes| && 0 <= i < |v.inodes|
    requires Holds(g, v, i, s) && 0 <= off <= |s| && off % BSIZE + |d| <= BSIZE && |d| > 0
    requires MappedBlock(g, v, i, off / BSIZE) && MappedBlock(g, w, i, off / BSIZE)
    requires FileBlock(g, w, i, off / BSIZE) == SpliceBlock(FileBlock(g, v, i, off / BSIZE), off % BSIZE, d)
    requires forall bn :: bn != off / BSIZE ==> KeepsBlock(g, v, w, i, bn)
    requires 0 <= p < |Spliced(s, off, d)|
    ensures MappedBlock(g, w, i, p / BSIZE) && ByteAt(g, w, i, p) == Spliced(s, off, d)[p]
  {
    var r, bn := Spliced(s, off, d), off / BSIZE;
    if off <= p < off + |d| {
      assert p / BSIZE == bn && p % BSIZE == off % BSIZE + (p - off);
      assert r[p] == d[p - off];
    } else {
      HoldsAt(g, v, i, s, p);
      assert r[p] == s[p];
      if p / BSIZE == bn {
        assert p % BSIZE - off % BSIZE == p - off;
      } else {
        assert KeepsBlock(g, v, w, i, p / BSIZE);
      }
    }
  }
}
