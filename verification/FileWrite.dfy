// filewrite's chunk loop (file.c): a large write becomes several transactions.
module FileWrite {
  import opened Volume
  import opened FreeSpace
  import opened Params
  import opened Sequences
  import opened Files

  const MAXCHUNK: int := ((LOGSIZE - 1 - 1 - 2) / 2) * 512
  const LIMIT: int := MAXFILE * BSIZE

  // The most bytes that whole chunks can fill of m.
  function WholeChunks(m: int): (b: int)
    ensures b <= m || b == 0
    ensures 0 <= b
    decreases m
  {
    if m < MAXCHUNK then 0 else MAXCHUNK + WholeChunks(m - MAXCHUNK)
  }

  datatype FwResult = Wrote(n: int) | Failed | Device | Halted

  // After k bytes of a write of `data` at off, a file that held c holds d.
  ghost predicate WroteSoFar(c: seq<byte>, off: int, data: seq<byte>, k: int, d: seq<byte>) {
    && 0 <= k <= |data|
    && (k == 0 ==> d == c)
    && (k > 0 ==> 0 <= off <= |c| && d == Spliced(c, off, data[..k]))
  }

  // Where a write of n bytes at off stops: at n, or after the last whole chunk that fits.
  function Stop(size: int, off: int, n: int): int {
    if n <= 0 || off > size then 0
    else if off + n <= LIMIT then n
    else if off > LIMIT then 0
    else WholeChunks(LIMIT - off)
  }

  lemma OneMoreChunk(c: seq<byte>, off: int, data: seq<byte>, k: int, next: int, d: seq<byte>, e: seq<byte>)
    requires WroteSoFar(c, off, data, k, d) && k < next <= |data|
    requires 0 <= off && off + k <= |d| && e == Spliced(d, off + k, data[k..next])
    ensures WroteSoFar(c, off, data, next, e)
  {
    if k > 0 {
      SplicedTwice(c, off, data[..k], data[k..next]);
    }
    assert data[..k] + data[k..next] == data[..next];
  }

  // Every file but i is as it was.
  ghost predicate OthersSame(g: Layout, v: Vol, w: Vol, i: int) {
    && NoHoles(g, v) && NoHoles(g, w) && |w.inodes| == |v.inodes|
    && forall j :: 0 <= j < |w.inodes| && j != i ==> w.inodes[j] == v.inodes[j] && Contents(g, w, j) == Contents(g, v, j)
  }

  lemma SameFiles(g: Layout, v: Vol, w: Vol, i: int, off: int, d: seq<byte>)
    requires SplicedFile(g, v, w, i, off, d)
    ensures |w.inodes| == |v.inodes|
  {
  }

  lemma OthersSameTransitive(g: Layout, u: Vol, v: Vol, w: Vol, i: int)
    requires OthersSame(g, u, v, i) && OthersSame(g, v, w, i)
    ensures OthersSame(g, u, w, i)
  {
    hide Mapped, Contents;
    forall j | 0 <= j < |w.inodes| && j != i ensures w.inodes[j] == u.inodes[j] && Contents(g, w, j) == Contents(g, u, j) {
      assert v.inodes[j] == u.inodes[j] && Contents(g, v, j) == Contents(g, u, j);
    }
  }

  // ---- The blocks a write takes, chunk by chunk ----

  // From v to w file i got the blocks it lacked for n bytes at off, paid from the free blocks.
  ghost predicate PaidFor(g: Layout, v: Vol, w: Vol, i: int, off: int, n: int) {
    && Shape(g, v) && Shape(g, w) && 0 <= i < |v.inodes| == |w.inodes|
    && (n <= 0 ==> v == w)
    && (n > 0 ==> Paid(g, v, w, i, off / BSIZE, (off + n - 1) / BSIZE))
  }

  lemma ChunkEdge(off: int, k: int, next: int)
    requires 0 <= off && 0 < k < next
    ensures var e, lo := (off + k - 1) / BSIZE, (off + k) / BSIZE;
      0 <= off / BSIZE <= lo && e <= lo <= e + 1 && e <= (off + next - 1) / BSIZE
  {
  }

  lemma PaidNext(g: Layout, u: Vol, v: Vol, w: Vol, i: int, off: int, k: int, next: int)
    requires PaidFor(g, u, v, i, off, k) && PaidFor(g, v, w, i, off + k, next - k) && 0 <= off && 0 <= k < next
    ensures PaidFor(g, u, w, i, off, next)
  {
    hide Paid;
    if k > 0 {
      ChunkEdge(off, k, next);
      PaidMore(g, u, v, w, i, off / BSIZE, (off + k - 1) / BSIZE, (off + k) / BSIZE, (off + next - 1) / BSIZE);
    }
  }

  // When the chunk from k to next cannot be paid for, neither can any longer write.
  lemma ShortOfBlocks(g: Layout, u: Vol, v: Vol, i: int, off: int, k: int, next: int, n: int)
    requires PaidFor(g, u, v, i, off, k) && 0 <= off && 0 <= k < next <= n && off + n <= LIMIT
    requires FreeCount(v.bmap, g.size) < NeedFor(g, v, i, off + k, next - k)
    ensures FreeCount(u.bmap, g.size) < NeedFor(g, u, i, off, n)
  {
    hide Paid, Need, FreeCount;
    if k > 0 {
      ChunkEdge(off, k, next);
      PaidShort(g, u, v, i, off / BSIZE, (off + k - 1) / BSIZE, (off + k) / BSIZE,
                (off + next - 1) / BSIZE, (off + n - 1) / BSIZE);
    } else {
      NeedGrows(g, u, i, off / BSIZE, (off + next - 1) / BSIZE, (off + n - 1) / BSIZE);
    }
  }

  lemma PaidEnough(g: Layout, v: Vol, w: Vol, i: int, off: int, n: int)
    requires PaidFor(g, v, w, i, off, n) && 0 <= off && off + n <= LIMIT
    ensures FreeCount(v.bmap, g.size) >= NeedFor(g, v, i, off, n)
  {
    hide Paid, Need, FreeCount;
    if n > 0 { PaidFits(g, v, w, i, off / BSIZE, (off + n - 1) / BSIZE); }
  }

  // ---- How many distinct blocks a chunk logs ----

  lemma DataBlocksLast(g: Layout, v: Vol, i: int, lo: int, hi: int)
    requires Shape(g, v) && 0 <= i < |v.inodes| && 0 <= lo <= hi
    ensures DataBlocks(g, v, i, lo, hi) <=
            DataBlocks(g, v, i, lo, hi - 1) + if hi < MAXFILE then {Slot(g, v, i, DataSlot(hi))} else {}
  {
    forall a | a in DataBlocks(g, v, i, lo, hi)
      ensures a in DataBlocks(g, v, i, lo, hi - 1) || (hi < MAXFILE && a == Slot(g, v, i, DataSlot(hi)))
    {
    }
  }

  lemma {:induction false} DataBlocksCount(g: Layout, v: Vol, i: int, lo: int, hi: int)
    requires Shape(g, v) && 0 <= i < |v.inodes| && 0 <= lo
    ensures |DataBlocks(g, v, i, lo, hi)| <= if hi < lo then 0 else hi - lo + 1
    decreases hi - lo
  {
    if hi < lo {
      assert DataBlocks(g, v, i, lo, hi) == {};
    } else {
      DataBlocksCount(g, v, i, lo, hi - 1);
      DataBlocksLast(g, v, i, lo, hi);
      var front, last := DataBlocks(g, v, i, lo, hi - 1), if hi < MAXFILE then {Slot(g, v, i, DataSlot(hi))} else {};
      SubsetSize(DataBlocks(g, v, i, lo, hi), front + last);
    }
  }

  lemma OneMore(a: set<int>, x: int)
    ensures |a + {x}| <= |a| + 1
  {
  }

  // A chunk of at most 13 blocks' worth of bytes touches at most 14 data blocks.
  lemma ChunkSpan(off: int, n: int)
    requires 0 <= off && 0 < n <= MAXCHUNK
    ensures (off + n - 1) / BSIZE - off / BSIZE + 1 <= 14
  {
  }

  // A chunk logs at most 14 data blocks and the indirect block besides the bitmap blocks and the inode's
  // block.  With a single bitmap block that is 17, so one chunk always fits the log.
  lemma ChunkFitsLog(g: Layout, v: Vol, i: int, off: int, n: int, fixed: set<int>, logged: set<int>)
    requires Shape(g, v) && 0 <= i < |v.inodes| && 0 <= off && 0 < n <= MAXCHUNK
    requires logged <= Touched(g, fixed, v, i, off / BSIZE, (off + n - 1) / BSIZE)
    ensures |DataBlocks(g, v, i, off / BSIZE, (off + n - 1) / BSIZE)| <= 14
    ensures |logged| <= 15 + |fixed| && (|fixed| <= 2 ==> |logged| <= 17 < LOGSIZE - 1)
  {
    ChunkSpan(off, n);
    var data := DataBlocks(g, v, i, off / BSIZE, (off + n - 1) / BSIZE);
    DataBlocksCount(g, v, i, off / BSIZE, (off + n - 1) / BSIZE);
    SubsetSize(logged, fixed + Indirect(v, i) + data);
    assert |fixed + Indirect(v, i) + data| <= |fixed + Indirect(v, i)| + |data|;
    assert |fixed + Indirect(v, i)| <= |fixed| + |Indirect(v, i)|;
  }

  ghost function Union(txs: seq<set<int>>): set<int> {
    if txs == [] then {} else Union(txs[..|txs| - 1]) + txs[|txs| - 1]
  }

  // Whatever differs on disk from volume v with inodes d was logged by one of the transactions.
  ghost predicate AllLogged(fs: FileSystem, v: Vol, d: seq<Inode>, txs: seq<set<int>>)
    reads fs
  {
    ChangesIn(fs.g, fs.bmapstart, fs.inodestart, v, fs.V(), d, fs.dinodes, Union(txs))
  }

  ghost predicate ChangesIn(g: Layout, bstart: int, istart: int, v: Vol, w: Vol, d: seq<Inode>, e: seq<Inode>,
                            logged: set<int>) {
    LogsBlocks(g, bstart, v, w, logged) && LogsInodes(istart, d, e, logged)
  }

  lemma NoneLogged(fs: FileSystem, txs: seq<set<int>>)
    ensures AllLogged(fs, fs.V(), fs.dinodes, txs)
  {
  }

  lemma MoreLogged(g: Layout, bstart: int, istart: int, u: Vol, v: Vol, w: Vol, d: seq<Inode>, e: seq<Inode>, f: seq<Inode>,
                   txs: seq<set<int>>, logged: set<int>)
    requires ChangesIn(g, bstart, istart, u, v, d, e, Union(txs))
    requires (v == w && e == f) || ChangesIn(g, bstart, istart, v, w, e, f, logged)
    ensures ChangesIn(g, bstart, istart, u, w, d, f, Union(txs + [logged]))
  {
    var both := Union(txs + [logged]);
    assert (txs + [logged])[..|txs|] == txs;
    assert both == Union(txs) + logged;
    assert LogsBlocks(g, bstart, v, w, both);
    LogsBoth(g, bstart, u, v, w, Union(txs), both);
    forall j | 0 <= j < |d| && f[j] != d[j] ensures j / IPB + istart in both {
      assert e[j] != d[j] || f[j] != e[j];
    }
  }

  // struct file for an inode: the inode and the offset.
  class File {
    const fs: FileSystem
    const ip: int
    var off: int
    ghost var txs: seq<set<int>>     // the blocks each transaction of this file logged

    ghost predicate Valid()
      reads this, fs
    {
      fs.Valid() && 0 <= ip < |fs.inodes| && 0 <= off < UINT
    }

    ghost function Text(): seq<byte>
      requires Valid()
      reads this, fs
    {
      Contents(fs.g, fs.V(), ip)
    }

    constructor (fs: FileSystem, ip: int, off: int)
      requires fs.Valid() && 0 <= ip < |fs.inodes| && 0 <= off < UINT
      ensures Valid() && this.fs == fs && this.ip == ip && this.off == off && txs == []
    {
      this.fs, this.ip, this.off := fs, ip, off;
      txs := [];
    }

    // One transaction: begin_op, writei of one chunk, end_op.
    method WriteChunk(chunk: seq<byte>) returns (r: IoResult)
      requires Valid() && 0 < |chunk| <= MAXCHUNK
      modifies this`off, this`txs, fs
      ensures r == (if old(fs.inodes)[ip].typ == T_DEV then ToDevice
                    else if old(off) > old(fs.inodes)[ip].size || old(off) + |chunk| > LIMIT then Refused
                    else if old(fs.Free()) < NeedFor(fs.g, old(fs.V()), ip, old(off), |chunk|) then OutOfBlocks
                    else Done(|chunk|))
      ensures r.Refused? || r.ToDevice? ==> Valid() && fs.V() == old(fs.V()) && off == old(off)
      ensures r.Done? ==>
        && Valid() && off == old(off) + |chunk|
        && SplicedFile(fs.g, old(fs.V()), fs.V(), ip, old(off), chunk)
        && PaidFor(fs.g, old(fs.V()), fs.V(), ip, old(off), |chunk|)
        && fs.Logs(old(fs.V()), old(fs.dinodes))
      ensures txs == old(txs) + if r.OutOfBlocks? then [] else [fs.logged]
      ensures !r.OutOfBlocks? ==> |fs.logged| <= 16 + |fs.BitmapBlocks()|
    {
      hide Paid, Need, FreeCount, Owned, NoHoles, Touched, SplicedFile, LogsBlocks, LogsInodes;
      var at, n := off, |chunk|;
      ghost var none: set<int> := {};
      fs.logged := none;
      assert fs.Valid();
      assert chunk[..n] == chunk;
      ghost var v := fs.V();
      OwnedShape(fs.g, v, fs.owner);
      r := fs.Writei(ip, chunk, at, n);
      if r.OutOfBlocks? { return; }
      if r.Done? {
        OwnedShape(fs.g, fs.V(), fs.owner);
        SameFiles(fs.g, v, fs.V(), ip, at, chunk);
        OneMore(fs.BitmapBlocks(), ip / IPB + fs.inodestart);
        ChunkFitsLog(fs.g, fs.V(), ip, at, n, fs.Fixed(ip), fs.logged);
        off := at + n;
      }
      txs := txs + [fs.logged];
    }

    // Writing data at off0, i bytes of it are done: since v0, file ip was spliced, the blocks for it were
    // taken from the free ones, and no other file changed.
    ghost predicate Underway(v0: Vol, off0: int, data: seq<byte>, i: int)
      reads this, fs
    {
      && Valid() && OthersSame(fs.g, v0, fs.V(), ip) && PaidFor(fs.g, v0, fs.V(), ip, off0, i)
      && off == off0 + i && WroteSoFar(Contents(fs.g, v0, ip), off0, data, i, Text())
      && fs.inodes[ip].typ == v0.inodes[ip].typ
    }

    // The next chunk of a write of data[..n] of which i bytes are done; then `next` bytes are.
    method WriteNextChunk(data: seq<byte>, n: int, i: int, ghost v0: Vol, ghost off0: int) returns (r: IoResult, next: int)
      requires Underway(v0, off0, data, i) && 0 <= i < n <= |data| && 0 <= off0
      modifies this`off, this`txs, fs
      ensures next == Min(n, i + MAXCHUNK)
      ensures r == (if v0.inodes[ip].typ == T_DEV then ToDevice
                    else if old(off) > old(fs.inodes)[ip].size || off0 + next > LIMIT then Refused
                    else if old(fs.Free()) < NeedFor(fs.g, old(fs.V()), ip, off0 + i, next - i) then OutOfBlocks
                    else Done(next - i))
      ensures r.Refused? || r.ToDevice? ==> Underway(v0, off0, data, i)
      ensures r.Done? ==> Underway(v0, off0, data, next) && off <= fs.inodes[ip].size && fs.Logs(old(fs.V()), old(fs.dinodes))
      ensures r.Refused? || r.ToDevice? ==> fs.V() == old(fs.V()) && fs.dinodes == old(fs.dinodes)
      ensures txs == old(txs) + if r.OutOfBlocks? then [] else [fs.logged]
      ensures !r.OutOfBlocks? ==> |fs.logged| <= 16 + |fs.BitmapBlocks()|
    {
      hide Paid, Need, FreeCount, Owned, Mapped, Contents, Spliced, NeedFor, WroteSoFar, PaidFor, LogsBlocks, LogsInodes;
      next := Min(n, i + MAXCHUNK);
      ghost var c, d, v := Contents(fs.g, v0, ip), Text(), fs.V();
      var chunk := data[i..next];
      r := WriteChunk(chunk);
      if r.Done? {
        OneMoreChunk(c, off0, data, i, next, d, Text());
        OthersSameTransitive(fs.g, v0, v, fs.V(), ip);
        PaidNext(fs.g, v0, v, fs.V(), ip, off0, i, next);
      }
    }

    // filewrite on an inode.  On success the file is spliced with all of data at the old offset; on failure
    // with exactly the whole chunks that fit below the maximum file size.  It halts exactly when there are not
    // enough free blocks for what it would write.  No other file changes, and each transaction fits the log.
    method Filewrite(data: seq<byte>, n: int) returns (r: FwResult, ghost k: int)
      requires Valid() && n <= |data|
      modifies this`off, this`txs, fs
      ensures old(txs) <= txs && forall t :: |old(txs)| <= t < |txs| ==> |txs[t]| <= 16 + |fs.BitmapBlocks()|
      ensures k == Stop(old(fs.inodes)[ip].size, old(off), n) && old(off) + k <= Max(LIMIT, old(off))
      ensures r == (if n > 0 && old(fs.inodes)[ip].typ == T_DEV then Device
                    else if k > 0 && old(fs.Free()) < NeedFor(fs.g, old(fs.V()), ip, old(off), k) then Halted
                    else if k == n then Wrote(n) else Failed)
      ensures r.Wrote? || r.Failed? ==>
        && Valid() && off == old(off) + k
        && WroteSoFar(old(Text()), old(off), data, k, Text())
        && OthersSame(fs.g, old(fs.V()), fs.V(), ip)
        && AllLogged(fs, old(fs.V()), old(fs.dinodes), txs[|old(txs)|..])
    {
      hide Owned, NoHoles, WroteSoFar, Contents, Paid, PaidFor, Need, FreeCount, NeedFor, OthersSame, Stop, InChunks, Shape,
           Union, LogsBlocks, LogsInodes;
      ghost var v0, off0, size := fs.V(), off, fs.inodes[ip].size;
      ghost var typ := fs.inodes[ip].typ;
      k := Stop(size, off0, n);
      StopBounds(size, off0, n);
      Start(fs.g, v0, ip, off0, data);
      ghost var d0, t0 := fs.dinodes, txs;
      NoneLogged(fs, txs[|t0|..]);
      var i := 0;
      while i < n
        invariant Underway(v0, off0, data, i) && 0 <= i <= Max(n, 0) && InChunks(off0, n, i)
        invariant i > 0 ==> typ != T_DEV && off0 <= size && off0 + i <= LIMIT && off <= fs.inodes[ip].size
        invariant i == 0 ==> fs.inodes[ip].size == size
        invariant old(txs) <= txs && forall t :: |old(txs)| <= t < |txs| ==> |txs[t]| <= 16 + |fs.BitmapBlocks()|
        invariant AllLogged(fs, v0, d0, txs[|t0|..])
        decreases n - i
      {
        ghost var v, d, t := fs.V(), fs.dinodes, txs;
        var res, next := WriteNextChunk(data, n, i, v0, off0);
        if res.ToDevice? { return Device, k; }
        if res.OutOfBlocks? {
          NextChunk(size, off0, n, i, next);
          ShortOfBlocks(fs.g, v0, v, ip, off0, i, next, k);
          return Halted, k;
        }
        assert txs[|t0|..] == t[|t0|..] + [fs.logged];
        MoreLogged(fs.g, fs.bmapstart, fs.inodestart, v0, v, fs.V(), d0, d, fs.dinodes, t[|t0|..], fs.logged);
        if res.Refused? {
          StopHere(size, off0, n, i, next);
          break;
        }
        NextChunk(size, off0, n, i, next);
        i := next;
      }
      if i > 0 { PaidEnough(fs.g, v0, fs.V(), ip, off0, i); }
      r := if i == n then Wrote(n) else Failed;
    }
  }

  lemma Start(g: Layout, v: Vol, i: int, off: int, data: seq<byte>)
    requires NoHoles(g, v) && 0 <= i < |v.inodes|
    ensures OthersSame(g, v, v, i) && PaidFor(g, v, v, i, off, 0)
    ensures WroteSoFar(Contents(g, v, i), off, data, 0, Contents(g, v, i))
  {
  }

  // i bytes were written in whole chunks, and what whole chunks fill of the rest comes after them.
  ghost predicate InChunks(off: int, n: int, i: int) {
    off + i <= LIMIT ==> i == n || WholeChunks(LIMIT - off) == i + WholeChunks(LIMIT - off - i)
  }

  lemma StopBounds(size: int, off: int, n: int)
    requires 0 <= off
    ensures var k := Stop(size, off, n); 0 <= k <= Max(n, 0) && (k > 0 ==> off + k <= LIMIT)
    ensures InChunks(off, n, 0) && (n <= 0 || (off <= size && off + n <= LIMIT) ==> Stop(size, off, n) == Max(n, 0))
  {
  }

  // A chunk that is not refused lies before the stop.
  lemma NextChunk(size: int, off: int, n: int, i: int, next: int)
    requires 0 <= off <= size && 0 <= i < n && next == Min(n, i + MAXCHUNK) && off + next <= LIMIT && InChunks(off, n, i)
    ensures next <= Stop(size, off, n) && InChunks(off, n, next)
  {
  }

  // The first chunk that is refused starts at the stop.
  lemma StopHere(size: int, off: int, n: int, i: int, next: int)
    requires 0 <= off && 0 <= i < n && next == Min(n, i + MAXCHUNK) && InChunks(off, n, i)
    requires i > 0 ==> off <= size && off + i <= LIMIT
    requires (i == 0 && off > size) || off + next > LIMIT
    ensures i == Stop(size, off, n)
  {
  }
}
