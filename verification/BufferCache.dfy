// The buffer cache (bio.c): an LRU list of buffers linked in place, with reference counts,
// sleep locks and pinning, over the disk of memide.c.
//
// Processes interleave between critical sections, so each method is one of them: bget's
// section under bcache.lock, the acquisition of a buffer's sleep lock, the disk transfer, the
// release of the sleep lock, and brelse's section.  A run is any sequence of these calls.
module BufferCache {
  import opened Params
  import opened Sequences

  const HEAD: int := NBUF      // index of bcache.head among the list nodes
  const BSIZE: int := 512

  type Block = b: seq<int> | |b| == BSIZE witness seq(BSIZE, _ => 0)

  datatype Buf = Buf(
    dev: int, blockno: int, valid: bool, dirty: bool, refcnt: int, locked: bool, data: Block,
    waiting: int,     // processes between bget's release of bcache.lock and their sleep lock
    leaving: int)     // processes between releasesleep and brelse's section

  // ---- The circular list ----

  // Following next from any node of the ring visits the ring in order; prev is its inverse.
  ghost predicate Links(next: seq<int>, prev: seq<int>, ring: seq<int>) {
    && |next| == |prev| && |ring| > 0 && NoDup(ring)
    && (forall i :: 0 <= i < |ring| ==> 0 <= ring[i] < |next|)
    && (forall i {:trigger After(ring, i)} :: 0 <= i < |ring| ==> next[ring[i]] == After(ring, i) && prev[After(ring, i)] == ring[i])
  }

  function Front(ring: seq<int>, b: int): seq<int>
    requires |ring| > 0
  {
    [ring[0], b] + ring[1..]
  }

  // Linking a buffer's two neighbours to each other takes it off the list.
  lemma Unlink(next: seq<int>, prev: seq<int>, ring: seq<int>, k: int)
    requires Links(next, prev, ring) && 0 < k < |ring|
    ensures var b := ring[k];
      && 0 <= next[b] < |prev| && 0 <= prev[b] < |next|
      && Links(next[prev[b] := next[b]], prev[next[b] := prev[b]], Without(ring, k))
  {
    var b, w := ring[k], Without(ring, k);
    WithoutNoDup(ring, k);
    assert After(ring, k - 1) == b && prev[b] == ring[k - 1] && next[b] == After(ring, k);
    var n, p := next[ring[k - 1] := After(ring, k)], prev[After(ring, k) := ring[k - 1]];
    forall i | 0 <= i < |w| ensures n[w[i]] == After(w, i) && p[After(w, i)] == w[i] {
      if i == k - 1 {
        assert After(w, i) == After(ring, k);
      } else {
        var j := if i < k then i else i + 1;
        assert w[i] == ring[j] != ring[k - 1] && After(w, i) == After(ring, j);
        AfterInjective(ring, j, k);
      }
    }
  }

  // Linking a buffer between the head and its successor puts it first.
  lemma LinkFront(next: seq<int>, prev: seq<int>, ring: seq<int>, b: int)
    requires Links(next, prev, ring) && 0 <= b < |next| && b !in ring
    ensures var h := ring[0];
      && 0 <= next[h] < |prev|
      && Links(next[b := next[h]][h := b], prev[b := h][next[h] := b], Front(ring, b))
  {
    var h, f := ring[0], Front(ring, b);
    assert next[h] == After(ring, 0);
    assert 0 <= After(ring, 0) < |next|;
    var n, p := next[b := next[h]][h := b], prev[b := h][next[h] := b];
    forall i | 0 <= i < |f| ensures n[f[i]] == After(f, i) && p[After(f, i)] == f[i] {
      if i >= 2 {
        assert f[i] == ring[i - 1] && After(f, i) == After(ring, i - 1);
        assert After(ring, i - 1) != After(ring, 0);
      }
    }
  }

  // ---- What the buffers mean ----

  // A buffer of device 1 that holds block k.
  predicate Caches(x: Buf, k: int) {
    x.valid && x.dev == 1 && x.blockno == k
  }

  function Slot(buf: seq<Buf>, k: int): (i: int)
    ensures -1 <= i < |buf|
    ensures i >= 0 ==> Caches(buf[i], k)
    ensures i < 0 ==> forall j :: 0 <= j < |buf| ==> !Caches(buf[j], k)
  {
    if buf == [] then -1
    else if Caches(buf[|buf| - 1], k) then |buf| - 1
    else Slot(buf[..|buf| - 1], k)
  }

  // The plain block map that the cache implements.
  function View(buf: seq<Buf>, disk: seq<Block>): (v: seq<Block>)
    ensures |v| == |disk|
  {
    seq(|disk|, k requires 0 <= k < |disk| => if Slot(buf, k) >= 0 then buf[Slot(buf, k)].data else disk[k])
  }

  // No block of a real device has two buffers.  (All buffers start out as device 0, block 0.)
  ghost predicate Unique(buf: seq<Buf>) {
    forall i, j :: 0 <= i < j < |buf| && buf[i].dev == buf[j].dev && buf[i].blockno == buf[j].blockno ==> buf[i].dev == 0
  }

  predicate Counted(x: Buf) {
    x.waiting >= 0 && x.leaving >= 0 && x.refcnt == x.waiting + x.leaving + (if x.locked then 1 else 0)
  }

  // Valid buffers are for the disk; a clean one that nobody holds equals the disk.  Only a holder can have
  // a buffer that is dirty without having been read.
  predicate Synced(x: Buf, disk: seq<Block>) {
    && (x.dirty ==> x.valid || x.locked)
    && (x.valid ==> x.dev == 1 && 0 <= x.blockno < |disk|)
    && (x.valid && !x.dirty && !x.locked ==> x.data == disk[x.blockno])
  }

  ghost predicate Good(buf: seq<Buf>, disk: seq<Block>) {
    && |buf| == NBUF && Unique(buf)
    && forall i :: 0 <= i < |buf| ==> Counted(buf[i]) && Synced(buf[i], disk)
  }

  predicate Eligible(x: Buf) { x.refcnt == 0 && !x.dirty }

  // ---- What log.c relies on ----

  // The blocks whose buffers cannot be recycled.
  ghost function BusyBlocks(buf: seq<Buf>): set<int> {
    set i | 0 <= i < |buf| && !Eligible(buf[i]) :: buf[i].blockno
  }

  // Every buffer in use is for device 1.
  ghost predicate OneDisk(buf: seq<Buf>) {
    forall i :: 0 <= i < |buf| && !Eligible(buf[i]) ==> buf[i].dev == 1
  }

  // No buffer holds block b of the device and none can be recycled.
  ghost predicate OutOfBuffers(buf: seq<Buf>, dev: int, b: int) {
    forall i :: 0 <= i < |buf| ==> !(buf[i].dev == dev && buf[i].blockno == b) && !Eligible(buf[i])
  }

  // bget can do nothing for block b exactly when other blocks keep all buffers busy.
  lemma OutOfBuffersExactly(buf: seq<Buf>, b: int)
    requires Unique(buf) && OneDisk(buf)
    ensures OutOfBuffers(buf, 1, b) <==> b !in BusyBlocks(buf) && |BusyBlocks(buf)| >= |buf|
  {
    var nos := seq(|buf|, i requires 0 <= i < |buf| => buf[i].blockno);
    if OutOfBuffers(buf, 1, b) {
      forall i | 0 <= i < |nos| ensures nos[i] in BusyBlocks(buf) { assert !Eligible(buf[i]); }
      AtLeast(nos, BusyBlocks(buf));
    } else if b !in BusyBlocks(buf) {
      assert forall i :: 0 <= i < |buf| && !Eligible(buf[i]) ==> buf[i].blockno in BusyBlocks(buf);
      var k :| 0 <= k < |buf| && Eligible(buf[k]);
      forall x | x in BusyBlocks(buf) ensures x in Without(nos, k) {
        var i :| 0 <= i < |buf| && !Eligible(buf[i]) && buf[i].blockno == x;
        assert Without(nos, k)[if i < k then i else i - 1] == x;
      }
      AtMost(Without(nos, k), BusyBlocks(buf));
    }
  }

  // While no buffer holds a change that was not logged, a read sees the pinned buffer of a block that has one
  // and the disk otherwise.
  lemma BreadContract(buf: seq<Buf>, disk: seq<Block>, k: int)
    requires Good(buf, disk) && 0 <= k < |disk|
    requires forall i :: 0 <= i < |buf| && buf[i].valid && !buf[i].dirty ==> buf[i].data == disk[buf[i].blockno]
    ensures forall i :: 0 <= i < |buf| && Caches(buf[i], k) && buf[i].dirty ==> View(buf, disk)[k] == buf[i].data
    ensures (forall i :: 0 <= i < |buf| && Caches(buf[i], k) ==> !buf[i].dirty) ==> View(buf, disk)[k] == disk[k]
  {
    forall i | 0 <= i < |buf| && Caches(buf[i], k) ensures View(buf, disk)[k] == buf[i].data {
      SlotIs(buf, i, k);
    }
  }

  lemma SlotIs(buf: seq<Buf>, i: int, k: int)
    requires Unique(buf) && 0 <= i < |buf| && Caches(buf[i], k)
    ensures Slot(buf, k) == i
  {
  }

  // Changes to counts, locks and the dirty flag do not show in the block map.
  lemma ViewOfMeta(buf: seq<Buf>, disk: seq<Block>, i: int, x: Buf)
    requires Unique(buf) && 0 <= i < |buf|
    requires x.dev == buf[i].dev && x.blockno == buf[i].blockno && x.valid == buf[i].valid && x.data == buf[i].data
    ensures Unique(buf[i := x]) && View(buf[i := x], disk) == View(buf, disk)
  {
    var b2 := buf[i := x];
    forall k | 0 <= k < |disk| ensures View(b2, disk)[k] == View(buf, disk)[k] {
      SameSlot(buf, b2, k);
    }
  }

  lemma SameSlot(buf: seq<Buf>, b2: seq<Buf>, k: int)
    requires Unique(buf) && Unique(b2) && |buf| == |b2|
    requires forall j :: 0 <= j < |buf| ==> (Caches(b2[j], k) <==> Caches(buf[j], k))
    ensures Slot(b2, k) == Slot(buf, k)
  {
    if Slot(b2, k) >= 0 { SlotIs(buf, Slot(b2, k), k); }
  }

  // Recycling a buffer whose contents are on the disk does not show.
  lemma ViewOfRecycle(buf: seq<Buf>, disk: seq<Block>, i: int, x: Buf)
    requires Unique(buf) && 0 <= i < |buf| && Unique(buf[i := x]) && !x.valid
    requires Synced(buf[i], disk) && !buf[i].dirty && !buf[i].locked
    ensures View(buf[i := x], disk) == View(buf, disk)
  {
    var b2 := buf[i := x];
    forall k | 0 <= k < |disk| ensures View(b2, disk)[k] == View(buf, disk)[k] {
      if Caches(buf[i], k) {
        SlotIs(buf, i, k);
        if Slot(b2, k) >= 0 { SlotIs(buf, Slot(b2, k), k); }
      } else {
        SameSlot(buf, b2, k);
      }
    }
  }

  // Reading a block in does not show.
  lemma ViewOfFill(buf: seq<Buf>, disk: seq<Block>, i: int, x: Buf)
    requires Unique(buf) && 0 <= i < |buf| && !buf[i].valid
    requires x.dev == buf[i].dev == 1 && x.blockno == buf[i].blockno && 0 <= x.blockno < |disk|
    requires x.valid && x.data == disk[x.blockno]
    ensures View(buf[i := x], disk) == View(buf, disk)
  {
    var b2 := buf[i := x];
    assert Unique(b2);
    forall k | 0 <= k < |disk| ensures View(b2, disk)[k] == View(buf, disk)[k] {
      if k == x.blockno {
        SlotIs(b2, i, k);
        assert Slot(buf, k) < 0;
      } else {
        SameSlot(buf, b2, k);
      }
    }
  }

  // Writing a buffer to its block does not show: the map already had its contents.
  lemma ViewOfWrite(buf: seq<Buf>, disk: seq<Block>, i: int, x: Buf)
    requires Unique(buf) && 0 <= i < |buf| && Caches(buf[i], buf[i].blockno) && 0 <= buf[i].blockno < |disk|
    requires x.dev == buf[i].dev && x.blockno == buf[i].blockno && x.valid && x.data == buf[i].data
    ensures View(buf[i := x], disk[x.blockno := x.data]) == View(buf, disk)
  {
    var b2 := buf[i := x];
    SlotIs(buf, i, x.blockno);
    assert Unique(b2);
    forall k | 0 <= k < |disk| ensures View(b2, disk[x.blockno := x.data])[k] == View(buf, disk)[k] {
      SameSlot(buf, b2, k);
    }
  }

  // Writing out a buffer that was never read changes that one block of the map.
  lemma ViewOfRawWrite(buf: seq<Buf>, disk: seq<Block>, i: int, x: Buf)
    requires Unique(buf) && 0 <= i < |buf| && !buf[i].valid
    requires x.dev == buf[i].dev == 1 && x.blockno == buf[i].blockno && 0 <= x.blockno < |disk| && x.valid
    ensures View(buf[i := x], disk[x.blockno := x.data]) == View(buf, disk)[x.blockno := x.data]
  {
    var k, b2, d2 := x.blockno, buf[i := x], disk[x.blockno := x.data];
    assert Unique(b2);
    SlotIs(b2, i, k);
    forall c | 0 <= c < |disk| ensures View(b2, d2)[c] == View(buf, disk)[k := x.data][c] {
      if c != k { SameSlot(buf, b2, c); }
    }
  }

  // Storing into a held buffer changes that one block of the map.
  lemma ViewOfStore(buf: seq<Buf>, disk: seq<Block>, i: int, d: Block)
    requires Unique(buf) && 0 <= i < |buf| && Caches(buf[i], buf[i].blockno) && 0 <= buf[i].blockno < |disk|
    ensures View(buf[i := buf[i].(data := d)], disk) == View(buf, disk)[buf[i].blockno := d]
  {
    var b2 := buf[i := buf[i].(data := d)];
    SlotIs(b2, i, buf[i].blockno);
    assert Unique(b2);
    forall k | 0 <= k < |disk| ensures View(b2, disk)[k] == View(buf, disk)[buf[i].blockno := d][k] {
      SameSlot(buf, b2, k);
      if k != buf[i].blockno && Slot(b2, k) >= 0 { assert Slot(b2, k) != i; }
    }
  }

  datatype GetResult = Hit(b: int) | Recycled(b: int) | NoBuffers
  datatype IoResult = Done | NotLocked | NothingToDo | NotDiskOne | OutOfRange

  function IoOutcome(x: Buf, disk: seq<Block>): IoResult {
    if !x.locked then NotLocked
    else if x.valid && !x.dirty then NothingToDo
    else if x.dev != 1 then NotDiskOne
    else if !(0 <= x.blockno < |disk|) then OutOfRange
    else Done
  }

  // The ring has the buffers in the order in which they went out of use, the latest first.
  ghost predicate ByLastUse(ring: seq<int>, left: seq<nat>, clock: nat) {
    && |left| == NBUF && (forall b :: 0 <= b < |left| ==> left[b] <= clock)
    && forall i, j :: 0 < i < j < |ring| && 0 <= ring[i] < |left| && 0 <= ring[j] < |left| ==> left[ring[i]] >= left[ring[j]]
  }

  class Cache {
    const next: array<int>
    const prev: array<int>
    var buf: seq<Buf>
    var disk: seq<Block>
    ghost var ring: seq<int>     // head, then the buffers from most to least recently used
    ghost var clock: nat         // how often a last reference was dropped
    ghost var left: seq<nat>     // when that last happened to each buffer; 0 if never

    ghost predicate ListOk()
      reads this`ring, next, prev
    {
      && next != prev && next.Length == NBUF + 1 && prev.Length == NBUF + 1
      && Links(next[..], prev[..], ring)
      && ring[0] == HEAD && |ring| == NBUF + 1
      && forall b :: 0 <= b <= NBUF ==> b in ring
    }

    ghost predicate Valid()
      reads this, next, prev
    {
      ListOk() && Good(buf, disk) && ByLastUse(ring, left, clock)
    }

    ghost function Map(): seq<Block>
      reads this`buf, this`disk
    {
      View(buf, disk)
    }

    constructor (disk: seq<Block>)
      ensures Valid() && this.disk == disk && Map() == disk && clock == 0
      ensures fresh(next) && fresh(prev)
      ensures forall i :: 0 < i <= NBUF ==> ring[i] == NBUF - i
    {
      this.disk := disk;
      buf := seq(NBUF, _ => Buf(0, 0, false, false, 0, false, seq(BSIZE, _ => 0), 0, 0));
      next := new int[NBUF + 1];
      prev := new int[NBUF + 1];
      ring, clock, left := [HEAD], 0, seq(NBUF, _ => 0);
      new;
      Binit();
      assert View(buf, this.disk) == disk;
    }

    // binit: build the list by pushing every buffer at the front.
    method Binit()
      requires next != prev && next.Length == NBUF + 1 && prev.Length == NBUF + 1
      modifies next, prev, this`ring
      ensures ListOk()
      ensures forall i :: 0 < i <= NBUF ==> ring[i] == NBUF - i
    {
      prev[HEAD] := HEAD;
      next[HEAD] := HEAD;
      ring := [HEAD];
      var b := 0;
      while b < NBUF
        invariant 0 <= b <= NBUF && |ring| == b + 1 && ring[0] == HEAD
        invariant Links(next[..], prev[..], ring)
        invariant forall i :: 0 < i <= b ==> ring[i] == b - i
      {
        LinkAtFront(b);
        b := b + 1;
      }
      forall x | 0 <= x <= NBUF ensures x in ring {
        assert x < NBUF ==> ring[NBUF - x] == x;
      }
    }

    // Put b after the head.
    method LinkAtFront(b: int)
      requires next != prev && next.Length == NBUF + 1 && prev.Length == NBUF + 1
      requires Links(next[..], prev[..], ring) && ring[0] == HEAD && 0 <= b < NBUF && b !in ring
      modifies next, prev, this`ring
      ensures Links(next[..], prev[..], ring) && ring == Front(old(ring), b)
    {
      LinkFront(next[..], prev[..], ring, b);
      ghost var n, p := next[..], prev[..];
      next[b] := next[HEAD];
      prev[b] := HEAD;
      prev[next[HEAD]] := b;
      next[HEAD] := b;
      assert next[..] == n[b := n[HEAD]][HEAD := b];
      assert prev[..] == p[b := HEAD][n[HEAD] := b];
      ring := Front(ring, b);
    }

    // bget's section under bcache.lock: find the block's buffer, or recycle the least recently
    // used buffer that is unreferenced and clean.  The caller then waits for its sleep lock.
    method GetRef(dev: int, blockno: int) returns (r: GetResult)
      requires Valid()
      modifies this`buf
      ensures Valid() && Map() == old(Map())
      ensures r.Hit? ==>
        && 0 <= r.b < NBUF && old(buf[r.b].dev == dev && buf[r.b].blockno == blockno)
        && buf == old(buf)[r.b := old(buf[r.b]).(refcnt := old(buf[r.b].refcnt) + 1, waiting := old(buf[r.b].waiting) + 1)]
      ensures !r.Hit? ==> forall i :: 0 <= i < NBUF ==> !(old(buf)[i].dev == dev && old(buf)[i].blockno == blockno)
      ensures r.Recycled? ==>
        && 0 <= r.b < NBUF && old(Eligible(buf[r.b]))
        && LeastRecent(r.b, old(buf)) && LongestUnused(r.b, old(buf))
        && buf == old(buf)[r.b := Buf(dev, blockno, false, false, 1, false, old(buf[r.b].data), 1, 0)]
      ensures r.NoBuffers? ==> buf == old(buf) && forall i :: 0 <= i < NBUF ==> !Eligible(buf[i])
      ensures dev == 1 && OneDisk(old(buf)) ==>
        (r.NoBuffers? <==> blockno !in BusyBlocks(old(buf)) && |BusyBlocks(old(buf))| >= NBUF)
    {
      hide BusyBlocks, OneDisk, ByLastUse, Links, View;
      if OneDisk(buf) { OutOfBuffersExactly(buf, blockno); }
      var b := FindCached(dev, blockno);
      if b != HEAD {
        var x := buf[b].(refcnt := buf[b].refcnt + 1, waiting := buf[b].waiting + 1);
        ViewOfMeta(buf, disk, b, x);
        buf := buf[b := x];
        return Hit(b);
      }
      b := FindVictim();
      if b != HEAD {
        assert Counted(buf[b]) && Synced(buf[b], disk);
        var x := Buf(dev, blockno, false, false, 1, false, buf[b].data, 1, 0);
        assert Unique(buf[b := x]);
        ViewOfRecycle(buf, disk, b, x);
        buf := buf[b := x];
        return Recycled(b);
      }
      return NoBuffers;
    }

    // b is the last eligible buffer in the recency order.
    ghost predicate LeastRecent(b: int, bufs: seq<Buf>)
      requires |bufs| == NBUF
      reads this`ring
    {
      exists k :: 0 <= k < |ring| && ring[k] == b &&
        forall j :: k < j < |ring| && 0 <= ring[j] < NBUF ==> !Eligible(bufs[ring[j]])
    }

    // No eligible buffer has been out of use for longer.
    ghost predicate LongestUnused(b: int, bufs: seq<Buf>)
      requires |bufs| == NBUF == |left| && 0 <= b < NBUF
      reads this`left
    {
      forall i :: 0 <= i < NBUF && Eligible(bufs[i]) ==> left[b] <= left[i]
    }

    // bget's first loop, from the most recently used end.
    method FindCached(dev: int, blockno: int) returns (b: int)
      requires Valid()
      ensures 0 <= b <= HEAD
      ensures b != HEAD ==> buf[b].dev == dev && buf[b].blockno == blockno
      ensures b == HEAD ==> forall i :: 0 <= i < NBUF ==> !(buf[i].dev == dev && buf[i].blockno == blockno)
    {
      ghost var k := 0;
      b := next[HEAD];
      assert b == After(ring, 0) == ring[1];
      k := 1;
      while b != HEAD
        invariant 1 <= k <= |ring| && b == (if k < |ring| then ring[k] else ring[0])
        invariant forall j :: 0 < j < k ==> !(buf[ring[j]].dev == dev && buf[ring[j]].blockno == blockno)
        decreases |ring| - k
      {
        assert k < |ring| && 0 <= ring[k] < NBUF;
        if buf[b].dev == dev && buf[b].blockno == blockno {
          return;
        }
        assert next[b] == After(ring, k);
        b := next[b];
        k := k + 1;
      }
      forall i | 0 <= i < NBUF ensures !(buf[i].dev == dev && buf[i].blockno == blockno) {
        assert i in ring;
      }
    }

    // bget's second loop, from the least recently used end.
    method FindVictim() returns (b: int)
      requires Valid()
      ensures 0 <= b <= HEAD
      ensures b != HEAD ==> Eligible(buf[b]) && LeastRecent(b, buf) && LongestUnused(b, buf)
      ensures b == HEAD ==> forall i :: 0 <= i < NBUF ==> !Eligible(buf[i])
    {
      ghost var k := NBUF;
      b := prev[HEAD];
      assert After(ring, NBUF) == HEAD;
      while b != HEAD
        invariant 0 <= k <= NBUF && b == ring[k]
        invariant forall j :: k < j <= NBUF ==> 0 <= ring[j] < NBUF && !Eligible(buf[ring[j]])
        decreases k
      {
        assert k > 0 && 0 <= ring[k] < NBUF;
        if buf[b].refcnt == 0 && !buf[b].dirty {
          forall i | 0 <= i < NBUF && Eligible(buf[i]) ensures left[b] <= left[i] {
            assert i in ring;
          }
          return;
        }
        assert After(ring, k - 1) == ring[k];
        b := prev[b];
        k := k - 1;
      }
      forall i | 0 <= i < NBUF ensures !Eligible(buf[i]) {
        assert i in ring;
      }
    }

    // Taking the buffer's sleep lock, when that succeeds.
    method LockBuf(b: int)
      requires Valid() && 0 <= b < NBUF && buf[b].waiting > 0 && !buf[b].locked
      modifies this`buf
      ensures Valid() && Map() == old(Map())
      ensures buf == old(buf)[b := old(buf[b]).(locked := true, waiting := old(buf[b].waiting) - 1)]
    {
      var x := buf[b].(locked := true, waiting := buf[b].waiting - 1);
      ViewOfMeta(buf, disk, b, x);
      assert Counted(buf[b]) && Synced(buf[b], disk);
      buf := buf[b := x];
    }

    // iderw: write a dirty buffer out, or read an invalid one in; otherwise panic.
    method Iderw(b: int) returns (r: IoResult)
      requires Valid() && 0 <= b < NBUF
      modifies this`buf, this`disk
      ensures Valid() && r == IoOutcome(old(buf[b]), old(disk))
      ensures r == Done && old(buf[b].dirty) ==>
        && disk == old(disk)[old(buf[b].blockno) := old(buf[b].data)]
        && buf == old(buf)[b := old(buf[b]).(valid := true, dirty := false)]
        && Map() == old(Map())[old(buf[b].blockno) := old(buf[b].data)]
      ensures r == Done && !old(buf[b].dirty) ==>
        && disk == old(disk) && Map() == old(Map())
        && buf == old(buf)[b := old(buf[b]).(valid := true, data := old(disk[buf[b].blockno]))]
      ensures r != Done ==> buf == old(buf) && disk == old(disk)
      ensures old(buf[b].valid) ==> Map() == old(Map())
    {
      assert Counted(buf[b]) && Synced(buf[b], disk);
      if !buf[b].locked { return NotLocked; }
      if buf[b].valid && !buf[b].dirty { return NothingToDo; }
      if buf[b].dev != 1 { return NotDiskOne; }
      if !(0 <= buf[b].blockno < |disk|) { return OutOfRange; }
      r := Done;
      if buf[b].dirty {
        WriteOut(b);
      } else {
        var x := buf[b].(valid := true, data := disk[buf[b].blockno]);
        ViewOfFill(buf, disk, b, x);
        buf := buf[b := x];
      }
    }

    // iderw's write branch.
    method WriteOut(b: int)
      requires Valid() && 0 <= b < NBUF && buf[b].locked && buf[b].dirty && buf[b].dev == 1 && 0 <= buf[b].blockno < |disk|
      modifies this`buf, this`disk
      ensures Valid() && Map() == old(Map())[old(buf[b].blockno) := old(buf[b].data)]
      ensures disk == old(disk)[old(buf[b].blockno) := old(buf[b].data)]
      ensures buf == old(buf)[b := old(buf[b]).(valid := true, dirty := false)]
      ensures old(buf[b].valid) ==> Map() == old(Map())
    {
      var x := buf[b].(valid := true, dirty := false);
      if buf[b].valid {
        ViewOfWrite(buf, disk, b, x);
        SlotIs(buf, b, x.blockno);
      } else {
        ViewOfRawWrite(buf, disk, b, x);
      }
      OthersSynced(buf, disk, b);
      disk := disk[x.blockno := x.data];
      buf := buf[b := x];
    }

    // bread after bget and the sleep lock: the caller sees the block map's contents, or iderw panics.
    method ReadIn(b: int) returns (r: IoResult)
      requires Valid() && 0 <= b < NBUF
      modifies this`buf, this`disk
      ensures Valid() && r == if old(buf[b].valid) then Done else IoOutcome(old(buf[b]), old(disk))
      ensures old(buf[b].valid || !buf[b].dirty) ==> Map() == old(Map()) && disk == old(disk)
      ensures r == Done ==>
        && Caches(buf[b], old(buf[b].blockno)) && 0 <= buf[b].blockno < |disk| && buf[b].data == Map()[buf[b].blockno]
        && buf == old(buf)[b := old(buf[b]).(valid := true, dirty := buf[b].dirty, data := buf[b].data)]
      ensures r != Done ==> buf == old(buf)
    {
      assert Counted(buf[b]) && Synced(buf[b], disk);
      r := Done;
      if !buf[b].valid {
        r := Iderw(b);
      }
      if r == Done {
        assert Synced(buf[b], disk);
        SlotIs(buf, b, buf[b].blockno);
      }
    }

    // The holder of a buffer changes its contents.
    method Store(b: int, d: Block)
      requires Valid() && 0 <= b < NBUF && buf[b].locked && buf[b].valid
      modifies this`buf
      ensures Valid() && Map() == old(Map())[old(buf[b].blockno) := d]
      ensures buf == old(buf)[b := old(buf[b]).(data := d)]
    {
      assert Counted(buf[b]) && Synced(buf[b], disk);
      ViewOfStore(buf, disk, b, d);
      buf := buf[b := buf[b].(data := d)];
    }

    // log_write's B_DIRTY: pin the buffer until the log writes it.
    method Pin(b: int)
      requires Valid() && 0 <= b < NBUF && buf[b].locked && buf[b].valid
      modifies this`buf
      ensures Valid() && Map() == old(Map()) && buf == old(buf)[b := old(buf[b]).(dirty := true)]
    {
      assert Counted(buf[b]) && Synced(buf[b], disk);
      ViewOfMeta(buf, disk, b, buf[b].(dirty := true));
      buf := buf[b := buf[b].(dirty := true)];
    }

    // bwrite: the holder puts the buffer on the disk, or it panics: not locked, not disk 1, or out of range.
    method Bwrite(b: int) returns (r: IoResult)
      requires Valid() && 0 <= b < NBUF
      modifies this`buf, this`disk
      ensures Valid() && r == IoOutcome(old(buf[b]).(dirty := true), old(disk))
      ensures r == Done ==>
        && disk == old(disk)[old(buf[b].blockno) := old(buf[b].data)]
        && buf == old(buf)[b := old(buf[b]).(valid := true, dirty := false)]
        && Map() == old(Map())[old(buf[b].blockno) := old(buf[b].data)]
      ensures old(buf[b].valid) ==> Map() == old(Map())
      ensures r != Done ==> disk == old(disk)
    {
      assert Counted(buf[b]) && Synced(buf[b], disk);
      if !buf[b].locked { return NotLocked; }
      var x := buf[b].(dirty := true);
      ViewOfMeta(buf, disk, b, x);
      buf := buf[b := x];
      r := Iderw(b);
    }

    // releasesleep: the holder must have called log_write or bwrite if it changed the data.
    method Unlock(b: int) returns (panicked: bool)
      requires Valid() && 0 <= b < NBUF
      requires buf[b].locked && buf[b].valid && !buf[b].dirty ==> buf[b].data == disk[buf[b].blockno]
      requires buf[b].dirty ==> buf[b].valid
      modifies this`buf
      ensures Valid() && Map() == old(Map()) && panicked == !old(buf[b].locked)
      ensures !panicked ==> buf == old(buf)[b := old(buf[b]).(locked := false, leaving := old(buf[b].leaving) + 1)]
      ensures panicked ==> buf == old(buf)
    {
      assert Counted(buf[b]) && Synced(buf[b], disk);
      if !buf[b].locked { return true; }
      panicked := false;
      var x := buf[b].(locked := false, leaving := buf[b].leaving + 1);
      ViewOfMeta(buf, disk, b, x);
      buf := buf[b := x];
    }

    // brelse's section: drop the reference; the last one moves the buffer to the front.
    method Drop(b: int)
      requires Valid() && 0 <= b < NBUF && buf[b].leaving > 0
      modifies this`buf, this`ring, this`clock, this`left, next, prev
      ensures Valid() && Map() == old(Map())
      ensures buf == old(buf)[b := old(buf[b]).(refcnt := old(buf[b].refcnt) - 1, leaving := old(buf[b].leaving) - 1)]
      ensures buf[b].refcnt > 0 ==> ring == old(ring)
      ensures buf[b].refcnt == 0 ==>
        exists k :: 0 < k < |old(ring)| && old(ring)[k] == b && ring == Front(Without(old(ring), k), b)
      ensures clock == old(clock) + (if buf[b].refcnt == 0 then 1 else 0)
      ensures left == if buf[b].refcnt == 0 then old(left)[b := clock] else old(left)
    {
      hide ByLastUse, Links, View, Front;
      RingApart(next[..], prev[..], ring);
      StampsFit(ring, left, clock);
      assert Counted(buf[b]) && Synced(buf[b], disk);
      var x := buf[b].(refcnt := buf[b].refcnt - 1, leaving := buf[b].leaving - 1);
      ViewOfMeta(buf, disk, b, x);
      buf := buf[b := x];
      if buf[b].refcnt == 0 {
        MoveToFront(b);
        LastUsed(old(ring), left, clock, b, ring);
        clock := clock + 1;
        left := left[b := clock];
      }
    }

    method MoveToFront(b: int)
      requires ListOk() && 0 <= b < NBUF
      modifies this`ring, next, prev
      ensures ListOk()
      ensures exists k :: 0 < k < |old(ring)| && old(ring)[k] == b && ring == Front(Without(old(ring), k), b)
    {
      assert b in ring;
      ghost var k :| 0 <= k < |ring| && ring[k] == b;
      ghost var n, p := next[..], prev[..];
      Unlink(n, p, ring, k);
      WithoutNoDup(ring, k);
      prev[next[b]] := prev[b];
      next[prev[b]] := next[b];
      UnlinkedReads(n, p, ring, k);
      assert next[..] == n[p[b] := n[b]] && prev[..] == p[n[b] := p[b]];
      ring := Without(ring, k);
      LinkAtFront(b);
      forall x | 0 <= x <= NBUF ensures x in ring {
        FrontKeeps(old(ring), k, x);
      }
    }
  }

  lemma RingApart(next: seq<int>, prev: seq<int>, ring: seq<int>)
    requires Links(next, prev, ring)
    ensures NoDup(ring)
  {
  }

  lemma StampsFit(ring: seq<int>, left: seq<nat>, clock: nat)
    requires ByLastUse(ring, left, clock)
    ensures |left| == NBUF
  {
  }

  lemma LastUsed(ring: seq<int>, left: seq<nat>, clock: nat, b: int, ring': seq<int>)
    requires ByLastUse(ring, left, clock) && 0 <= b < |left| && NoDup(ring)
    requires exists k :: 0 < k < |ring| && ring[k] == b && ring' == Front(Without(ring, k), b)
    ensures ByLastUse(ring', left[b := clock + 1], clock + 1)
  {
    hide Front, NoDup;
    var k :| 0 < k < |ring| && ring[k] == b && ring' == Front(Without(ring, k), b);
    var left' := left[b := clock + 1];
    FrontSize(ring, k);
    forall i, j | 0 < i < j < |ring'| && 0 <= ring'[i] < |left| && 0 <= ring'[j] < |left|
      ensures left'[ring'[i]] >= left'[ring'[j]]
    {
      FrontAt(ring, k, j);
      if i > 1 { FrontAt(ring, k, i); }
    }
  }

  lemma FrontSize(ring: seq<int>, k: int)
    requires 0 < k < |ring|
    ensures var f := Front(Without(ring, k), ring[k]); |f| == |ring| && f[1] == ring[k]
  {
  }

  // The buffers behind the one that came to the front.
  lemma FrontAt(ring: seq<int>, k: int, i: int)
    requires NoDup(ring) && 0 < k < |ring| && 1 < i < |ring|
    ensures var f := Front(Without(ring, k), ring[k]);
      |f| == |ring| && f[i] == ring[if i <= k then i - 1 else i] && f[i] != ring[k]
  {
  }

  lemma FrontKeeps(ring: seq<int>, k: int, x: int)
    requires 0 < k < |ring| && x in ring
    ensures x in Front(Without(ring, k), ring[k])
  {
    var f := Front(Without(ring, k), ring[k]);
    var j :| 0 <= j < |ring| && ring[j] == x;
    assert x == f[if j == 0 then 0 else if j == k then 1 else if j < k then j + 1 else j];
  }

  // Relinking the successor leaves the buffer's own links as they were.
  lemma UnlinkedReads(next: seq<int>, prev: seq<int>, ring: seq<int>, k: int)
    requires Links(next, prev, ring) && 0 < k < |ring|
    ensures next[ring[k]] != ring[k]
  {
    assert next[ring[k]] == After(ring, k);
  }

  lemma OthersSynced(buf: seq<Buf>, disk: seq<Block>, b: int)
    requires Good(buf, disk) && 0 <= b < |buf| && buf[b].dev == 1 && 0 <= buf[b].blockno < |disk|
    ensures forall i :: 0 <= i < |buf| && i != b ==> Synced(buf[i], disk[buf[b].blockno := buf[b].data])
  {
    forall i | 0 <= i < |buf| && i != b ensures Synced(buf[i], disk[buf[b].blockno := buf[b].data]) {
      assert Synced(buf[i], disk);
    }
  }
}
