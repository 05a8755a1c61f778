// The logging layer of log.c as an object that updates its fields and the disk in place.
//
// bread/bwrite are used through the cache's contract, which BufferCache.BreadContract derives: a
// block with a pinned (dirty) buffer reads from `cache`, every other block reads from `disk`,
// bread needs a buffer that is not busy unless the block has one, and bwrite puts one block on
// disk and unpins it.  `history` records the disk after every single-block write, so a claim
// about every entry is a claim about every crash point.
module LogDevice {
  import opened Params
  import opened LogSpec
  import opened Sequences

  // Images 1..k of write_log.
  ghost function FillTraceOf(g: Geometry, d: Disk, bs: seq<int>, m: map<int, Block>, k: nat): (h: seq<Disk>)
    requires k <= |bs| && g.start + 1 + k <= |d|
    requires forall i :: 0 <= i < |bs| ==> bs[i] in m
    ensures |h| == k
    ensures forall j :: 0 <= j < k ==> h[j] == FillImage(g, d, bs, m, j + 1)
  {
    if k == 0 then [] else FillTraceOf(g, d, bs, m, k - 1) + [FillImage(g, d, bs, m, k)]
  }

  // Images 1..k of install_trans.
  ghost function InstallTraceOf(g: Geometry, d: Disk, bs: seq<int>, k: nat): (h: seq<Disk>)
    requires k <= |bs| && g.start + 1 + |bs| <= |d|
    requires forall i :: 0 <= i < |bs| ==> 0 <= bs[i] < |d|
    ensures |h| == k
    ensures forall j :: 0 <= j < k ==> h[j] == InstallImage(g, d, bs, j + 1)
  {
    if k == 0 then [] else InstallTraceOf(g, d, bs, k - 1) + [InstallImage(g, d, bs, k)]
  }

  // The history grew from h0 to h1 by exactly the images of commit(), one per block write:
  // the log blocks, the header, the home blocks, the cleared header.
  ghost predicate CommitTrace(g: Geometry, d: Disk, bs: seq<int>, m: map<int, Block>, h0: seq<Disk>, h1: seq<Disk>) {
    && Loggable(g, d, bs) && Pins(m, bs)
    && var c := WithHeader(g, FillImage(g, d, bs, m, |bs|), bs);
       var e := WithHeader(g, InstallImage(g, c, bs, |bs|), []);
    h1 == h0 + FillTraceOf(g, d, bs, m, |bs|) + [c] + InstallTraceOf(g, c, bs, |bs|) + [e]
  }

  // The history grew from h0 to h1 by exactly the images of recover_from_log().
  ghost predicate RecoverTrace(g: Geometry, d: Disk, h0: seq<Disk>, h1: seq<Disk>) {
    && HeaderOk(g, d)
    && var bs := HeaderList(d[g.start]);
       var e := WithHeader(g, InstallImage(g, d, bs, |bs|), []);
    h1 == h0 + InstallTraceOf(g, d, bs, |bs|) + [e]
  }

  // ---- Buffers: those of the pinned blocks and those other processes hold are busy ----

  function BusyCount(cache: map<int, Block>, held: set<int>): nat {
    |cache.Keys + held|
  }

  // bget has a buffer for b while the caller holds those of `mine`.
  predicate HasBuffer(cache: map<int, Block>, held: set<int>, b: int, mine: set<int>) {
    b in cache.Keys + held + mine || |cache.Keys + held + mine| < NBUF
  }

  lemma BufferForLog(cache: map<int, Block>, held: set<int>, b: int)
    requires b !in cache && b !in held
    ensures HasBuffer(cache, held, b, {}) <==> BusyCount(cache, held) < NBUF
  {
    assert cache.Keys + held + {} == cache.Keys + held;
  }

  lemma BufferBeside(cache: map<int, Block>, held: set<int>, b: int, c: int)
    requires b in cache || BusyCount(cache, held) + 2 <= NBUF
    ensures HasBuffer(cache, held, b, {c})
  {
    assert |cache.Keys + held + {c}| <= |cache.Keys + held| + 1;
  }

  lemma FewerBusy(before: map<int, Block>, after: map<int, Block>, held: set<int>)
    requires forall b :: b in after ==> b in before
    ensures BusyCount(after, held) <= BusyCount(before, held)
  {
    forall b | b in after.Keys ensures b in before.Keys { assert b in after; }
    SubsetSize(after.Keys + held, before.Keys + held);
  }

  lemma PinnedBusy(cache: map<int, Block>, held: set<int>, b: int, x: Block)
    requires HasBuffer(cache, held, b, {}) && BusyCount(cache, held) <= NBUF
    ensures BusyCount(cache[b := x], held) <= NBUF
  {
    var busy := cache.Keys + held;
    assert busy + {} == busy && cache[b := x].Keys + held == busy + {b};
    if b in busy { assert busy + {b} == busy; }
  }

  lemma OnlyHeld(held: set<int>)
    ensures BusyCount(map[], held) == |held|
  {
    var none: map<int, Block> := map[];
    assert none.Keys + held == held;
  }

  datatype WriteOutcome = Logged | TooBig | OutsideTransaction
  datatype EndOutcome = StillOpen | Committed | CommittingPanic | NoBuffers

  class Log {
    const g: Geometry
    var disk: Disk
    var cache: map<int, Block>       // the pinned buffers
    var held: set<int>               // blocks whose buffers other processes hold
    var n: int
    const block: array<int>
    var outstanding: int
    var committing: bool
    ghost var history: seq<Disk>

    ghost predicate Shape()
      reads this, block
    {
      && block.Length == LOGSIZE && 0 <= n <= LOGSIZE
      && Fits(g, disk)
    }

    // log.lh: the block numbers of the transaction being built.
    ghost function List(): seq<int>
      requires 0 <= n <= block.Length
      reads this, block
    {
      block[..n]
    }

    // Outside a commit: the header on disk is empty, the list names distinct home blocks, and
    // exactly the listed blocks are pinned.
    ghost predicate Valid()
      reads this, block
    {
      && Shape()
      && Loggable(g, disk, List())
      && Pins(cache, List())
      && disk[g.start][0] == 0
      && BusyCount(cache, held) <= NBUF && forall b :: b in held ==> !InLog(g, b)
    }

    // What the kernel sees in the file system's blocks: the home blocks under the pinned buffers.
    ghost function View(): (r: Disk)
      reads this, block
    {
      Overlay(HomeImage(g, disk), cache)
    }

    function Bread(b: int, mine: set<int>): Block
      requires 0 <= b < |disk| && HasBuffer(cache, held, b, mine)
      reads this
    {
      if b in cache then cache[b] else disk[b]
    }

    // The machine comes up with a disk and no buffers; initlog then recovers.
    constructor (g: Geometry, disk: Disk)
      requires HeaderOk(g, disk)
      ensures this.g == g && block.Length == LOGSIZE && fresh(block)
      ensures Valid() && n == 0 && cache == map[] && held == {} && outstanding == 0 && !committing
      ensures HomeImage(g, this.disk) == Durable(g, disk)
      ensures RecoverTrace(g, disk, [], history)
    {
      this.g, this.disk := g, disk;
      cache, held, n, outstanding, committing, history := map[], {}, 0, 0, false, [];
      block := new int[LOGSIZE];
      new;
      RecoverFromLog();
    }

    method Bwrite(b: int, data: Block)
      requires 0 <= b < |disk|
      modifies this`disk, this`cache, this`history
      ensures disk == old(disk)[b := data] && cache == old(cache) - {b}
      ensures history == old(history) + [disk]
    {
      disk := disk[b := data];
      cache := cache - {b};
      history := history + [disk];
    }

    // Two buffers can be had at once, or one and every listed block has its own.
    ghost predicate Roomy()
      requires 0 <= n <= block.Length
      reads this, block
    {
      && (forall b :: b in cache || b in held ==> !InLog(g, b))
      && (BusyCount(cache, held) + 2 <= NBUF || (BusyCount(cache, held) < NBUF && forall i :: 0 <= i < n ==> block[i] in cache))
    }

    method InstallTrans()
      requires Shape() && Loggable(g, disk, List()) && Roomy()
      modifies this`disk, this`cache, this`history
      ensures disk == InstallImage(g, old(disk), List(), n)
      ensures history == old(history) + InstallTraceOf(g, old(disk), List(), n)
      ensures forall b :: b in cache <==> b in old(cache) && b !in List()
      ensures forall b :: b in cache ==> cache[b] == old(cache)[b]
    {
      hide HasBuffer, BusyCount;
      var tail := 0;
      while tail < n
        invariant 0 <= tail <= n && |disk| == |old(disk)|
        invariant disk == InstallImage(g, old(disk), List(), tail)
        invariant history == old(history) + InstallTraceOf(g, old(disk), List(), tail)
        invariant forall b :: b in cache <==> b in old(cache) && b !in List()[..tail]
        invariant forall b :: b in cache ==> cache[b] == old(cache)[b]
      {
        assert HomeBlock(g, old(disk), List()[tail]);
        assert block[tail] == List()[tail] && List()[tail] !in List()[..tail];
        FewerBusy(old(cache), cache, held);
        BufferForLog(cache, held, g.start + tail + 1);
        BufferBeside(cache, held, block[tail], g.start + tail + 1);
        var lbuf := Bread(g.start + tail + 1, {});
        var dbuf := Bread(block[tail], {g.start + tail + 1});
        dbuf := lbuf;
        assert List()[..tail + 1] == List()[..tail] + [block[tail]];
        Bwrite(block[tail], dbuf);
        tail := tail + 1;
      }
      assert List()[..n] == List();
    }

    method ReadHead()
      requires Shape() && HeaderOk(g, disk) && g.start !in cache && HasBuffer(cache, held, g.start, {})
      modifies this`n, block
      ensures Shape() && List() == HeaderList(disk[g.start])
    {
      var lh := Bread(g.start, {});
      n := lh[0];
      var i := 0;
      while i < n
        invariant 0 <= i <= n && n == lh[0]
        invariant block[..i] == lh[1..1 + i]
      {
        block[i] := lh[1 + i];
        i := i + 1;
      }
    }

    method WriteHead()
      requires Shape() && g.start !in cache && HasBuffer(cache, held, g.start, {})
      modifies this`disk, this`cache, this`history
      ensures disk == WithHeader(g, old(disk), List())
      ensures history == old(history) + [disk]
      ensures cache == old(cache)
    {
      hide HasBuffer, BusyCount;
      var buf := Bread(g.start, {});
      var hb := buf[0 := n];
      var i := 0;
      while i < n
        invariant 0 <= i <= n && |hb| == BWORDS
        invariant forall j :: 0 <= j < BWORDS ==> hb[j] == if j == 0 then n else if j <= i then block[j - 1] else buf[j]
      {
        hb := hb[1 + i := block[i]];
        i := i + 1;
      }
      assert hb == EncodeHeader(buf, List());
      Bwrite(g.start, hb);
    }

    // write_log: panics in its first bread exactly when something is listed and every buffer is busy.
    method WriteLog() returns (ok: bool)
      requires Valid()
      modifies this`disk, this`cache, this`history
      ensures cache == old(cache) && (ok <==> n == 0 || BusyCount(cache, held) < NBUF)
      ensures !ok ==> disk == old(disk) && history == old(history)
      ensures ok ==> disk == FillImage(g, old(disk), List(), cache, n)
      ensures ok ==> history == old(history) + FillTraceOf(g, old(disk), List(), cache, n)
    {
      hide HasBuffer, BusyCount;
      var tail := 0;
      while tail < n
        invariant 0 <= tail <= n && |disk| == |old(disk)|
        invariant cache == old(cache) && (tail > 0 ==> BusyCount(cache, held) < NBUF)
        invariant disk == FillImage(g, old(disk), List(), cache, tail)
        invariant history == old(history) + FillTraceOf(g, old(disk), List(), cache, tail)
      {
        assert List()[tail] == block[tail];
        assert HomeBlock(g, old(disk), List()[tail]);
        LogBlocksUnpinned(g.start + tail + 1);
        BufferForLog(cache, held, g.start + tail + 1);
        if !HasBuffer(cache, held, g.start + tail + 1, {}) {
          return false;
        }
        BufferBeside(cache, held, block[tail], g.start + tail + 1);
        var from := Bread(block[tail], {g.start + tail + 1});
        Bwrite(g.start + tail + 1, from);
        tail := tail + 1;
      }
      ok := true;
    }

    lemma LogBlocksUnpinned(b: int)
      requires Shape() && Loggable(g, disk, List()) && Pins(cache, List()) && InLog(g, b)
      ensures b !in cache && cache - {b} == cache
    {
      assert forall i :: 0 <= i < n ==> List()[i] != b by {
        forall i | 0 <= i < n ensures List()[i] != b { assert HomeBlock(g, disk, List()[i]); }
      }
    }

    // commit() after write_log: the header, the home blocks, the cleared header.
    method CommitRest()
      requires Shape() && Loggable(g, disk, List()) && Pins(cache, List())
      requires BusyCount(cache, held) < NBUF && forall b :: b in held ==> !InLog(g, b)
      modifies this`disk, this`cache, this`history, this`n
      ensures n == 0 && cache == map[] && |disk| == |old(disk)|
      ensures var c := WithHeader(g, old(disk), old(List())); var e := InstallImage(g, c, old(List()), old(n));
        && disk == WithHeader(g, e, [])
        && history == old(history) + [c] + InstallTraceOf(g, c, old(List()), old(n)) + [disk]
    {
      hide HasBuffer, BusyCount;
      forall b | InLog(g, b) ensures b !in cache { LogBlocksUnpinned(b); }
      BufferForLog(cache, held, g.start);
      WriteHead();
      assert forall i :: 0 <= i < n ==> block[i] == List()[i];
      InstallTrans();
      assert forall b :: b !in cache;
      assert cache == map[];
      n := 0;
      FewerBusy(old(cache), cache, held);
      BufferForLog(cache, held, g.start);
      WriteHead();
    }

    // The body of commit() when something was logged.
    method CommitList() returns (ok: bool)
      requires Valid() && n > 0
      modifies this`disk, this`cache, this`history, this`n
      ensures ok <==> old(BusyCount(cache, held)) < NBUF
      ensures !ok ==> unchanged(this)
      ensures ok ==> n == 0 && cache == map[] && |disk| == |old(disk)|
      ensures ok ==> disk == CommitImage(g, old(disk), old(List()), old(cache), 2 * old(n) + 2)
      ensures ok ==> CommitTrace(g, old(disk), old(List()), old(cache), old(history), history)
    {
      hide HasBuffer, BusyCount;
      ok := WriteLog();
      if ok {
        CommitRest();
      }
    }

    // commit(): every image it puts on the disk is CommitImage's, so CommitIsAtomic and
    // CrashAtomicity speak about it; at the end the home blocks hold what the kernel saw.  It
    // panics exactly when something is listed and every buffer is busy, before its first write.
    method Commit() returns (ok: bool)
      requires Valid()
      modifies this`disk, this`cache, this`history, this`n
      ensures Valid() && View() == old(View()) && (ok <==> old(n == 0 || BusyCount(cache, held) < NBUF))
      ensures !ok ==> unchanged(this)
      ensures ok ==> n == 0 && cache == map[] && HomeImage(g, disk) == old(View())
      ensures old(n) == 0 ==> history == old(history) && disk == old(disk)
      ensures ok && old(n) > 0 ==> CommitTrace(g, old(disk), old(List()), old(cache), old(history), history)
    {
      hide Durable, CommitTrace, CommitImage, HasBuffer, BusyCount;
      ok := true;
      if n > 0 {
        CommitIsAtomic(g, disk, List(), cache, 2 * n + 2);
        ok := CommitList();
      }
      if ok {
        assert forall b :: b !in cache;
        assert cache == map[];
        FewerBusy(old(cache), cache, held);
        assert View() == HomeImage(g, disk);
      }
    }

    method RecoverFromLog()
      requires Shape() && HeaderOk(g, disk) && cache == map[] && |held| + 2 <= NBUF && forall b :: b in held ==> !InLog(g, b)
      modifies this`disk, this`cache, this`history, this`n, block
      ensures Valid() && n == 0 && cache == map[]
      ensures HomeImage(g, disk) == Durable(g, old(disk)) == View()
      ensures RecoverTrace(g, old(disk), old(history), history)
    {
      hide HasBuffer, BusyCount;
      OnlyHeld(held);
      BufferForLog(cache, held, g.start);
      ReadHead();
      ghost var d, bs, h := disk, List(), history;
      InstallTrans();
      n := 0;
      assert forall b :: b !in cache;
      assert cache == map[];
      WriteHead();
      assert disk[g.start][0] == 0 && HomeImage(g, disk) == Durable(g, d) by {
        RecoveryIsIdempotent(g, d, |bs| + 1);
      }
      assert forall b :: b !in cache;
      assert cache == map[];
      assert View() == HomeImage(g, disk);
    }

    // begin_op's loop body: either the operation is admitted or the caller goes to sleep.
    method TryBeginOp() returns (admitted: bool)
      requires Valid()
      modifies this`outstanding
      ensures admitted <==> !committing && n + (old(outstanding) + 1) * MAXOPBLOCKS <= LOGSIZE
      ensures outstanding == old(outstanding) + if admitted then 1 else 0
    {
      if committing {
        admitted := false;
      } else if n + (outstanding + 1) * MAXOPBLOCKS > LOGSIZE {
        admitted := false;
      } else {
        outstanding := outstanding + 1;
        admitted := true;
      }
    }

    method EndOp() returns (r: EndOutcome)
      requires Valid()
      modifies this`disk, this`cache, this`history, this`n, this`outstanding, this`committing
      ensures Valid() && View() == old(View()) && outstanding == old(outstanding) - 1
      ensures r == if old(committing) then CommittingPanic else if outstanding != 0 then StillOpen
                   else if old(n > 0 && BusyCount(cache, held) >= NBUF) then NoBuffers else Committed
      ensures committing == (old(committing) || r == NoBuffers)
      ensures r != Committed ==> unchanged(this`disk, this`cache, this`history, this`n)
      ensures r == Committed ==> n == 0 && cache == map[] && HomeImage(g, disk) == old(View())
      ensures r == Committed && old(n) > 0 ==> CommitTrace(g, old(disk), old(List()), old(cache), old(history), history)
    {
      hide CommitTrace, Overlay, HomeImage, Loggable, Pins, BusyCount;
      var doCommit := false;
      outstanding := outstanding - 1;
      if committing {
        return CommittingPanic;
      }
      if outstanding == 0 {
        doCommit := true;
        committing := true;
      }
      r := StillOpen;
      if doCommit {
        var ok := Commit();
        if !ok {
          return NoBuffers;
        }
        committing := false;
        r := Committed;
      }
    }

    // log_write after the caller stored `data` in b's buffer, which it has from bread.
    method LogWrite(b: int, data: Block) returns (r: WriteOutcome)
      requires Valid() && HomeBlock(g, disk, b) && HasBuffer(cache, held, b, {})
      modifies this`n, this`cache, block
      ensures Valid()
      ensures r == if old(n) >= LOGSIZE || old(n) >= g.size - 1 then TooBig
                   else if outstanding < 1 then OutsideTransaction else Logged
      ensures r != Logged ==> n == old(n) && cache == old(cache) && block[..] == old(block[..])
      ensures r == Logged ==> List() == (if b in old(List()) then old(List()) else old(List()) + [b])
      ensures r == Logged ==> cache == old(cache)[b := data] && View() == old(View())[b := data]
    {
      hide HasBuffer, BusyCount, Overlay, HomeImage, Pins, Loggable;
      if n >= LOGSIZE || n >= g.size - 1 {
        return TooBig;
      }
      if outstanding < 1 {
        return OutsideTransaction;
      }
      ghost var bs := List();
      var i := 0;
      while i < n && block[i] != b
        invariant 0 <= i <= n
        invariant b !in block[..i]
      {
        i := i + 1;
      }
      block[i] := b;
      if i == n {
        n := n + 1;
      }
      cache := cache[b := data];
      r := Logged;
      PinnedBusy(old(cache), held, b, data);
      assert i < |bs| ==> List() == bs;
      assert i == |bs| ==> List() == bs + [b];
      PinsOne(old(cache), bs, b, data);
      if b !in bs { LoggableOne(g, disk, bs, b); }
      OverlayOne(HomeImage(g, disk), old(cache), b, data);
    }
  }

  lemma CommitTraceAt(g: Geometry, d: Disk, bs: seq<int>, m: map<int, Block>, h0: seq<Disk>, h1: seq<Disk>, j: nat)
    requires CommitTrace(g, d, bs, m, h0, h1) && j < 2 * |bs| + 2
    ensures |h1| == |h0| + 2 * |bs| + 2 && h1[|h0| + j] == CommitImage(g, d, bs, m, j + 1)
  {
    var n := |bs|;
    var c := WithHeader(g, FillImage(g, d, bs, m, n), bs);
    var fill, install := FillTraceOf(g, d, bs, m, n), InstallTraceOf(g, c, bs, n);
    assert InstallImage(g, c, bs, 0) == c;
    JoinAt(h0, fill, c, install, WithHeader(g, InstallImage(g, c, bs, n), []), j);
  }

  lemma JoinAt(h0: seq<Disk>, fill: seq<Disk>, c: Disk, install: seq<Disk>, e: Disk, j: nat)
    requires j < |fill| + |install| + 2
    ensures (h0 + fill + [c] + install + [e])[|h0| + j] ==
      if j < |fill| then fill[j] else if j == |fill| then c
      else if j <= |fill| + |install| then install[j - |fill| - 1] else e
  {
  }

  lemma RecoverTraceAt(g: Geometry, d: Disk, h0: seq<Disk>, h1: seq<Disk>, j: nat)
    requires RecoverTrace(g, d, h0, h1) && j < d[g.start][0] + 1
    ensures |h1| == |h0| + d[g.start][0] + 1
    ensures h1[|h0| + j] == RecoverImage(g, d, HeaderList(d[g.start]), j + 1)
  {
    var bs := HeaderList(d[g.start]);
    if j < |bs| {
      assert h1[|h0| + j] == InstallTraceOf(g, d, bs, |bs|)[j];
    }
  }

  // Cut the power after any of the block writes that Commit recorded: recovery yields the old
  // state up to the n-th write and the new one from the header write on.
  lemma CommitCrashPoints(g: Geometry, d: Disk, bs: seq<int>, m: map<int, Block>, h0: seq<Disk>, h1: seq<Disk>, j: nat)
    requires CommitTrace(g, d, bs, m, h0, h1) && HeaderOk(g, d) && d[g.start][0] == 0 && j < 2 * |bs| + 2
    ensures |h1| == |h0| + 2 * |bs| + 2 && HeaderOk(g, h1[|h0| + j])
    ensures Durable(g, h1[|h0| + j]) == if j < |bs| then HomeImage(g, d) else Overlay(HomeImage(g, d), m)
  {
    CommitTraceAt(g, d, bs, m, h0, h1, j);
    CommitIsAtomic(g, d, bs, m, j + 1);
  }

  // Cut the power after any of the block writes that a recovery recorded: nothing durable changes.
  lemma RecoveryCrashPoints(g: Geometry, d: Disk, h0: seq<Disk>, h1: seq<Disk>, j: nat)
    requires RecoverTrace(g, d, h0, h1) && j < d[g.start][0] + 1
    ensures |h1| == |h0| + d[g.start][0] + 1 && HeaderOk(g, h1[|h0| + j])
    ensures Durable(g, h1[|h0| + j]) == Durable(g, d)
  {
    RecoverTraceAt(g, d, h0, h1, j);
    RecoveryIsIdempotent(g, d, j + 1);
  }
}
