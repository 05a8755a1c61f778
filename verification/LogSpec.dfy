// Disk images and the redo log's meaning (log.c).
//
// A disk is a sequence of blocks and a block is BSIZE/4 words.  The log region
// holds a header block followed by the logged copies.  Everything here is a
// value-level account of what a disk image *means*; LogDevice.dfy runs the code
// and GroupCommit.dfy interleaves it with crashes.
module LogSpec {
  import opened Params
  import opened Sequences

  const BWORDS: int := 128

  type Block = b: seq<int> | |b| == BWORDS witness seq(BWORDS, _ => 0)
  type Disk = seq<Block>

  const ZeroBlock: Block := seq(BWORDS, _ => 0)

  // Where the log lives: block `start` is the header, the size-1 blocks after it hold copies.
  datatype Geometry = Geometry(start: nat, size: nat)

  predicate InLog(g: Geometry, b: int) {
    g.start <= b < g.start + g.size
  }

  predicate Fits(g: Geometry, d: Disk) {
    1 <= g.size && g.start + g.size <= |d|
  }

  // A block number that a transaction may name: on the disk and outside the log.
  predicate HomeBlock(g: Geometry, d: Disk, b: int) {
    0 <= b < |d| && !InLog(g, b)
  }

  // A list of block numbers that a transaction can carry.
  ghost predicate Loggable(g: Geometry, d: Disk, bs: seq<int>) {
    && Fits(g, d)
    && |bs| <= LOGSIZE && |bs| <= g.size - 1
    && NoDup(bs)
    && forall i :: 0 <= i < |bs| ==> HomeBlock(g, d, bs[i])
  }

  // struct logheader laid over a block: word 0 is n, the list follows.
  function HeaderList(h: Block): (bs: seq<int>)
    requires 0 <= h[0] <= LOGSIZE
  {
    h[1..1 + h[0]]
  }

  function EncodeHeader(h: Block, bs: seq<int>): (r: Block)
    requires |bs| <= LOGSIZE
    ensures r[0] == |bs| && HeaderList(r) == bs == r[1..1 + |bs|]
    ensures r[1 + |bs|..] == h[1 + |bs|..]
  {
    [|bs|] + bs + h[1 + |bs|..]
  }

  ghost predicate HeaderOk(g: Geometry, d: Disk) {
    && Fits(g, d)
    && 0 <= d[g.start][0] <= LOGSIZE
    && Loggable(g, d, HeaderList(d[g.start]))
  }

  function Find(bs: seq<int>, b: int): (i: int)
    ensures -1 <= i < |bs|
    ensures i >= 0 ==> bs[i] == b
    ensures i < 0 ==> b !in bs
  {
    if bs == [] then -1
    else if bs[|bs| - 1] == b then |bs| - 1
    else Find(bs[..|bs| - 1], b)
  }

  // The file system's blocks, with the log region blanked out.
  function HomeImage(g: Geometry, d: Disk): (r: Disk)
    ensures |r| == |d|
  {
    seq(|d|, b requires 0 <= b < |d| => if InLog(g, b) then ZeroBlock else d[b])
  }

  // The i-th logged copy.
  function Copy(g: Geometry, d: Disk, i: int): Block
    requires 0 <= i && g.start + 1 + i < |d|
  {
    d[g.start + 1 + i]
  }

  // m holds a buffer for exactly the listed blocks.
  ghost predicate Pins(m: map<int, Block>, bs: seq<int>) {
    && (forall b :: b in m ==> b in bs)
    && forall i :: 0 <= i < |bs| ==> bs[i] in m
  }

  // The first k copies hold the buffers of the first k listed blocks.
  ghost predicate Filled(g: Geometry, d: Disk, bs: seq<int>, m: map<int, Block>, k: int)
    requires k <= |bs| && g.start + 1 + |bs| <= |d| && Pins(m, bs)
  {
    forall i :: 0 <= i < k ==> Copy(g, d, i) == m[bs[i]]
  }

  // The first k listed blocks are at home.
  ghost predicate Installed(g: Geometry, d: Disk, bs: seq<int>, k: int)
    requires k <= |bs| && g.start + 1 + |bs| <= |d|
    requires forall i :: 0 <= i < |bs| ==> 0 <= bs[i] < |d|
  {
    forall i :: 0 <= i < k ==> d[bs[i]] == Copy(g, d, i)
  }

  // What a complete recovery of image d leaves in the file system's blocks.
  ghost function Durable(g: Geometry, d: Disk): (r: Disk)
    requires HeaderOk(g, d)
    ensures |r| == |d|
  {
    var bs := HeaderList(d[g.start]);
    seq(|d|, b requires 0 <= b < |d| =>
      if InLog(g, b) then ZeroBlock
      else if Find(bs, b) >= 0 then Copy(g, d, Find(bs, b))
      else d[b])
  }

  // ---- The single-block writes of commit() and recover_from_log(), as images ----

  // write_log: image after k log blocks have been written.
  function FillImage(g: Geometry, d: Disk, bs: seq<int>, m: map<int, Block>, k: nat): (r: Disk)
    requires k <= |bs| && g.start + 1 + k <= |d|
    requires forall i :: 0 <= i < |bs| ==> bs[i] in m
    ensures |r| == |d|
  {
    if k == 0 then d else FillImage(g, d, bs, m, k - 1)[g.start + k := m[bs[k - 1]]]
  }

  // write_head.
  function WithHeader(g: Geometry, d: Disk, bs: seq<int>): (r: Disk)
    requires g.start < |d| && |bs| <= LOGSIZE
    ensures |r| == |d|
  {
    d[g.start := EncodeHeader(d[g.start], bs)]
  }

  // install_trans: image after k blocks have been copied home.
  function InstallImage(g: Geometry, d: Disk, bs: seq<int>, k: nat): (r: Disk)
    requires k <= |bs| && g.start + 1 + k <= |d|
    requires forall i :: 0 <= i < |bs| ==> 0 <= bs[i] < |d|
    ensures |r| == |d|
  {
    if k == 0 then d
    else
      var p := InstallImage(g, d, bs, k - 1);
      p[bs[k - 1] := p[g.start + k]]
  }

  // The j-th image of commit(), j single-block writes after it began:
  // n log blocks, the header, n home blocks, the cleared header.
  function CommitImage(g: Geometry, d: Disk, bs: seq<int>, m: map<int, Block>, j: nat): (r: Disk)
    requires |bs| <= LOGSIZE && g.start + 1 + |bs| <= |d|
    requires forall i :: 0 <= i < |bs| ==> 0 <= bs[i] < |d| && bs[i] in m
    requires j <= 2 * |bs| + 2
    ensures |r| == |d|
  {
    var n := |bs|;
    if j <= n then FillImage(g, d, bs, m, j)
    else
      var committed := WithHeader(g, FillImage(g, d, bs, m, n), bs);
      if j <= 2 * n + 1 then InstallImage(g, committed, bs, j - n - 1)
      else WithHeader(g, InstallImage(g, committed, bs, n), [])
  }

  // The j-th image of recover_from_log() started on d.
  function RecoverImage(g: Geometry, d: Disk, bs: seq<int>, j: nat): (r: Disk)
    requires |bs| <= LOGSIZE && g.start + 1 + |bs| <= |d|
    requires forall i :: 0 <= i < |bs| ==> 0 <= bs[i] < |d|
    requires j <= |bs| + 1
    ensures |r| == |d|
  {
    if j <= |bs| then InstallImage(g, d, bs, j)
    else WithHeader(g, InstallImage(g, d, bs, |bs|), [])
  }

  // The file system's blocks with logged contents laid over them.
  function Overlay(d: Disk, m: map<int, Block>): (r: Disk)
    ensures |r| == |d|
  {
    seq(|d|, b requires 0 <= b < |d| => if b in m then m[b] else d[b])
  }

  // ---- One more block in the transaction ----

  lemma OverlayOne(d: Disk, m: map<int, Block>, b: int, x: Block)
    requires 0 <= b < |d|
    ensures Overlay(d, m[b := x]) == Overlay(d, m)[b := x]
  {
    var l, r := Overlay(d, m[b := x]), Overlay(d, m)[b := x];
    assert |l| == |r| && forall i :: 0 <= i < |d| ==> l[i] == r[i];
  }

  lemma PinsOne(m: map<int, Block>, bs: seq<int>, b: int, x: Block)
    requires Pins(m, bs)
    ensures Pins(m[b := x], if b in bs then bs else bs + [b])
  {
    var cs := if b in bs then bs else bs + [b];
    forall c | c in m[b := x] ensures c in cs {
      if c != b { assert c in bs; }
    }
  }

  lemma LoggableOne(g: Geometry, d: Disk, bs: seq<int>, b: int)
    requires Loggable(g, d, bs) && HomeBlock(g, d, b) && b !in bs && |bs| < LOGSIZE && |bs| + 1 < g.size
    ensures Loggable(g, d, bs + [b])
  {
    var cs := bs + [b];
    forall i, j | 0 <= i < j < |cs| ensures cs[i] != cs[j] {
      if j == |bs| { assert bs[i] in bs; }
    }
  }

  // ---- One write at a time ----

  lemma FindUnique(bs: seq<int>, i: int)
    requires NoDup(bs) && 0 <= i < |bs|
    ensures Find(bs, bs[i]) == i
  {
    var k := Find(bs, bs[i]);
    assert k >= 0;
  }

  lemma NothingLogged(g: Geometry, d: Disk)
    requires HeaderOk(g, d) && d[g.start][0] == 0
    ensures Durable(g, d) == HomeImage(g, d)
  {
    forall b | 0 <= b < |d| ensures Durable(g, d)[b] == HomeImage(g, d)[b] {
      assert Find(HeaderList(d[g.start]), b) < 0;
    }
  }

  // Writing into the log area while the header is empty changes nothing durable.
  lemma FillKeepsDurable(g: Geometry, d: Disk, i: nat, x: Block)
    requires HeaderOk(g, d) && d[g.start][0] == 0
    requires i + 1 < g.size
    ensures HeaderOk(g, d[g.start + 1 + i := x])
    ensures Durable(g, d[g.start + 1 + i := x]) == Durable(g, d) == HomeImage(g, d)
  {
    var e := d[g.start + 1 + i := x];
    assert HeaderList(e[g.start]) == [];
    assert HeaderList(d[g.start]) == [];
    assert Durable(g, e) == Durable(g, d);
    assert Durable(g, d) == HomeImage(g, d) by { NothingLogged(g, d); }
  }

  // The header write is the commit point: it makes the logged data durable, all of it.
  lemma HeaderWriteCommits(g: Geometry, d: Disk, bs: seq<int>, m: map<int, Block>)
    requires HeaderOk(g, d) && d[g.start][0] == 0
    requires Loggable(g, d, bs) && Pins(m, bs)
    requires Filled(g, d, bs, m, |bs|)
    ensures HeaderOk(g, WithHeader(g, d, bs))
    ensures Durable(g, WithHeader(g, d, bs)) == Overlay(Durable(g, d), m)
  {
    hide Durable, Overlay, NoDup;
    var e := WithHeader(g, d, bs);
    assert HeaderList(e[g.start]) == bs;
    assert HeaderOk(g, e);
    forall b | 0 <= b < |d|
      ensures Durable(g, e)[b] == Overlay(Durable(g, d), m)[b]
    {
      CommittedBlock(g, d, bs, m, b);
    }
  }

  // One block before and after the header write.
  lemma CommittedBlock(g: Geometry, d: Disk, bs: seq<int>, m: map<int, Block>, b: int)
    requires HeaderOk(g, d) && d[g.start][0] == 0 && 0 <= b < |d|
    requires Loggable(g, d, bs) && Pins(m, bs) && Filled(g, d, bs, m, |bs|) && HeaderOk(g, WithHeader(g, d, bs))
    ensures Durable(g, WithHeader(g, d, bs))[b] == Overlay(Durable(g, d), m)[b]
  {
    hide NoDup;
    var e := WithHeader(g, d, bs);
    assert HeaderList(d[g.start]) == [] && HeaderList(e[g.start]) == bs;
    var i := Find(bs, b);
    if i >= 0 {
      assert HomeBlock(g, d, bs[i]);
      assert Copy(g, e, i) == Copy(g, d, i) == m[bs[i]];
    }
  }

  // Copying a logged block home changes nothing durable.
  lemma InstallKeepsDurable(g: Geometry, d: Disk, i: nat)
    requires HeaderOk(g, d) && i < d[g.start][0]
    ensures var bs := HeaderList(d[g.start]);
      var e := d[bs[i] := d[g.start + 1 + i]];
      HeaderOk(g, e) && HeaderList(e[g.start]) == bs && Durable(g, e) == Durable(g, d)
  {
    var bs := HeaderList(d[g.start]);
    assert HomeBlock(g, d, bs[i]);
    var e := d[bs[i] := d[g.start + 1 + i]];
    assert e[g.start] == d[g.start];
    FindUnique(bs, i);
    forall b | 0 <= b < |d| ensures Durable(g, e)[b] == Durable(g, d)[b] {
    }
  }

  // Once every copy is home, clearing the header changes nothing durable.
  lemma ClearKeepsDurable(g: Geometry, d: Disk)
    requires HeaderOk(g, d)
    requires Installed(g, d, HeaderList(d[g.start]), d[g.start][0])
    ensures HeaderOk(g, WithHeader(g, d, []))
    ensures Durable(g, WithHeader(g, d, [])) == Durable(g, d) == HomeImage(g, d)
  {
    var e := WithHeader(g, d, []);
    var bs := HeaderList(d[g.start]);
    assert HeaderList(e[g.start]) == [];
    forall b | 0 <= b < |d| ensures Durable(g, e)[b] == Durable(g, d)[b] == HomeImage(g, d)[b] {
      if !InLog(g, b) && Find(bs, b) >= 0 {
        assert bs[Find(bs, b)] == b;
      }
    }
  }

  // ---- Whole traces ----

  lemma {:induction false} FillTrace(g: Geometry, d: Disk, bs: seq<int>, m: map<int, Block>, k: nat)
    requires HeaderOk(g, d) && d[g.start][0] == 0
    requires Loggable(g, d, bs) && Pins(m, bs) && k <= |bs|
    ensures var e := FillImage(g, d, bs, m, k);
      && HeaderOk(g, e) && e[g.start] == d[g.start]
      && Durable(g, e) == Durable(g, d)
      && Filled(g, e, bs, m, k)
  {
    if k > 0 {
      FillTrace(g, d, bs, m, k - 1);
      FillKeepsDurable(g, FillImage(g, d, bs, m, k - 1), k - 1, m[bs[k - 1]]);
    }
  }

  lemma InstallOne(g: Geometry, d: Disk, bs: seq<int>, i: nat)
    requires Loggable(g, d, bs) && i < |bs| && Installed(g, d, bs, i)
    ensures var e := d[bs[i] := Copy(g, d, i)];
      Installed(g, e, bs, i + 1) && forall k :: 0 <= k < |bs| ==> Copy(g, e, k) == Copy(g, d, k)
  {
    assert HomeBlock(g, d, bs[i]);
  }

  lemma InstallStep(g: Geometry, d: Disk, bs: seq<int>, i: nat)
    requires HeaderOk(g, d) && HeaderList(d[g.start]) == bs && i < |bs| && Installed(g, d, bs, i)
    ensures var e := d[bs[i] := d[g.start + 1 + i]];
      HeaderOk(g, e) && e[g.start] == d[g.start] && Durable(g, e) == Durable(g, d) && Installed(g, e, bs, i + 1)
  {
    assert HomeBlock(g, d, bs[i]);
    InstallKeepsDurable(g, d, i);
    InstallOne(g, d, bs, i);
  }

  lemma {:induction false} InstallTrace(g: Geometry, d: Disk, k: nat)
    requires HeaderOk(g, d) && k <= d[g.start][0]
    ensures var bs := HeaderList(d[g.start]);
      var e := InstallImage(g, d, bs, k);
      && HeaderOk(g, e) && e[g.start] == d[g.start]
      && Durable(g, e) == Durable(g, d)
      && Installed(g, e, bs, k)
  {
    hide Durable;
    if k > 0 {
      var bs := HeaderList(d[g.start]);
      InstallTrace(g, d, k - 1);
      InstallStep(g, InstallImage(g, d, bs, k - 1), bs, k - 1);
    }
  }

  // Crash atomicity of commit(): cut the power after any j of its single-block writes.
  // Up to and including the n log blocks recovery yields the old state; from the header
  // write on it yields the new one, and the finished commit has the new state in place.
  lemma CommitIsAtomic(g: Geometry, d: Disk, bs: seq<int>, m: map<int, Block>, j: nat)
    requires HeaderOk(g, d) && d[g.start][0] == 0
    requires Loggable(g, d, bs) && Pins(m, bs)
    requires j <= 2 * |bs| + 2
    ensures var e := CommitImage(g, d, bs, m, j);
      && HeaderOk(g, e)
      && Durable(g, e) == (if j <= |bs| then HomeImage(g, d) else Overlay(HomeImage(g, d), m))
      && (j == 2 * |bs| + 2 ==> e[g.start][0] == 0 && HomeImage(g, e) == Overlay(HomeImage(g, d), m))
  {
    hide Durable, Overlay, HomeImage, NoDup, Filled, Installed, FillImage, InstallImage, WithHeader;
    var n := |bs|;
    NothingLogged(g, d);
    if j <= n {
      FillTrace(g, d, bs, m, j);
    } else {
      Committed(g, d, bs, m);
      var c := WithHeader(g, FillImage(g, d, bs, m, n), bs);
      if j <= 2 * n + 1 {
        InstallTrace(g, c, j - n - 1);
      } else {
        RecoveryIsIdempotent(g, c, n + 1);
      }
    }
  }

  // The image right after the header write.
  lemma Committed(g: Geometry, d: Disk, bs: seq<int>, m: map<int, Block>)
    requires HeaderOk(g, d) && d[g.start][0] == 0
    requires Loggable(g, d, bs) && Pins(m, bs)
    ensures var c := WithHeader(g, FillImage(g, d, bs, m, |bs|), bs);
      && HeaderOk(g, c) && c[g.start][0] == |bs| && HeaderList(c[g.start]) == bs
      && Durable(g, c) == Overlay(HomeImage(g, d), m)
  {
    hide Durable, Overlay, HomeImage, NoDup, FillImage;
    NothingLogged(g, d);
    FillTrace(g, d, bs, m, |bs|);
    HeaderWriteCommits(g, FillImage(g, d, bs, m, |bs|), bs, m);
  }

  // Recovery itself may be cut after any j of its writes without changing what is durable;
  // run to the end it leaves that state in the home blocks and an empty header.
  lemma RecoveryIsIdempotent(g: Geometry, d: Disk, j: nat)
    requires HeaderOk(g, d)
    requires j <= d[g.start][0] + 1
    ensures var e := RecoverImage(g, d, HeaderList(d[g.start]), j);
      && HeaderOk(g, e) && Durable(g, e) == Durable(g, d)
      && (j == d[g.start][0] + 1 ==> e[g.start][0] == 0 && HomeImage(g, e) == Durable(g, d))
  {
    hide Durable, HomeImage, NoDup, InstallImage;
    var bs := HeaderList(d[g.start]);
    if j <= |bs| {
      InstallTrace(g, d, j);
    } else {
      InstallTrace(g, d, |bs|);
      ClearKeepsDurable(g, InstallImage(g, d, bs, |bs|));
      var e := RecoverImage(g, d, bs, j);
      NothingLogged(g, e);
    }
  }

  // e is what is on disk when a recovery of d loses power after j writes.
  ghost predicate CutRecovery(g: Geometry, d: Disk, e: Disk) {
    HeaderOk(g, d) &&
    exists j: nat :: j <= d[g.start][0] + 1 && e == RecoverImage(g, d, HeaderList(d[g.start]), j)
  }

  // Any number of interrupted recoveries in a row.
  ghost predicate CrashChain(g: Geometry, ds: seq<Disk>) {
    |ds| > 0 && forall i :: 0 <= i < |ds| - 1 ==> CutRecovery(g, ds[i], ds[i + 1])
  }

  lemma {:induction false} ChainKeepsDurable(g: Geometry, ds: seq<Disk>)
    requires CrashChain(g, ds) && HeaderOk(g, ds[0])
    ensures HeaderOk(g, ds[|ds| - 1])
    ensures Durable(g, ds[|ds| - 1]) == Durable(g, ds[0])
  {
    hide Durable, HomeImage, NoDup, RecoverImage;
    if |ds| > 1 {
      var front := ds[..|ds| - 1];
      assert forall i :: 0 <= i < |front| ==> front[i] == ds[i];
      ChainKeepsDurable(g, front);
      var d := ds[|ds| - 2];
      assert CutRecovery(g, ds[|ds| - 2], ds[|ds| - 2 + 1]);
      var j: nat :| j <= d[g.start][0] + 1 && ds[|ds| - 1] == RecoverImage(g, d, HeaderList(d[g.start]), j);
      RecoveryIsIdempotent(g, d, j);
    }
  }

  // The whole promise: a commit cut after any j writes, then any number of recoveries that
  // are themselves cut anywhere, then one recovery that completes.  The home blocks are all
  // old or all new, and all new exactly when the first header write reached the disk.
  lemma CrashAtomicity(g: Geometry, d: Disk, bs: seq<int>, m: map<int, Block>, j: nat, ds: seq<Disk>)
    requires HeaderOk(g, d) && d[g.start][0] == 0
    requires Loggable(g, d, bs) && Pins(m, bs)
    requires j <= 2 * |bs| + 2
    requires CrashChain(g, ds) && ds[0] == CommitImage(g, d, bs, m, j)
    ensures var last := ds[|ds| - 1];
      && HeaderOk(g, last)
      && var e := RecoverImage(g, last, HeaderList(last[g.start]), last[g.start][0] + 1);
      && e[g.start][0] == 0
      && HomeImage(g, e) == if j <= |bs| then HomeImage(g, d) else Overlay(HomeImage(g, d), m)
  {
    hide Durable, HomeImage, Overlay, NoDup, RecoverImage, CommitImage;
    CommitIsAtomic(g, d, bs, m, j);
    ChainKeepsDurable(g, ds);
    RecoveryIsIdempotent(g, ds[|ds| - 1], ds[|ds| - 1][g.start][0] + 1);
  }
}
