// Group commit under concurrency and crashes (log.c).
//
// Any number of processes run begin_op / log_write / end_op; the last one out commits, and
// those that begin_op cannot admit sleep until an end_op wakes them.  Every critical section
// under log.lock is one event, every single-block disk write is one event, log_write's unlocked
// checks and every bread and brelse are events of their own, and the power can fail between any
// two events, including during recovery.  Processes outside an operation read blocks too.
//
// The cache has NBUF buffers.  A buffer is busy while its block is pinned or some process has a
// reference to it; bread panics when it needs a buffer and all are busy (bio.c:81-92).
module GroupCommit {
  import opened Params
  import opened LogSpec
  import opened Sequences

  // An update made by log_write inside the operation with number `op`.
  datatype Update = Update(op: nat, b: int, data: Block)

  datatype Phase =
    | Idle
    | Asleep                                            // in begin_op, sleeping on &log
    | InOp(op: nat, used: nat)                          // between begin_op and end_op
    | Checked(op: nat, used: nat, b: int, data: Block)  // past log_write's checks, before log.lock
    | Filling(filled: nat)                              // commit: i log blocks written
    | Installing(installed: nat)                         // commit: header written, i blocks home
    | Finishing                                         // commit done, `committing` still set
  {
    predicate Out() { Idle? || Asleep? }
    predicate Open() { InOp? || Checked? }
    predicate Commits() { Filling? || Installing? || Finishing? }
  }

  datatype Mode = Running | Booting(i: nat) | Panicked

  datatype State = State(
    g: Geometry, disk: Disk, cache: map<int, Block>, list: seq<int>,
    outstanding: int, committing: bool, procs: seq<Phase>,
    refs: seq<set<int>>,      // the blocks each process has got by bread and not given back
    mode: Mode,
    start: Disk,              // the file system's blocks when the run began
    past: seq<Update>,        // updates whose commit header reached the disk
    pending: seq<Update>,     // updates logged since
    lost: seq<Update>,        // updates that were pending when the power failed
    nextOp: nat)

  datatype Action = Get(b: int) | Put(b: int) | Begin | Wait | Check(b: int, data: Block) | Append | End
                  | WriteCopy | WriteHead | InstallCopy | ClearHead | Finish

  datatype Event = Act(p: nat, a: Action) | Kill(q: nat) | Crash | Recover

  function Apply(d: Disk, us: seq<Update>): (r: Disk)
    ensures |r| == |d|
  {
    if us == [] then d
    else
      var u := us[|us| - 1];
      var r := Apply(d, us[..|us| - 1]);
      if 0 <= u.b < |d| then r[u.b := u.data] else r
  }

  // begin_op's test: no commit in progress, and one more whole reservation fits.
  predicate Admits(s: State) {
    !s.committing && |s.list| + (s.outstanding + 1) * MAXOPBLOCKS <= LOGSIZE
  }

  // wakeup(&log)
  function Woken(ps: seq<Phase>): (r: seq<Phase>)
    ensures |r| == |ps|
    ensures forall p :: 0 <= p < |ps| ==> r[p] == if ps[p].Asleep? then Idle else ps[p]
  {
    seq(|ps|, p requires 0 <= p < |ps| => if ps[p].Asleep? then Idle else ps[p])
  }

  function Held(refs: seq<set<int>>): set<int> {
    set p, b | 0 <= p < |refs| && b in refs[p] :: b
  }

  // The blocks whose buffers cannot be recycled.
  function Busy(s: State): set<int> {
    s.cache.Keys + Held(s.refs)
  }

  // The block of the log that a commit reads next.
  function LogBlock(s: State, i: nat): int {
    if i < |s.list| then s.g.start + 1 + i else s.g.start
  }

  // A process in phase ph may read block b.
  predicate Reads(s: State, ph: Phase, b: int) {
    match ph
    case Idle => HomeBlock(s.g, s.disk, b)
    case InOp(_, _) => HomeBlock(s.g, s.disk, b)
    case Filling(i) => s.list != [] && b == LogBlock(s, i)
    case Installing(i) => b == LogBlock(s, i)
    case _ => false
  }

  // Can a process in phase ph with references to `held` take action a?  No reference is kept across begin_op
  // or end_op.
  predicate CanAct(s: State, ph: Phase, held: set<int>, a: Action) {
    match a
    case Get(b) => Reads(s, ph, b) && b !in held
    case Put(b) => (ph.Idle? || ph.InOp?) && b in held
    case Begin => ph.Idle? && held == {} && Admits(s)
    case Wait => ph.Idle? && held == {} && !Admits(s)
    case Check(b, _) => ph.InOp? && b in held && HomeBlock(s.g, s.disk, b)
    case Append => ph.Checked?
    case End => ph.InOp? && held == {}
    case WriteCopy =>
      ph.Filling? && CopyReady(s, ph.filled) && s.list[ph.filled] in s.cache && LogBlock(s, ph.filled) in held
    case WriteHead => ph.Filling? && ph.filled == |s.list| && 0 < |s.list| <= LOGSIZE && s.g.start in held
    case InstallCopy =>
      && ph.Installing? && CopyReady(s, ph.installed) && 0 <= s.list[ph.installed] < |s.disk|
      && LogBlock(s, ph.installed) in held
    case ClearHead =>
      (ph.Installing? && ph.installed == |s.list| && s.g.start in held) || (ph.Filling? && s.list == [])
    case Finish => ph.Finishing?
  }

  predicate CopyReady(s: State, i: nat) {
    i < |s.list| && s.g.start + 1 + i < |s.disk|
  }

  predicate Enabled(s: State, e: Event) {
    && s.g.start < |s.disk|
    && match e
       case Act(p, a) => s.mode == Running && p < |s.procs| && p < |s.refs| && CanAct(s, s.procs[p], s.refs[p], a)
       case Kill(q) => s.mode == Running && q < |s.procs|
       case Crash => true
       case Recover =>
         && s.mode.Booting?
         && (s.mode.i < |s.list| ==> CopyReady(s, s.mode.i) && 0 <= s.list[s.mode.i] < |s.disk|)
  }

  function Next(s: State, e: Event): State
    requires Enabled(s, e)
  {
    match e
    case Act(p, a) => Do(s, p, a)
    case Kill(q) => s.(procs := s.procs[q := if s.procs[q].Asleep? then Idle else s.procs[q]])
    case Crash =>
      // Memory is gone; the next boot starts with read_head.
      s.(cache := map[], outstanding := 0, committing := false, pending := [], lost := s.lost + s.pending,
         procs := seq(|s.procs|, _ => Idle), refs := seq(|s.refs|, _ => {}), mode := Booting(0),
         list := if 0 <= s.disk[s.g.start][0] <= LOGSIZE then HeaderList(s.disk[s.g.start]) else [])
    case Recover =>
      var i := s.mode.i;
      if i < |s.list| then
        s.(disk := s.disk[s.list[i] := Copy(s.g, s.disk, i)], mode := Booting(i + 1))
      else
        s.(disk := WithHeader(s.g, s.disk, []), list := [], mode := Running)
  }

  function Do(s: State, p: nat, a: Action): State
    requires Enabled(s, Act(p, a))
  {
    var ph := s.procs[p];
    match a
    case Get(b) =>
      if b !in Busy(s) && |Busy(s)| >= NBUF then s.(mode := Panicked)
      else s.(refs := s.refs[p := s.refs[p] + {b}])
    case Put(b) => s.(refs := s.refs[p := s.refs[p] - {b}])
    case Begin =>
      s.(outstanding := s.outstanding + 1, procs := s.procs[p := InOp(s.nextOp, 0)], nextOp := s.nextOp + 1)
    case Wait => s.(procs := s.procs[p := Asleep])
    case Check(b, data) =>
      if |s.list| >= LOGSIZE || |s.list| >= s.g.size - 1 || s.outstanding < 1 then s.(mode := Panicked)
      else s.(procs := s.procs[p := Checked(ph.op, ph.used, b, data)])
    case Append =>
      var absorbed := ph.b in s.list;
      s.(list := if absorbed then s.list else s.list + [ph.b],
         cache := s.cache[ph.b := ph.data],
         pending := s.pending + [Update(ph.op, ph.b, ph.data)],
         procs := s.procs[p := InOp(ph.op, if absorbed then ph.used else ph.used + 1)])
    case End =>
      if s.committing then s.(outstanding := s.outstanding - 1, mode := Panicked)
      else if s.outstanding == 1 then
        s.(outstanding := 0, committing := true, procs := s.procs[p := Filling(0)])
      else s.(outstanding := s.outstanding - 1, procs := Woken(s.procs[p := Idle]))
    case WriteCopy =>
      s.(disk := s.disk[s.g.start + 1 + ph.filled := s.cache[s.list[ph.filled]]],
         procs := s.procs[p := Filling(ph.filled + 1)], refs := s.refs[p := {}])
    case WriteHead =>
      s.(disk := WithHeader(s.g, s.disk, s.list), procs := s.procs[p := Installing(0)], refs := s.refs[p := {}],
         past := s.past + s.pending, pending := [])
    case InstallCopy =>
      s.(disk := s.disk[s.list[ph.installed] := Copy(s.g, s.disk, ph.installed)],
         cache := s.cache - {s.list[ph.installed]},
         procs := s.procs[p := Installing(ph.installed + 1)], refs := s.refs[p := {}])
    case ClearHead =>
      // With nothing logged commit() writes nothing.
      if ph.Filling? then s.(procs := s.procs[p := Finishing])
      else s.(disk := WithHeader(s.g, s.disk, []), list := [], procs := s.procs[p := Finishing], refs := s.refs[p := {}])
    case Finish =>
      s.(committing := false, procs := Woken(s.procs[p := Idle]))
  }

  // ---- Counting over processes ----

  function Outstanding(ps: seq<Phase>): nat {
    if ps == [] then 0 else Outstanding(ps[..|ps| - 1]) + if ps[|ps| - 1].Open() then 1 else 0
  }

  // Log slots reserved by begin_op and not used yet.
  function Unused(ps: seq<Phase>): int {
    if ps == [] then 0 else Unused(ps[..|ps| - 1]) + if ps[|ps| - 1].Open() then MAXOPBLOCKS - ps[|ps| - 1].used else 0
  }

  lemma {:induction false} CountUpdate(ps: seq<Phase>, p: nat, ph: Phase)
    requires p < |ps|
    ensures Outstanding(ps[p := ph]) == Outstanding(ps) - (if ps[p].Open() then 1 else 0) + (if ph.Open() then 1 else 0)
    ensures Unused(ps[p := ph]) == Unused(ps) - (if ps[p].Open() then MAXOPBLOCKS - ps[p].used else 0)
                                              + (if ph.Open() then MAXOPBLOCKS - ph.used else 0)
  {
    var front := ps[..|ps| - 1];
    if p == |ps| - 1 {
      assert ps[p := ph][..|ps| - 1] == front;
    } else {
      assert ps[p := ph][..|ps| - 1] == front[p := ph];
      CountUpdate(front, p, ph);
    }
  }

  ghost predicate Budgeted(ps: seq<Phase>) {
    forall p :: 0 <= p < |ps| && ps[p].Open() ==> ps[p].used <= MAXOPBLOCKS
  }

  lemma {:induction false} CountBounds(ps: seq<Phase>)
    requires Budgeted(ps)
    ensures 0 <= Unused(ps) <= MAXOPBLOCKS * Outstanding(ps)
    ensures forall p :: 0 <= p < |ps| && ps[p].Open() ==> 1 <= Outstanding(ps) && MAXOPBLOCKS - ps[p].used <= Unused(ps)
  {
    if ps != [] {
      var front := ps[..|ps| - 1];
      CountBounds(front);
      forall p | 0 <= p < |ps| && ps[p].Open()
        ensures 1 <= Outstanding(ps) && MAXOPBLOCKS - ps[p].used <= Unused(ps)
      {
        if p < |ps| - 1 { assert front[p] == ps[p]; }
      }
    }
  }

  lemma {:induction false} NoneOpen(ps: seq<Phase>)
    requires forall p :: 0 <= p < |ps| ==> !ps[p].Open()
    ensures Outstanding(ps) == 0 && Unused(ps) == 0
  {
    if ps != [] { NoneOpen(ps[..|ps| - 1]); }
  }

  // If one process is open and the count is one, no other process is open.
  lemma {:induction false} OnlyOne(ps: seq<Phase>, p: nat)
    requires p < |ps| && ps[p].Open() && Outstanding(ps) == 1
    ensures forall q :: 0 <= q < |ps| && q != p ==> !ps[q].Open()
  {
    forall q | 0 <= q < |ps| && q != p ensures !ps[q].Open() {
      CountUpdate(ps, p, Idle);
      var rest := ps[p := Idle];
      if rest[q].Open() { SomeOpen(rest, q); }
    }
  }

  lemma {:induction false} SomeOpen(ps: seq<Phase>, q: nat)
    requires q < |ps| && ps[q].Open()
    ensures Outstanding(ps) >= 1
  {
    if q < |ps| - 1 { SomeOpen(ps[..|ps| - 1], q); }
  }

  lemma {:induction false} WokenCounts(ps: seq<Phase>)
    ensures Outstanding(Woken(ps)) == Outstanding(ps) && Unused(Woken(ps)) == Unused(ps)
  {
    if ps != [] {
      var front := ps[..|ps| - 1];
      WokenCounts(front);
      assert Woken(ps)[..|ps| - 1] == Woken(front);
    }
  }

  // ---- The control invariant: who may be where.  It holds for every log, however small ----

  // p is committing and everybody else is out.
  ghost predicate SoleCommitter(ps: seq<Phase>, p: int) {
    && 0 <= p < |ps| && ps[p].Commits()
    && forall q :: 0 <= q < |ps| && q != p ==> ps[q].Out()
  }

  ghost predicate NobodyCommits(ps: seq<Phase>) {
    forall p :: 0 <= p < |ps| ==> !ps[p].Commits()
  }

  ghost predicate AllIdle(ps: seq<Phase>) {
    forall p :: 0 <= p < |ps| ==> ps[p].Idle?
  }

  ghost predicate NobodySleeps(ps: seq<Phase>) {
    forall p :: 0 <= p < |ps| ==> !ps[p].Asleep?
  }

  ghost predicate NobodyFinishes(ps: seq<Phase>) {
    forall p :: 0 <= p < |ps| ==> !ps[p].Finishing?
  }

  ghost predicate Control(s: State) {
    && (s.mode == Running ==>
        && s.outstanding == Outstanding(s.procs) && NoDup(s.list)
        && (s.committing ==> exists p :: SoleCommitter(s.procs, p))
        && (!s.committing ==> NobodyCommits(s.procs))
        && (!s.committing && s.outstanding == 0 ==> s.list == [] && NobodySleeps(s.procs))
        && (s.list != [] ==> NobodyFinishes(s.procs)))
    && (s.mode.Booting? ==> !s.committing && s.outstanding == 0 && AllIdle(s.procs) && |s.list| <= LOGSIZE)
  }

  lemma CommittingIsQuiet(s: State)
    requires Control(s) && s.mode == Running && s.committing
    ensures s.outstanding == 0
    ensures forall p :: 0 <= p < |s.procs| ==> !s.procs[p].Open()
  {
    var p :| SoleCommitter(s.procs, p);
    NoneOpen(s.procs);
  }

  lemma IdleCounts(ps: seq<Phase>)
    requires AllIdle(ps)
    ensures Outstanding(ps) == 0 && Unused(ps) == 0 && NobodyCommits(ps) && NobodySleeps(ps) && NobodyFinishes(ps)
  {
    NoneOpen(ps);
  }

  lemma ControlOpsNext(s: State, p: nat, a: Action)
    requires Control(s) && Enabled(s, Act(p, a))
    requires a.Get? || a.Put? || a.Begin? || a.Wait? || a.Check? || a.Append?
    ensures Control(Do(s, p, a))
  {
    var t := Do(s, p, a);
    CountUpdate(s.procs, p, t.procs[p]);
    if s.committing {
      CommittingIsQuiet(s);
      if a.Wait? {
        var q :| SoleCommitter(s.procs, q);
        assert SoleCommitter(t.procs, q);
      }
    } else if a.Check? || a.Append? {
      SomeOpen(s.procs, p);
    }
  }

  lemma ControlEndNext(s: State, p: nat)
    requires Control(s) && Enabled(s, Act(p, End))
    ensures Do(s, p, End).mode == Running && Control(Do(s, p, End))
  {
    var t := Do(s, p, End);
    if s.committing { CommittingIsQuiet(s); }
    SomeOpen(s.procs, p);
    CountUpdate(s.procs, p, if s.outstanding == 1 then Filling(0) else Idle);
    if s.outstanding == 1 {
      OnlyOne(s.procs, p);
      assert SoleCommitter(t.procs, p);
    } else {
      WokenCounts(s.procs[p := Idle]);
    }
  }

  lemma TheCommitter(s: State, p: nat)
    requires Control(s) && s.mode == Running && p < |s.procs| && s.procs[p].Commits()
    ensures SoleCommitter(s.procs, p) && s.committing
  {
    var q :| SoleCommitter(s.procs, q);
    assert q == p;
  }

  lemma ControlCommitNext(s: State, p: nat, a: Action)
    requires Control(s) && Enabled(s, Act(p, a))
    requires a.WriteCopy? || a.WriteHead? || a.InstallCopy? || a.ClearHead? || a.Finish?
    ensures SoleCommitter(s.procs, p) && s.committing
    ensures Control(Do(s, p, a))
  {
    TheCommitter(s, p);
    CommittingIsQuiet(s);
    var t := Do(s, p, a);
    if a.Finish? {
      CountUpdate(s.procs, p, Idle);
      WokenCounts(s.procs[p := Idle]);
      assert AllIdle(t.procs);
      IdleCounts(t.procs);
    } else {
      CountUpdate(s.procs, p, t.procs[p]);
      assert SoleCommitter(t.procs, p);
    }
  }

  lemma ControlKillNext(s: State, q: nat)
    requires Control(s) && Enabled(s, Kill(q))
    ensures Control(Next(s, Kill(q)))
  {
    var t := Next(s, Kill(q));
    CountUpdate(s.procs, q, t.procs[q]);
    if s.committing {
      var p :| SoleCommitter(s.procs, p);
      assert SoleCommitter(t.procs, p);
    }
  }

  lemma ControlNext(s: State, e: Event)
    requires Control(s) && Enabled(s, e)
    ensures Control(Next(s, e))
  {
    match e
    case Act(p, a) =>
      if a.Get? || a.Put? || a.Begin? || a.Wait? || a.Check? || a.Append? { ControlOpsNext(s, p, a); }
      else if a.End? { ControlEndNext(s, p); }
      else { ControlCommitNext(s, p, a); }
    case Kill(q) => ControlKillNext(s, q);
    case Crash =>
      assert AllIdle(Next(s, e).procs);
    case Recover =>
      IdleCounts(s.procs);
  }

  // ---- The reservation: what begin_op promises if no operation exceeds MAXOPBLOCKS ----

  ghost predicate Reserved(s: State) {
    && Budgeted(s.procs) && |s.list| <= LOGSIZE
    && (s.mode == Running ==> |s.list| + Unused(s.procs) <= LOGSIZE)
  }

  lemma ReservedOpsNext(s: State, p: nat, a: Action)
    requires Control(s) && Reserved(s) && Enabled(s, Act(p, a)) && Budgeted(Do(s, p, a).procs)
    requires a.Get? || a.Put? || a.Begin? || a.Wait? || a.Check? || a.Append?
    ensures Reserved(Do(s, p, a))
  {
    hide NoDup, SoleCommitter, NobodyCommits, HomeBlock;
    var t := Do(s, p, a);
    CountBounds(s.procs);
    CountBounds(t.procs);
    CountUpdate(s.procs, p, t.procs[p]);
  }

  lemma ReservedOutNext(s: State, p: nat, a: Action)
    requires Control(s) && Reserved(s) && Enabled(s, Act(p, a)) && Budgeted(Do(s, p, a).procs)
    requires a.End? || a.Finish?
    ensures Reserved(Do(s, p, a))
  {
    hide NoDup, SoleCommitter, NobodyCommits;
    CountBounds(s.procs);
    CountUpdate(s.procs, p, Idle);
    CountUpdate(s.procs, p, Filling(0));
    WokenCounts(s.procs[p := Idle]);
  }

  lemma ReservedCommitNext(s: State, p: nat, a: Action)
    requires Control(s) && Reserved(s) && Enabled(s, Act(p, a)) && Budgeted(Do(s, p, a).procs)
    requires a.WriteCopy? || a.WriteHead? || a.InstallCopy? || a.ClearHead?
    ensures Reserved(Do(s, p, a))
  {
    hide NoDup, SoleCommitter, NobodyCommits, WithHeader, Copy;
    CountUpdate(s.procs, p, Do(s, p, a).procs[p]);
  }

  lemma ReservedNext(s: State, e: Event)
    requires Control(s) && Reserved(s) && Enabled(s, e) && Budgeted(Next(s, e).procs)
    ensures Reserved(Next(s, e))
  {
    hide NoDup, SoleCommitter, NobodyCommits, HomeBlock, WithHeader, Do;
    match e
    case Act(p, a) =>
      if a.Get? || a.Put? || a.Begin? || a.Wait? || a.Check? || a.Append? { ReservedOpsNext(s, p, a); }
      else if a.End? || a.Finish? { ReservedOutNext(s, p, a); }
      else { ReservedCommitNext(s, p, a); }
    case Kill(q) => CountUpdate(s.procs, q, Next(s, e).procs[q]);
    case Crash => IdleCounts(Next(s, e).procs);
    case Recover => IdleCounts(s.procs);
  }

  // ---- The buffers: what is pinned and referenced fits the cache ----

  lemma HeldUpdate(refs: seq<set<int>>, p: nat, held: set<int>)
    requires p < |refs|
    ensures Held(refs[p := held]) <= Held(refs) + held
    ensures held <= refs[p] ==> Held(refs[p := held]) <= Held(refs)
    ensures refs[p] <= Held(refs)
  {
    var after := refs[p := held];
    forall b | b in Held(after) ensures b in held || b in Held(refs) {
      var q :| 0 <= q < |after| && b in after[q];
      if q != p { assert b in refs[q]; }
    }
    forall b | b in refs[p] ensures b in Held(refs) {
      assert 0 <= p < |refs| && b in refs[p];
    }
  }

  // What a process in phase ph may have references to.
  ghost predicate RefsOk(s: State, ph: Phase, held: set<int>) {
    match ph
    case Idle => AllHome(s, held)
    case InOp(_, _) => AllHome(s, held)
    case Checked(_, _, b, _) => AllHome(s, held) && b in held
    case Filling(i) => held <= {LogBlock(s, i)} && (s.list == [] ==> held == {}) && (i > 0 ==> |s.list| < NBUF)
    case Installing(i) => held <= {LogBlock(s, i)} && |s.list| < NBUF
    case _ => held == {}
  }

  ghost predicate AllHome(s: State, bs: set<int>) {
    forall b :: b in bs ==> HomeBlock(s.g, s.disk, b)
  }

  ghost predicate NobodyInstalls(ps: seq<Phase>) {
    forall p :: 0 <= p < |ps| ==> !ps[p].Installing?
  }

  // A log that is only a header lets nothing in.
  ghost predicate SizeOk(s: State) {
    s.g.size < 2 ==> s.list == [] && forall p :: 0 <= p < |s.procs| ==> !s.procs[p].Checked?
  }

  ghost predicate Buffered(s: State) {
    && |s.refs| == |s.procs| && |Busy(s)| <= NBUF && |s.list| <= NBUF && AllHome(s, s.cache.Keys)
    && (s.mode.Booting? ==> AllIdle(s.procs) && Held(s.refs) == {})
    && (s.mode == Running ==>
        && (forall p :: 0 <= p < |s.procs| ==> RefsOk(s, s.procs[p], s.refs[p]))
        && (NobodyInstalls(s.procs) ==> forall i :: 0 <= i < |s.list| ==> s.list[i] in s.cache)
        && SizeOk(s))
  }

  // Busy only loses blocks.
  lemma BusyShrinks(s: State, t: State)
    requires t.cache.Keys <= s.cache.Keys && |t.refs| == |s.refs|
    requires forall p :: 0 <= p < |s.refs| ==> t.refs[p] <= s.refs[p]
    ensures Busy(t) <= Busy(s) && |Busy(t)| <= |Busy(s)|
  {
    SubsetSize(Busy(t), Busy(s));
  }

  lemma RefsSame(s: State, t: State, ph: Phase, held: set<int>)
    requires t.g == s.g && |t.disk| == |s.disk| && (t.list == s.list || !ph.Commits()) && RefsOk(s, ph, held)
    ensures RefsOk(t, ph, held)
  {
  }

  lemma RefsGet(s: State, ph: Phase, held: set<int>, b: int)
    requires RefsOk(s, ph, held) && Reads(s, ph, b)
    ensures RefsOk(s, ph, held + {b})
  {
  }

  lemma BusyGet(s: State, t: State, p: nat, b: int)
    requires p < |s.refs| && t.cache == s.cache && t.refs == s.refs[p := s.refs[p] + {b}]
    ensures |Busy(t)| <= |Busy(s)| + if b in Busy(s) then 0 else 1
  {
    HeldUpdate(s.refs, p, s.refs[p] + {b});
    HeldUpdate(s.refs, p, s.refs[p]);
    assert Busy(t) <= Busy(s) + {b};
    SubsetSize(Busy(t), Busy(s) + {b});
    assert b in Busy(s) ==> Busy(s) + {b} == Busy(s);
  }

  lemma BufferedGet(s: State, p: nat, b: int)
    requires Buffered(s) && Enabled(s, Act(p, Get(b)))
    ensures Buffered(Do(s, p, Get(b)))
  {
    hide HomeBlock, RefsOk, Reads, Busy;
    var t := Do(s, p, Get(b));
    if t.mode == Running {
      BusyGet(s, t, p, b);
      RefsGet(s, s.procs[p], s.refs[p], b);
      forall q | 0 <= q < |t.procs| ensures RefsOk(t, t.procs[q], t.refs[q]) {
        RefsSame(s, t, t.procs[q], t.refs[q]);
      }
    } else {
      SameBusy(s, t);
    }
  }

  lemma RefsPut(s: State, ph: Phase, held: set<int>, b: int)
    requires RefsOk(s, ph, held) && (ph.Idle? || ph.InOp?)
    ensures RefsOk(s, ph, held - {b})
  {
  }

  lemma BufferedPut(s: State, p: nat, b: int)
    requires Buffered(s) && Enabled(s, Act(p, Put(b)))
    ensures Buffered(Do(s, p, Put(b)))
  {
    hide HomeBlock, RefsOk, Busy;
    var t := Do(s, p, Put(b));
    BusyShrinks(s, t);
    RefsPut(s, s.procs[p], s.refs[p], b);
    forall q | 0 <= q < |t.procs| ensures RefsOk(t, t.procs[q], t.refs[q]) {
      RefsSame(s, t, t.procs[q], t.refs[q]);
    }
  }

  lemma BusyAppend(s: State, t: State, p: nat, b: int)
    requires p < |s.refs| && b in s.refs[p] && t.refs == s.refs && t.cache.Keys == s.cache.Keys + {b}
    ensures Busy(t) == Busy(s)
  {
    HeldUpdate(s.refs, p, s.refs[p]);
  }

  lemma RefsAppend(s: State, ph: Phase, held: set<int>, used: nat)
    requires ph.Checked? && RefsOk(s, ph, held)
    ensures RefsOk(s, InOp(ph.op, used), held) && ph.b in held && HomeBlock(s.g, s.disk, ph.b)
  {
  }

  // The block was read in before, so pinning it takes no further buffer.
  lemma BufferedAppend(s: State, p: nat)
    requires Control(s) && Buffered(s) && Enabled(s, Act(p, Append)) && Control(Do(s, p, Append))
    ensures Buffered(Do(s, p, Append))
  {
    hide HomeBlock, SoleCommitter, RefsOk, Busy, NoDup;
    var t, ph := Do(s, p, Append), s.procs[p];
    SomeOpen(s.procs, p);
    if s.committing { CommittingIsQuiet(s); }
    RefsAppend(s, ph, s.refs[p], t.procs[p].used);
    BusyAppend(s, t, p, ph.b);
    AllPinned(s, t, ph.b);
    forall q | 0 <= q < |t.procs| ensures RefsOk(t, t.procs[q], t.refs[q]) {
      RefsSame(s, t, t.procs[q], s.refs[q]);
    }
  }

  lemma AllPinned(s: State, t: State, b: int)
    requires Buffered(s) && s.mode == Running && NobodyCommits(s.procs) && t.cache.Keys == s.cache.Keys + {b} && NoDup(t.list)
    requires t.list == (if b in s.list then s.list else s.list + [b]) && |Busy(t)| <= NBUF
    ensures (forall i :: 0 <= i < |t.list| ==> t.list[i] in t.cache) && |t.list| <= NBUF
  {
    hide HomeBlock, RefsOk;
    assert NobodyInstalls(s.procs);
    AtLeast(t.list, t.cache.Keys);
    SubsetSize(t.cache.Keys, Busy(t));
  }

  lemma RefsEmpty(s: State, ph: Phase)
    requires ph.Out() || ph.InOp? || ph == Filling(0)
    ensures RefsOk(s, ph, {})
  {
  }

  lemma RefsNone(s: State, ph: Phase, held: set<int>)
    requires RefsOk(s, ph, held) && (ph.Asleep? || ph.Finishing?)
    ensures held == {}
  {
  }

  lemma RefsCheck(s: State, ph: Phase, held: set<int>, b: int, data: Block)
    requires RefsOk(s, ph, held) && ph.InOp? && b in held
    ensures RefsOk(s, Checked(ph.op, ph.used, b, data), held)
  {
  }

  // Steps that change phases but neither the list nor the buffers.
  lemma BufferedProcs(s: State, p: nat, a: Action)
    requires Control(s) && Buffered(s) && Enabled(s, Act(p, a)) && (a.Begin? || a.Wait? || a.Check? || a.End? || a.Finish?)
    ensures Buffered(Do(s, p, a))
  {
    hide HomeBlock, NoDup, Busy, RefsOk, Control;
    var t := Do(s, p, a);
    SameBusy(s, t);
    assert NobodyInstalls(t.procs) ==> NobodyInstalls(s.procs) by {
      assert forall q :: 0 <= q < |s.procs| && s.procs[q].Installing? ==> t.procs[q] == s.procs[q];
    }
    forall q | 0 <= q < |t.procs| ensures RefsOk(t, t.procs[q], t.refs[q]) {
      var ph, held := s.procs[q], s.refs[q];
      if ph.Asleep? || ph.Finishing? { RefsNone(s, ph, held); }
      if a.Check? && q == p { RefsCheck(s, ph, held, a.b, a.data); }
      if held == {} && (t.procs[q].Out() || t.procs[q].InOp? || t.procs[q] == Filling(0)) { RefsEmpty(t, t.procs[q]); }
      else if t.mode == Running { RefsSame(s, t, t.procs[q], held); }
      else { RefsSame(s, t, ph, held); }
    }
  }

  lemma SameBusy(s: State, t: State)
    requires t.cache == s.cache && t.refs == s.refs
    ensures Busy(t) == Busy(s)
  {
  }

  lemma OneMoreBusy(s: State, p: nat, b: int)
    requires p < |s.refs| && b in s.refs[p] && b !in s.cache
    ensures |Busy(s)| >= |s.cache.Keys| + 1
  {
    HeldUpdate(s.refs, p, s.refs[p]);
    SubsetSize(s.cache.Keys + {b}, Busy(s));
  }

  // While a copy is being written its log block has a buffer of its own besides those of the listed blocks.
  lemma CopyLeavesABuffer(s: State, p: nat)
    requires Control(s) && Buffered(s) && Enabled(s, Act(p, WriteCopy))
    ensures |s.list| < NBUF
  {
    hide NoDup, Busy, Held;
    TheCommitter(s, p);
    assert RefsOk(s, s.procs[p], s.refs[p]);
    if s.procs[p].filled == 0 {
      var b := s.g.start + 1;
      assert b !in s.cache by { assert !HomeBlock(s.g, s.disk, b); }
      OneMoreBusy(s, p, b);
      assert NobodyInstalls(s.procs);
      AtLeast(s.list, s.cache.Keys);
    }
  }

  lemma BufferedWrite(s: State, p: nat, a: Action)
    requires Control(s) && Buffered(s) && Enabled(s, Act(p, a))
    requires a.WriteCopy? || a.WriteHead? || a.InstallCopy? || a.ClearHead?
    ensures Buffered(Do(s, p, a))
  {
    hide NoDup, Busy, WithHeader, Copy;
    var t := Do(s, p, a);
    TheCommitter(s, p);
    if a.WriteCopy? { CopyLeavesABuffer(s, p); }
    BusyShrinks(s, t);
    assert |t.disk| == |s.disk| && AllHome(t, t.cache.Keys);
    assert RefsOk(s, s.procs[p], s.refs[p]);
    forall q | 0 <= q < |t.procs| ensures RefsOk(t, t.procs[q], t.refs[q]) {
      if q != p { RefsSame(s, t, s.procs[q], s.refs[q]); }
    }
  }

  lemma BufferedKill(s: State, q: nat)
    requires Buffered(s) && Enabled(s, Kill(q))
    ensures Buffered(Next(s, Kill(q)))
  {
    hide HomeBlock, Busy;
    var t := Next(s, Kill(q));
    SameBusy(s, t);
    assert NobodyInstalls(t.procs) ==> NobodyInstalls(s.procs) by {
      assert forall p :: 0 <= p < |s.procs| && s.procs[p].Installing? ==> t.procs[p] == s.procs[p];
    }
    forall p | 0 <= p < |t.procs| ensures RefsOk(t, t.procs[p], t.refs[p]) {
      assert RefsOk(s, s.procs[p], s.refs[p]);
    }
  }

  lemma NothingBusy(s: State)
    requires s.cache == map[] && forall p :: 0 <= p < |s.refs| ==> s.refs[p] == {}
    ensures Busy(s) == {} && Held(s.refs) == {}
  {
  }

  lemma BufferedCrash(s: State)
    requires Buffered(s) && Enabled(s, Crash)
    ensures Buffered(Next(s, Crash))
  {
    hide HomeBlock, Busy, Held;
    NothingBusy(Next(s, Crash));
  }

  lemma BufferedRecover(s: State)
    requires Buffered(s) && Enabled(s, Recover)
    ensures Buffered(Next(s, Recover))
  {
    hide Busy, WithHeader, Copy;
    var t := Next(s, Recover);
    SameBusy(s, t);
    forall p | 0 <= p < |t.procs| ensures RefsOk(t, t.procs[p], t.refs[p]) {
      HeldUpdate(s.refs, p, s.refs[p]);
    }
  }

  lemma BufferedNext(s: State, e: Event)
    requires Control(s) && Buffered(s) && Enabled(s, e)
    ensures Buffered(Next(s, e))
  {
    hide Control, Buffered, Do;
    match e
    case Act(p, a) =>
      if a.Get? { BufferedGet(s, p, a.b); }
      else if a.Put? { BufferedPut(s, p, a.b); }
      else if a.Append? { ControlNext(s, e); BufferedAppend(s, p); }
      else if a.Begin? || a.Wait? || a.Check? || a.End? || a.Finish? { BufferedProcs(s, p, a); }
      else { BufferedWrite(s, p, a); }
    case Kill(q) => BufferedKill(s, q);
    case Crash => BufferedCrash(s);
    case Recover => BufferedRecover(s);
  }

  // ---- The disk invariant: what the platters mean at every instant ----

  // The durable state is exactly the initial one with every committed update applied.
  ghost predicate DurableIs(s: State) {
    && Fits(s.g, s.disk)
    && |s.start| == |s.disk|
    && HeaderOk(s.g, s.disk)
    && Durable(s.g, s.disk) == Apply(s.start, s.past)
  }

  // Distinct blocks outside the log, however many.
  ghost predicate Listed(g: Geometry, d: Disk, bs: seq<int>) {
    NoDup(bs) && forall i :: 0 <= i < |bs| ==> HomeBlock(g, d, bs[i])
  }

  // No transaction in the header; the buffers hold exactly the updates since the last commit.
  ghost predicate Gathering(s: State) {
    && Fits(s.g, s.disk) && s.disk[s.g.start][0] == 0
    && Listed(s.g, s.disk, s.list) && Pins(s.cache, s.list)
    && Overlay(Apply(s.start, s.past), s.cache) == Apply(s.start, s.past + s.pending)
    && (s.list == [] ==> s.pending == [])
  }

  ghost predicate HeaderHoldsList(s: State) {
    && HeaderOk(s.g, s.disk)
    && HeaderList(s.disk[s.g.start]) == s.list
  }

  // The blocks of the transaction from the i-th on are still cached, as they were logged.
  ghost predicate CachedFrom(s: State, i: int) {
    forall k :: i <= k < |s.list| && 0 <= k && s.g.start + 1 + k < |s.disk| ==>
      s.list[k] in s.cache && s.cache[s.list[k]] == Copy(s.g, s.disk, k)
  }

  // The transaction is in the header and its first i blocks are home and unpinned.
  ghost predicate InstallingAt(s: State, i: int) {
    && HeaderHoldsList(s) && 0 <= i <= |s.list|
    && Installed(s.g, s.disk, s.list, i)
    && s.pending == []
    && forall b :: b in s.cache ==> b in s.list[i..]
  }

  ghost predicate StageOk(s: State, ph: Phase) {
    match ph
    case Filling(i) =>
      Gathering(s) && i <= |s.list| && (i > 0 ==> Loggable(s.g, s.disk, s.list) && Filled(s.g, s.disk, s.list, s.cache, i))
    case Installing(i) => InstallingAt(s, i) && CachedFrom(s, i)
    case Finishing => Gathering(s) && s.list == [] && s.pending == []
    case _ => true
  }

  ghost predicate DiskOk(s: State) {
    && DurableIs(s)
    && (s.mode == Running ==>
        && (forall p :: 0 <= p < |s.procs| ==> StageOk(s, s.procs[p]))
        && (!s.committing ==> Gathering(s))
        && (forall p :: 0 <= p < |s.procs| && s.procs[p].Checked? ==> HomeBlock(s.g, s.disk, s.procs[p].b)))
    && (s.mode.Booting? ==>
        && HeaderHoldsList(s) && s.mode.i <= |s.list| && s.pending == [] && s.cache == map[]
        && Installed(s.g, s.disk, s.list, s.mode.i))
  }

  lemma ApplyOne(d: Disk, past: seq<Update>, pending: seq<Update>, u: Update)
    requires 0 <= u.b < |d|
    ensures Apply(d, past + (pending + [u])) == Apply(d, past + pending)[u.b := u.data]
  {
    assert past + (pending + [u]) == (past + pending) + [u];
    assert ((past + pending) + [u])[..|past + pending|] == past + pending;
  }

  lemma ListedOne(g: Geometry, d: Disk, bs: seq<int>, b: int)
    requires Listed(g, d, bs) && HomeBlock(g, d, b) && b !in bs
    ensures Listed(g, d, bs + [b])
  {
    var cs := bs + [b];
    forall i, j | 0 <= i < j < |cs| ensures cs[i] != cs[j] {
      if j == |bs| { assert bs[i] in bs; }
    }
  }

  lemma AppendKeepsGathering(s: State, p: nat)
    requires DiskOk(s) && Enabled(s, Act(p, Append)) && !s.committing
    ensures Gathering(Do(s, p, Append))
  {
    hide Overlay, Apply, Pins, Listed, Durable, NoDup, HeaderOk, StageOk;
    var ph := s.procs[p];
    assert HomeBlock(s.g, s.disk, ph.b);
    ApplyOne(s.start, s.past, s.pending, Update(ph.op, ph.b, ph.data));
    OverlayOne(Apply(s.start, s.past), s.cache, ph.b, ph.data);
    PinsOne(s.cache, s.list, ph.b, ph.data);
    if ph.b !in s.list { ListedOne(s.g, s.disk, s.list, ph.b); }
  }

  lemma DiskAppendNext(s: State, p: nat)
    requires Control(s) && DiskOk(s) && Enabled(s, Act(p, Append))
    ensures DiskOk(Do(s, p, Append))
  {
    hide Gathering, DurableIs, InstallingAt, Filled, NoDup;
    if s.committing { CommittingIsQuiet(s); }
    AppendKeepsGathering(s, p);
    var t := Do(s, p, Append);
    assert DurableIs(t) by { SameDurable(s, t); }
    forall q | 0 <= q < |t.procs| ensures StageOk(t, t.procs[q]) {
      assert !s.procs[q].Commits();
    }
  }

  lemma SameDurable(s: State, t: State)
    requires DurableIs(s) && t.g == s.g && t.disk == s.disk && t.start == s.start && t.past == s.past
    ensures DurableIs(t)
  {
  }

  // A step that touches neither the disk nor the transaction.
  ghost predicate SameLog(s: State, t: State) {
    && t.g == s.g && t.disk == s.disk && t.cache == s.cache && t.list == s.list
    && t.start == s.start && t.past == s.past && t.pending == s.pending
  }

  lemma SameStage(s: State, t: State, ph: Phase)
    requires SameLog(s, t)
    ensures Gathering(s) ==> Gathering(t)
    ensures StageOk(s, ph) ==> StageOk(t, ph)
    ensures DurableIs(s) ==> DurableIs(t)
  {
  }

  lemma FillingStart(s: State)
    requires Gathering(s)
    ensures StageOk(s, Filling(0))
  {
  }

  lemma DiskOpsNext(s: State, p: nat, a: Action)
    requires Control(s) && DiskOk(s) && Enabled(s, Act(p, a))
    requires a.Begin? || a.Check? || a.End?
    ensures DiskOk(Do(s, p, a))
  {
    hide Gathering, DurableIs, StageOk, NoDup;
    if s.committing { CommittingIsQuiet(s); }
    var t := Do(s, p, a);
    SameStage(s, t, Idle);
    FillingStart(t);
    forall q | 0 <= q < |t.procs| ensures StageOk(t, t.procs[q]) {
      assert !s.procs[q].Commits();
      OpenStage(t, t.procs[q]);
    }
  }

  lemma OpenStage(s: State, ph: Phase)
    ensures !ph.Commits() ==> StageOk(s, ph)
  {
  }

  // Sleeping and being woken change nothing else.
  lemma DiskProcsNext(s: State, t: State)
    requires DiskOk(s) && s.mode == Running && SameLog(s, t) && t.mode == s.mode && t.committing == s.committing
    requires |t.procs| == |s.procs| && forall q :: 0 <= q < |s.procs| ==> t.procs[q] == s.procs[q] || t.procs[q].Out()
    ensures DiskOk(t)
  {
    hide Gathering, DurableIs, StageOk;
    SameStage(s, t, Idle);
    forall q | 0 <= q < |t.procs| ensures StageOk(t, t.procs[q]) {
      SameStage(s, t, s.procs[q]);
      OpenStage(t, t.procs[q]);
    }
  }

  // A step of the committer: only its own stage is at stake.
  lemma CommitterNext(s: State, t: State, p: nat)
    requires SoleCommitter(s.procs, p) && t.mode == Running && t.committing
    requires |t.procs| == |s.procs| && forall q :: 0 <= q < |s.procs| && q != p ==> t.procs[q] == s.procs[q]
    requires DurableIs(t) && StageOk(t, t.procs[p]) && t.procs[p].Commits()
    ensures DiskOk(t)
  {
    hide DurableIs, StageOk;
    forall q | 0 <= q < |t.procs| ensures StageOk(t, t.procs[q]) {
      OpenStage(t, t.procs[q]);
    }
  }

  lemma DiskWriteCopy(s: State, p: nat)
    requires Control(s) && DiskOk(s) && Enabled(s, Act(p, WriteCopy)) && |s.list| <= LOGSIZE && |s.list| < s.g.size
    ensures DiskOk(Do(s, p, WriteCopy))
  {
    hide DurableIs, Gathering, Filled, NoDup, Loggable;
    TheCommitter(s, p);
    var t, i := Do(s, p, WriteCopy), s.procs[p].filled;
    assert StageOk(s, s.procs[p]);
    FillOneMore(s, t, i);
    CommitterNext(s, t, p);
  }

  lemma FillOneMore(s: State, t: State, i: nat)
    requires DurableIs(s) && StageOk(s, Filling(i)) && CopyReady(s, i) && s.list[i] in s.cache
    requires |s.list| <= LOGSIZE && |s.list| < s.g.size
    requires t == s.(disk := s.disk[s.g.start + 1 + i := s.cache[s.list[i]]], procs := t.procs, refs := t.refs)
    ensures DurableIs(t) && StageOk(t, Filling(i + 1))
  {
    hide Durable, Apply, Overlay, NoDup;
    FillKeepsDurable(s.g, s.disk, i, s.cache[s.list[i]]);
  }

  // The one event that changes what is durable, and it takes every gathered update at once.
  lemma DiskWriteHead(s: State, p: nat)
    requires Control(s) && DiskOk(s) && Enabled(s, Act(p, WriteHead))
    ensures DiskOk(Do(s, p, WriteHead))
    ensures Durable(s.g, Do(s, p, WriteHead).disk) == Apply(s.start, s.past + s.pending)
  {
    hide Gathering, Filled, NoDup, Loggable, Durable, Apply, HeaderOk;
    TheCommitter(s, p);
    var t := Do(s, p, WriteHead);
    assert StageOk(s, s.procs[p]);
    HeadWritten(s, t);
    CommitterNext(s, t, p);
  }

  lemma HeadWritten(s: State, t: State)
    requires DurableIs(s) && 0 < |s.list| <= LOGSIZE && StageOk(s, Filling(|s.list|))
    requires t == s.(disk := WithHeader(s.g, s.disk, s.list), procs := t.procs, refs := t.refs, past := s.past + s.pending,
                     pending := [])
    ensures DurableIs(t) && StageOk(t, Installing(0))
    ensures Durable(s.g, t.disk) == Apply(s.start, s.past + s.pending)
  {
    hide Durable, Apply, Overlay, NoDup;
    HeaderWriteCommits(s.g, s.disk, s.list, s.cache);
    assert t.list[0..] == t.list;
    assert CachedFrom(t, 0);
  }

  lemma DiskInstallCopy(s: State, p: nat)
    requires Control(s) && DiskOk(s) && Enabled(s, Act(p, InstallCopy))
    ensures DiskOk(Do(s, p, InstallCopy))
  {
    hide DurableIs, InstallingAt, NoDup, CachedFrom;
    TheCommitter(s, p);
    var t, i := Do(s, p, InstallCopy), s.procs[p].installed;
    assert StageOk(s, s.procs[p]);
    InstallOneMore(s, t, i);
    CachedRest(s, t, i);
    CommitterNext(s, t, p);
  }

  lemma InstallOneMore(s: State, t: State, i: nat)
    requires DurableIs(s) && InstallingAt(s, i) && i < |s.list|
    requires t.g == s.g && t.list == s.list && t.pending == s.pending && t.start == s.start && t.past == s.past
    requires 0 <= s.list[i] < |s.disk| && t.disk == s.disk[s.list[i] := Copy(s.g, s.disk, i)]
    requires t.cache == s.cache - {s.list[i]}
    ensures DurableIs(t) && InstallingAt(t, i + 1)
  {
    hide Durable, Installed, Loggable, NoDup, Apply;
    InstallStep(s.g, s.disk, s.list, i);
    RestOfList(s.list, i, s.cache);
  }

  lemma CachedRest(s: State, t: State, i: nat)
    requires CachedFrom(s, i) && InstallingAt(s, i) && i < |s.list| && 0 <= s.list[i] < |s.disk|
    requires t.g == s.g && t.list == s.list && t.disk == s.disk[s.list[i] := Copy(s.g, s.disk, i)]
    requires t.cache == s.cache - {s.list[i]}
    ensures CachedFrom(t, i + 1)
  {
    assert HomeBlock(s.g, s.disk, s.list[i]);
  }

  lemma RestOfList(list: seq<int>, i: nat, cache: map<int, Block>)
    requires i < |list| && forall b :: b in cache ==> b in list[i..]
    ensures forall b :: b in cache - {list[i]} ==> b in list[i + 1..]
  {
    assert list[i..] == [list[i]] + list[i + 1..];
  }

  lemma OverlayNothing(d: Disk, past: seq<Update>)
    ensures Overlay(d, map[]) == d && past + [] == past
  {
    assert Overlay(d, map[]) == d;
  }

  lemma DiskClearHead(s: State, p: nat)
    requires Control(s) && DiskOk(s) && Enabled(s, Act(p, ClearHead))
    ensures DiskOk(Do(s, p, ClearHead))
  {
    hide DurableIs, InstallingAt, Gathering, Filled, NoDup;
    TheCommitter(s, p);
    var t := Do(s, p, ClearHead);
    assert StageOk(s, s.procs[p]);
    if s.procs[p].Installing? {
      HeadCleared(s, t);
    } else {
      SameStage(s, t, Idle);
      NothingPending(t);
    }
    CommitterNext(s, t, p);
  }

  lemma NothingPending(s: State)
    requires Gathering(s) && s.list == []
    ensures s.pending == []
  {
  }

  // Once every block is home the cleared header leaves an empty, gathering log.
  lemma HeadCleared(s: State, t: State)
    requires DurableIs(s) && InstallingAt(s, |s.list|)
    requires t.g == s.g && t.start == s.start && t.past == s.past && t.pending == s.pending && t.cache == s.cache
    requires t.disk == WithHeader(s.g, s.disk, []) && t.list == []
    ensures DurableIs(t) && Gathering(t) && t.pending == []
  {
    hide Durable, Apply, NoDup;
    ClearKeepsDurable(s.g, s.disk);
    assert s.cache == map[] by { assert forall b :: b !in s.cache; }
    OverlayNothing(Apply(s.start, s.past), s.past);
  }

  lemma DiskRecover(s: State)
    requires Control(s) && DiskOk(s) && Enabled(s, Recover)
    ensures DiskOk(Next(s, Recover))
  {
    hide DurableIs, Gathering, NoDup, Loggable, Durable;
    var t, i := Next(s, Recover), s.mode.i;
    if i < |s.list| {
      assert InstallingAt(s, i) && s.cache - {s.list[i]} == s.cache;
      InstallOneMore(s, t, i);
    } else {
      HeadCleared(s, t);
      forall q | 0 <= q < |t.procs| ensures StageOk(t, t.procs[q]) {
        assert s.procs[q].Idle?;
      }
    }
  }

  // A read changes nothing on disk; it may panic.
  lemma DiskRead(s: State, p: nat, a: Action)
    requires DiskOk(s) && Enabled(s, Act(p, a)) && (a.Get? || a.Put?)
    ensures DiskOk(Do(s, p, a))
  {
    hide DiskOk;
    var t := Do(s, p, a);
    if t.mode == Running {
      DiskProcsNext(s, t);
    } else {
      Halted(s, t);
    }
  }

  lemma Halted(s: State, t: State)
    requires DiskOk(s) && t.mode == Panicked && SameLog(s, t)
    ensures DiskOk(t)
  {
    hide Gathering, StageOk;
    SameDurable(s, t);
  }

  lemma DiskWait(s: State, p: nat)
    requires DiskOk(s) && Enabled(s, Act(p, Wait))
    ensures DiskOk(Do(s, p, Wait))
  {
    hide DiskOk;
    DiskProcsNext(s, Do(s, p, Wait));
  }

  lemma DiskKill(s: State, q: nat)
    requires DiskOk(s) && Enabled(s, Kill(q))
    ensures DiskOk(Next(s, Kill(q)))
  {
    hide DiskOk;
    DiskProcsNext(s, Next(s, Kill(q)));
  }

  lemma DiskCrash(s: State)
    requires DiskOk(s) && Enabled(s, Crash)
    ensures DiskOk(Next(s, Crash))
  {
    hide Gathering, StageOk;
  }

  // If e writes a copy, the whole list fits the log area and the header.
  predicate Fitting(s: State, e: Event) {
    e.Act? && e.a.WriteCopy? ==> |s.list| <= LOGSIZE && |s.list| < s.g.size
  }

  lemma DiskNext(s: State, e: Event)
    requires Control(s) && DiskOk(s) && Enabled(s, e) && Fitting(s, e)
    ensures DiskOk(Next(s, e))
  {
    hide DiskOk, Do, Control;
    match e
    case Act(p, a) =>
      if a.WriteCopy? { DiskWriteCopy(s, p); }
      else if a.WriteHead? { DiskWriteHead(s, p); }
      else if a.InstallCopy? { DiskInstallCopy(s, p); }
      else if a.ClearHead? { DiskClearHead(s, p); }
      else if a.Finish? { DiskFinish(s, p); }
      else if a.Append? { DiskAppendNext(s, p); }
      else if a.Wait? { DiskWait(s, p); }
      else if a.Get? || a.Put? { DiskRead(s, p, a); }
      else { DiskOpsNext(s, p, a); }
    case Kill(q) => DiskKill(s, q);
    case Crash => DiskCrash(s);
    case Recover => DiskRecover(s);
  }

  lemma DiskFinish(s: State, p: nat)
    requires Control(s) && DiskOk(s) && Enabled(s, Act(p, Finish))
    ensures DiskOk(Do(s, p, Finish))
  {
    hide Gathering, DurableIs, NoDup;
    ControlCommitNext(s, p, Finish);
    assert StageOk(s, s.procs[p]);
    SameStage(s, Do(s, p, Finish), Idle);
  }

  // ---- The operation invariant: system calls are all in or all out ----

  ghost predicate Disjoint(us: seq<Update>, vs: seq<Update>) {
    forall u, v :: u in us && v in vs ==> u.op != v.op
  }

  // No open operation made any of these updates.
  ghost predicate ByClosedOps(ps: seq<Phase>, us: seq<Update>) {
    forall p, u :: 0 <= p < |ps| && ps[p].Open() && u in us ==> ps[p].op != u.op
  }

  ghost predicate Numbered(ps: seq<Phase>, us: seq<Update>, n: nat) {
    && (forall p :: 0 <= p < |ps| && ps[p].Open() ==> ps[p].op < n)
    && forall u :: u in us ==> u.op < n
  }

  ghost predicate Ops(s: State) {
    && Numbered(s.procs, s.past + s.pending + s.lost, s.nextOp)
    && ByClosedOps(s.procs, s.past) && ByClosedOps(s.procs, s.lost)
    && Disjoint(s.past, s.pending) && Disjoint(s.past, s.lost) && Disjoint(s.pending, s.lost)
  }

  lemma OpsAppend(s: State, p: nat)
    requires Ops(s) && Enabled(s, Act(p, Append))
    ensures Ops(Do(s, p, Append))
  {
    var t, ph := Do(s, p, Append), s.procs[p];
    var u := Update(ph.op, ph.b, ph.data);
    assert forall v :: v in t.pending <==> v in s.pending || v == u;
    assert ByClosedOps(t.procs, s.past) && ByClosedOps(t.procs, s.lost);
    assert Numbered(t.procs, t.past + t.pending + t.lost, t.nextOp);
  }

  lemma OpsBegin(s: State, p: nat)
    requires Ops(s) && Enabled(s, Act(p, Begin))
    ensures Ops(Do(s, p, Begin))
  {
    var all := s.past + s.pending + s.lost;
    assert forall u :: u in s.past || u in s.lost ==> u in all;
  }

  lemma OpsHead(s: State, p: nat)
    requires Control(s) && Ops(s) && Enabled(s, Act(p, WriteHead))
    ensures Ops(Do(s, p, WriteHead))
  {
    ControlCommitNext(s, p, WriteHead);
    var t := Do(s, p, WriteHead);
    assert t.past + t.pending + t.lost == s.past + s.pending + s.lost;
    assert forall q :: 0 <= q < |t.procs| ==> !t.procs[q].Open();
  }

  lemma OpsCrash(s: State)
    requires Ops(s) && Enabled(s, Crash)
    ensures Ops(Next(s, Crash))
  {
    var t := Next(s, Crash);
    assert forall u :: u in t.past + t.pending + t.lost <==> u in s.past + s.pending + s.lost;
    assert forall q :: 0 <= q < |t.procs| ==> !t.procs[q].Open();
  }

  lemma OpsSame(s: State, t: State)
    requires Ops(s)
    requires t.past == s.past && t.pending == s.pending && t.lost == s.lost && t.nextOp == s.nextOp
    requires |t.procs| == |s.procs|
    requires forall q :: 0 <= q < |t.procs| && t.procs[q].Open() ==> s.procs[q].Open() && t.procs[q].op == s.procs[q].op
    ensures Ops(t)
  {
  }

  lemma OpsProcs(s: State, p: nat, a: Action)
    requires Ops(s) && Enabled(s, Act(p, a)) && (a.Get? || a.Put? || a.Wait? || a.Check? || a.End? || a.Finish?)
    ensures Ops(Do(s, p, a))
  {
    hide Ops, HomeBlock, Busy, Reads;
    OpsSame(s, Do(s, p, a));
  }

  lemma OpsWrite(s: State, p: nat, a: Action)
    requires Ops(s) && Enabled(s, Act(p, a)) && (a.WriteCopy? || a.InstallCopy? || a.ClearHead?)
    ensures Ops(Do(s, p, a))
  {
    hide Ops, WithHeader, Copy;
    OpsSame(s, Do(s, p, a));
  }

  lemma OpsNext(s: State, e: Event)
    requires Control(s) && Ops(s) && Enabled(s, e)
    ensures Ops(Next(s, e))
  {
    hide Ops, Control, WithHeader, Copy, Do;
    match e
    case Act(p, a) =>
      if a.Append? { OpsAppend(s, p); }
      else if a.Begin? { OpsBegin(s, p); }
      else if a.WriteHead? { OpsHead(s, p); }
      else if a.Get? || a.Put? || a.Wait? || a.Check? || a.End? || a.Finish? { OpsProcs(s, p, a); }
      else { OpsWrite(s, p, a); }
    case Kill(_) => OpsSame(s, Next(s, e));
    case Crash => OpsCrash(s);
    case Recover => OpsSame(s, Next(s, e));
  }

  // ---- Runs ----

  ghost predicate Init(s: State) {
    && HeaderOk(s.g, s.disk)
    && s.start == Durable(s.g, s.disk) && s.past == [] && s.pending == [] && s.lost == []
    && s.mode == Booting(0) && s.list == HeaderList(s.disk[s.g.start])
    && s.cache == map[] && s.outstanding == 0 && !s.committing && AllIdle(s.procs)
    && s.refs == seq(|s.procs|, _ => {})
  }

  // tr is a run: it starts at a boot and every state follows by some enabled event.
  ghost predicate Run(tr: seq<State>, es: seq<Event>) {
    && |tr| == |es| + 1 && Init(tr[0])
    && forall i :: 0 <= i < |es| ==> Enabled(tr[i], es[i]) && tr[i + 1] == Next(tr[i], es[i])
  }

  lemma RunStep(tr: seq<State>, es: seq<Event>, i: nat)
    requires Run(tr, es) && i < |es|
    ensures Enabled(tr[i], es[i]) && tr[i + 1] == Next(tr[i], es[i])
  {
  }

  lemma InitHolds(s: State)
    requires Init(s)
    ensures Control(s) && Buffered(s) && Ops(s) && DiskOk(s)
    ensures Budgeted(s.procs) ==> Reserved(s)
  {
    hide Durable, NoDup, Busy, Held;
    NothingBusy(s);
    assert s.start == Apply(s.start, s.past);
  }

  // In every run, on a log of any size and with operations of any length, these hold throughout.
  lemma {:induction false} RunInvariant(tr: seq<State>, es: seq<Event>, i: nat)
    requires Run(tr, es) && i < |tr|
    ensures Control(tr[i]) && Buffered(tr[i]) && Ops(tr[i]) && tr[i].g == tr[0].g && |tr[i].procs| == |tr[0].procs|
  {
    hide Control, Buffered, Ops, Next, Init, Run, Enabled;
    RunStarts(tr, es);
    if i == 0 {
      InitHolds(tr[0]);
    } else {
      RunInvariant(tr, es, i - 1);
      RunStep(tr, es, i - 1);
      ControlNext(tr[i - 1], es[i - 1]);
      BufferedNext(tr[i - 1], es[i - 1]);
      OpsNext(tr[i - 1], es[i - 1]);
      SameGeometry(tr[i - 1], es[i - 1]);
    }
  }

  lemma RunStarts(tr: seq<State>, es: seq<Event>)
    requires Run(tr, es)
    ensures |tr| == |es| + 1 && Init(tr[0])
  {
  }

  lemma SameGeometry(s: State, e: Event)
    requires Enabled(s, e)
    ensures Next(s, e).g == s.g && |Next(s, e).procs| == |s.procs|
  {
    hide HomeBlock, WithHeader, Copy, Woken;
    if e.Act? { DoKeepsGeometry(s, e.p, e.a); }
  }

  lemma DoKeepsGeometry(s: State, p: nat, a: Action)
    requires Enabled(s, Act(p, a))
    ensures Do(s, p, a).g == s.g && |Do(s, p, a).procs| == |s.procs|
  {
    hide HomeBlock, WithHeader, Copy, Woken;
    match a
    case Get(b) =>
    case Put(b) =>
    case Begin =>
    case Wait =>
    case Check(b, data) =>
    case Append =>
    case End =>
    case WriteCopy =>
    case WriteHead =>
    case InstallCopy =>
    case ClearHead =>
    case Finish =>
  }

  // No operation has logged more than MAXOPBLOCKS blocks up to here: what begin_op relies on and nothing enforces.
  ghost predicate InBudget(tr: seq<State>, i: int) {
    forall k :: 0 <= k <= i && k < |tr| ==> Budgeted(tr[k].procs)
  }

  // No copy of a list that had outgrown the log area has been written up to here.
  ghost predicate Within(tr: seq<State>, es: seq<Event>, i: int) {
    forall k :: 0 <= k < i && k < |es| && k < |tr| ==> Fitting(tr[k], es[k])
  }

  // A log that is only a header, or of LOGSIZE blocks with the header.
  predicate SafeSize(g: Geometry) {
    g.size <= 1 || LOGSIZE <= g.size
  }

  // log.lh.block is never written past its end: with operations of any length, on a log of any size, the
  // cache runs out of buffers first.
  lemma ListFitsHeader(tr: seq<State>, es: seq<Event>, i: nat)
    requires Run(tr, es) && i < |tr|
    ensures |tr[i].list| <= NBUF == LOGSIZE
  {
    hide Run, Control, Ops;
    RunInvariant(tr, es, i);
  }

  // On a log of safe size a copy is written only if the whole list fits.
  lemma SafeSizeFits(s: State, e: Event)
    requires Control(s) && Buffered(s) && Enabled(s, e) && SafeSize(s.g)
    ensures Fitting(s, e)
  {
    hide Control, RefsOk, Busy, HomeBlock;
    if e.Act? && e.a.WriteCopy? { CopyLeavesABuffer(s, e.p); }
  }

  lemma {:induction false} RunReserved(tr: seq<State>, es: seq<Event>, i: nat)
    requires Run(tr, es) && i < |tr| && InBudget(tr, i)
    ensures Reserved(tr[i])
  {
    hide Control, Ops, Next, Init, Run, Enabled, Budgeted, Reserved;
    RunStarts(tr, es);
    if i == 0 {
      InitHolds(tr[0]);
    } else {
      RunReserved(tr, es, i - 1);
      RunInvariant(tr, es, i - 1);
      RunStep(tr, es, i - 1);
      ReservedNext(tr[i - 1], es[i - 1]);
    }
  }

  lemma {:induction false} RunDisk(tr: seq<State>, es: seq<Event>, i: nat)
    requires Run(tr, es) && i < |tr| && (SafeSize(tr[0].g) || Within(tr, es, i))
    ensures DiskOk(tr[i])
  {
    hide Control, Buffered, Ops, Next, Init, Run, Enabled, Fitting, DiskOk, SafeSize;
    RunStarts(tr, es);
    if i == 0 {
      InitHolds(tr[0]);
    } else {
      RunDisk(tr, es, i - 1);
      RunInvariant(tr, es, i - 1);
      RunStep(tr, es, i - 1);
      if SafeSize(tr[0].g) { SafeSizeFits(tr[i - 1], es[i - 1]); }
      DiskNext(tr[i - 1], es[i - 1]);
    }
  }

  // Over every interleaving and every pattern of power failures, with operations of any length, on a log of
  // LOGSIZE blocks or more (and on a smaller one until an overfull list is committed): what a recovery would
  // restore is the initial state plus the updates of a set of whole operations.  Nothing durable belongs to
  // an operation still running, to one with updates still pending, or to one that lost any.
  lemma DurableStateIsWholeOperations(tr: seq<State>, es: seq<Event>, i: nat)
    requires Run(tr, es) && i < |tr| && (SafeSize(tr[0].g) || Within(tr, es, i))
    ensures var s := tr[i];
      && HeaderOk(s.g, s.disk) && Durable(s.g, s.disk) == Apply(s.start, s.past)
      && ByClosedOps(s.procs, s.past)
      && Disjoint(s.past, s.pending) && Disjoint(s.past, s.lost)
  {
    hide Run, Within, HeaderOk, Durable, Apply, Buffered, SafeSize;
    RunDisk(tr, es, i);
    RunInvariant(tr, es, i);
  }

  // What bread returns for block b: the buffer if it is cached, and otherwise the disk's copy.
  function Seen(s: State, b: int): Block
    requires 0 <= b < |s.disk|
  {
    if b in s.cache then s.cache[b] else s.disk[b]
  }

  lemma SeenGathering(s: State, b: int)
    requires DurableIs(s) && Gathering(s) && HomeBlock(s.g, s.disk, b)
    ensures Seen(s, b) == Apply(s.start, s.past + s.pending)[b]
  {
    hide NoDup, Pins, Durable, Apply, HeaderOk;
    NothingLogged(s.g, s.disk);
    assert HomeImage(s.g, s.disk)[b] == s.disk[b];
  }

  lemma SeenInstalling(s: State, i: int, b: int)
    requires DurableIs(s) && InstallingAt(s, i) && CachedFrom(s, i) && HomeBlock(s.g, s.disk, b)
    ensures Seen(s, b) == Apply(s.start, s.past + s.pending)[b]
  {
    hide NoDup, Apply;
    var k := Find(s.list, b);
    assert s.past + s.pending == s.past;
    if 0 <= k < i {
      assert b !in s.cache by { NotAgain(s.list, k, i); }
    }
  }

  lemma NotAgain(bs: seq<int>, k: int, i: int)
    requires NoDup(bs) && 0 <= k < i <= |bs|
    ensures bs[k] !in bs[i..]
  {
  }

  // While the system runs, whatever the committer is doing, reading a block outside the log shows every update
  // logged so far and not lost, committed or not.
  lemma ReadersSeeTheLatest(tr: seq<State>, es: seq<Event>, i: nat, b: int)
    requires Run(tr, es) && i < |tr| && (SafeSize(tr[0].g) || Within(tr, es, i)) && tr[i].mode == Running
    requires HomeBlock(tr[i].g, tr[i].disk, b)
    ensures |tr[i].start| == |tr[i].disk| && Seen(tr[i], b) == Apply(tr[i].start, tr[i].past + tr[i].pending)[b]
  {
    hide Run, Within, Apply, Buffered, SafeSize, Gathering, InstallingAt, CachedFrom, Ops, Seen, NoDup, Filled, Loggable;
    RunDisk(tr, es, i);
    RunInvariant(tr, es, i);
    var s := tr[i];
    if s.committing {
      var p :| SoleCommitter(s.procs, p);
      assert StageOk(s, s.procs[p]);
      if s.procs[p].Installing? { SeenInstalling(s, s.procs[p].installed, b); } else { SeenGathering(s, b); }
    } else {
      SeenGathering(s, b);
    }
  }

  // By the time the last end_op returns, everything logged is durable and at home, and the log is empty.
  lemma FinishedIsDurable(tr: seq<State>, es: seq<Event>, i: nat)
    requires Run(tr, es) && i < |es| && (SafeSize(tr[0].g) || Within(tr, es, i)) && es[i].Act? && es[i].a.Finish?
    ensures tr[i].list == [] && tr[i].pending == [] && tr[i].disk[tr[i].g.start][0] == 0
    ensures tr[i + 1].disk == tr[i].disk && HeaderOk(tr[i].g, tr[i].disk)
    ensures HomeImage(tr[i].g, tr[i].disk) == Apply(tr[i].start, tr[i].past)
  {
    hide Within, Durable, Apply, HomeImage, Buffered, SafeSize, Ops, Control, HeaderOk, NoDup;
    RunDisk(tr, es, i);
    RunStep(tr, es, i);
    assert StageOk(tr[i], tr[i].procs[es[i].p]);
    NothingLogged(tr[i].g, tr[i].disk);
  }

  // When recovery completes, the home blocks themselves hold that state.
  lemma RecoveryRestores(tr: seq<State>, es: seq<Event>, i: nat)
    requires Run(tr, es) && i < |es| && (SafeSize(tr[0].g) || Within(tr, es, i + 1))
    requires es[i] == Recover && tr[i + 1].mode == Running
    ensures HomeImage(tr[i].g, tr[i + 1].disk) == Apply(tr[i].start, tr[i].past)
  {
    hide Run, Durable, Apply, HomeImage, NoDup, Buffered, Within;
    RunStarts(tr, es);
    RunDisk(tr, es, i + 1);
    RunInvariant(tr, es, i + 1);
    RunStep(tr, es, i);
    RunInvariant(tr, es, i);
    NothingLogged(tr[i + 1].g, tr[i + 1].disk);
  }

  // While a commit is in progress no operation is open, so no log_write can happen.
  lemma NoWriteDuringCommit(tr: seq<State>, es: seq<Event>, i: nat)
    requires Run(tr, es) && i < |es| && es[i].Act? && (es[i].a.Check? || es[i].a.Append? || es[i].a.End?)
    ensures !tr[i].committing && tr[i].outstanding >= 1
    ensures NoDup(tr[i].list)
  {
    RunInvariant(tr, es, i);
    RunStep(tr, es, i);
    var s := tr[i];
    SomeOpen(s.procs, es[i].p);
    if s.committing { CommittingIsQuiet(s); }
  }

  // end_op never finds a commit in progress.
  lemma EndNeverPanics(tr: seq<State>, es: seq<Event>, i: nat)
    requires Run(tr, es) && i < |es| && es[i].Act? && es[i].a.End?
    ensures tr[i + 1].mode == Running
  {
    RunInvariant(tr, es, i);
    RunStep(tr, es, i);
    ControlEndNext(tr[i], es[i].p);
  }

  // The reservation, if each operation keeps to MAXOPBLOCKS: used slots and unused reservations never
  // exceed LOGSIZE, and an append never goes past it even though the check is made before taking the lock.
  lemma ReservationHolds(tr: seq<State>, es: seq<Event>, i: nat)
    requires Run(tr, es) && i < |tr| && InBudget(tr, i) && tr[i].mode == Running
    ensures |tr[i].list| + Unused(tr[i].procs) <= LOGSIZE
    ensures i < |es| && InBudget(tr, i + 1) ==> |tr[i + 1].list| <= LOGSIZE
  {
    RunReserved(tr, es, i);
    if i < |es| && InBudget(tr, i + 1) { RunReserved(tr, es, i + 1); }
  }

  // log_write panics exactly when the list has LOGSIZE entries or fills the log area.  The check ignores
  // absorption; if operations keep to MAXOPBLOCKS and LOGSIZE is the limit, then every open one has used it up.
  lemma WritePanicsExactlyWhenFull(tr: seq<State>, es: seq<Event>, i: nat)
    requires Run(tr, es) && i < |es| && es[i].Act? && es[i].a.Check?
    ensures tr[i + 1].mode == Panicked <==> |tr[i].list| >= LOGSIZE || |tr[i].list| >= tr[i].g.size - 1
    ensures InBudget(tr, i) && |tr[i].list| >= LOGSIZE ==>
      forall p :: 0 <= p < |tr[i].procs| && tr[i].procs[p].Open() ==> tr[i].procs[p].used == MAXOPBLOCKS
  {
    RunInvariant(tr, es, i);
    RunStep(tr, es, i);
    var s := tr[i];
    SomeOpen(s.procs, es[i].p);
    if InBudget(tr, i) {
      RunReserved(tr, es, i);
      CountBounds(s.procs);
    }
  }

  // A read panics exactly when its block has no busy buffer and NBUF other blocks have.
  lemma ReadPanicsExactly(tr: seq<State>, es: seq<Event>, i: nat)
    requires Run(tr, es) && i < |es| && es[i].Act? && es[i].a.Get?
    ensures tr[i + 1].mode == Panicked <==>
            |Busy(tr[i])| == NBUF && es[i].a.b !in tr[i].cache && forall q :: 0 <= q < |tr[i].refs| ==> es[i].a.b !in tr[i].refs[q]
  {
    hide Control, Ops, RefsOk, SizeOk;
    RunInvariant(tr, es, i);
    RunStep(tr, es, i);
    var s, b := tr[i], es[i].a.b;
    assert b in Busy(s) <==> b in s.cache || exists q :: 0 <= q < |s.refs| && b in s.refs[q];
  }

  // ---- The histories are the events' ----

  datatype Asked = Nothing | Some(b: int, data: Block)

  // The block and contents of p's last log_write among the first i events.
  function LastCheck(es: seq<Event>, p: nat, i: nat): Asked
    requires i <= |es|
  {
    if i == 0 then Nothing
    else
      match es[i - 1]
      case Act(q, Check(b, data)) => if q == p then Some(b, data) else LastCheck(es, p, i - 1)
      case _ => LastCheck(es, p, i - 1)
  }

  // Operations are numbered in the order of their begin_op.
  function Begins(es: seq<Event>, i: nat): nat
    requires i <= |es|
  {
    if i == 0 then 0 else Begins(es, i - 1) + if es[i - 1].Act? && es[i - 1].a.Begin? then 1 else 0
  }

  // The number of p's last operation.
  function OpOf(es: seq<Event>, first: nat, p: nat, i: nat): nat
    requires i <= |es|
  {
    if i == 0 then 0 else if es[i - 1] == Act(p, Begin) then first + Begins(es, i - 1) else OpOf(es, first, p, i - 1)
  }

  datatype Histories = Histories(past: seq<Update>, pending: seq<Update>, lost: seq<Update>)

  // What the events alone say was logged, committed and lost.
  function History(es: seq<Event>, first: nat, i: nat): Histories
    requires i <= |es|
  {
    if i == 0 then Histories([], [], [])
    else
      var h := History(es, first, i - 1);
      match es[i - 1]
      case Crash => Histories(h.past, [], h.lost + h.pending)
      case Act(_, WriteHead) => Histories(h.past + h.pending, [], h.lost)
      case Act(p, Append) =>
        var c := LastCheck(es, p, i - 1);
        if c.Some? then h.(pending := h.pending + [Update(OpOf(es, first, p, i - 1), c.b, c.data)]) else h
      case _ => h
  }

  ghost predicate Recorded(s: State, es: seq<Event>, first: nat, i: nat)
    requires i <= |es|
  {
    && Histories(s.past, s.pending, s.lost) == History(es, first, i)
    && s.nextOp == first + Begins(es, i)
    && forall p: nat :: p < |s.procs| ==> PhaseRecorded(s.procs[p], es, first, p, i)
  }

  ghost predicate PhaseRecorded(ph: Phase, es: seq<Event>, first: nat, p: nat, i: nat)
    requires i <= |es|
  {
    && (ph.Open() ==> ph.op == OpOf(es, first, p, i))
    && (ph.Checked? ==> LastCheck(es, p, i) == Some(ph.b, ph.data))
  }

  // From before to after, process q keeps or gets its operation and its log_write as event e says.
  ghost predicate PhaseStep(before: Phase, after: Phase, e: Event, q: nat, nextOp: nat) {
    && (after.Open() ==> if e == Act(q, Begin) then after == InOp(nextOp, 0) else before.Open() && after.op == before.op)
    && (after.Checked? ==>
        if e.Act? && e.p == q && e.a.Check? then after.b == e.a.b && after.data == e.a.data else after == before)
  }

  lemma DoOther(s: State, p: nat, a: Action, q: nat)
    requires Enabled(s, Act(p, a)) && q < |s.procs| == |Do(s, p, a).procs| && q != p
    ensures Do(s, p, a).procs[q] == s.procs[q] || Do(s, p, a).procs[q] == Idle
  {
    hide WithHeader, Copy, Busy, HomeBlock, Admits;
  }

  lemma DoOwn(s: State, p: nat, a: Action)
    requires Enabled(s, Act(p, a)) && |Do(s, p, a).procs| == |s.procs|
    ensures PhaseStep(s.procs[p], Do(s, p, a).procs[p], Act(p, a), p, s.nextOp)
  {
    hide WithHeader, Copy, Busy, HomeBlock, Admits;
  }

  lemma PhaseNext(s: State, e: Event, q: nat)
    requires Enabled(s, e) && q < |s.procs| == |Next(s, e).procs|
    ensures PhaseStep(s.procs[q], Next(s, e).procs[q], e, q, s.nextOp)
  {
    hide Do, WithHeader, Copy, CanAct;
    if e.Act? {
      if e.p == q { DoOwn(s, e.p, e.a); } else { DoOther(s, e.p, e.a, q); }
    }
  }

  lemma HistoriesNext(s: State, e: Event)
    requires Enabled(s, e)
    ensures var t := Next(s, e);
      && t.nextOp == s.nextOp + (if e.Act? && e.a.Begin? then 1 else 0)
      && Histories(t.past, t.pending, t.lost) ==
         match e
         case Crash => Histories(s.past, [], s.lost + s.pending)
         case Act(_, WriteHead) => Histories(s.past + s.pending, [], s.lost)
         case Act(p, Append) =>
           Histories(s.past, s.pending + [Update(s.procs[p].op, s.procs[p].b, s.procs[p].data)], s.lost)
         case _ => Histories(s.past, s.pending, s.lost)
  {
    hide WithHeader, Copy, Busy, HomeBlock, Admits, Woken;
  }

  lemma RecordedNext(s: State, es: seq<Event>, first: nat, i: nat)
    requires i < |es| && Enabled(s, es[i]) && Recorded(s, es, first, i)
    ensures Recorded(Next(s, es[i]), es, first, i + 1)
  {
    hide Next, Admits, HomeBlock;
    var e := es[i];
    var t := Next(s, e);
    HistoriesNext(s, e);
    if e.Act? { assert PhaseRecorded(s.procs[e.p], es, first, e.p, i); }
    forall q: nat | q < |t.procs| ensures PhaseRecorded(t.procs[q], es, first, q, i + 1) {
      SameGeometry(s, e);
      PhaseNext(s, e, q);
      assert PhaseRecorded(s.procs[q], es, first, q, i);
    }
  }

  // In every run the committed, pending and lost updates are those of the log_write calls: each was asked for by the
  // process's last log_write before it, in the operation it had begun, and goes from pending to committed when the
  // header is written or to lost when the power fails.
  lemma {:induction false} HistoriesAreEvents(tr: seq<State>, es: seq<Event>, i: nat)
    requires Run(tr, es) && i < |tr|
    ensures Histories(tr[i].past, tr[i].pending, tr[i].lost) == History(es, tr[0].nextOp, i)
    ensures Recorded(tr[i], es, tr[0].nextOp, i)
  {
    hide Next, Enabled;
    if i > 0 {
      HistoriesAreEvents(tr, es, i - 1);
      RunStep(tr, es, i - 1);
      RecordedNext(tr[i - 1], es, tr[0].nextOp, i - 1);
    }
  }

  // ---- Nobody is stuck ----

  // Nobody sleeps in begin_op while it would be let in.
  ghost predicate Refused(s: State) {
    s.mode == Running && Admits(s) ==> NobodySleeps(s.procs)
  }

  lemma RefusedOps(s: State, p: nat, a: Action)
    requires Control(s) && Refused(s) && Enabled(s, Act(p, a)) && !a.End? && !a.Finish?
    ensures Refused(Do(s, p, a))
  {
    hide NoDup, SoleCommitter, WithHeader, Copy, HomeBlock, Busy, NobodyFinishes, Outstanding;
    var t := Do(s, p, a);
    if a.ClearHead? { assert s.procs[p].Commits(); }
    if t.mode == Running && Admits(t) {
      assert Admits(s);
      forall q | 0 <= q < |t.procs| ensures !t.procs[q].Asleep? {
        assert !s.procs[q].Asleep?;
      }
    }
  }

  lemma RefusedNext(s: State, e: Event)
    requires Control(s) && Refused(s) && Enabled(s, e)
    ensures Refused(Next(s, e))
  {
    hide NoDup, SoleCommitter, NobodyCommits, WithHeader, Copy, HomeBlock, NobodyFinishes, Outstanding;
    if e.Act? && !e.a.End? && !e.a.Finish? { RefusedOps(s, e.p, e.a); }
  }

  lemma {:induction false} RunRefused(tr: seq<State>, es: seq<Event>, i: nat)
    requires Run(tr, es) && i < |tr|
    ensures Refused(tr[i])
  {
    hide Control, Buffered, Ops, Next, Enabled, Run, Refused;
    RunStarts(tr, es);
    if i == 0 {
      assert Refused(tr[0]) by { BootRefused(tr[0]); }
    } else {
      RunRefused(tr, es, i - 1);
      RunInvariant(tr, es, i - 1);
      RunStep(tr, es, i - 1);
      RefusedNext(tr[i - 1], es[i - 1]);
    }
  }

  lemma BootRefused(s: State)
    requires s.mode.Booting?
    ensures Refused(s)
  {
  }

  // No lost wakeup.  A process asleep in begin_op would not be let in now: a commit is in progress, or the open
  // operations have reserved the log, and there is such a commit or operation to wake it when it ends.
  lemma SleepersHaveAWaker(tr: seq<State>, es: seq<Event>, i: nat, q: nat)
    requires Run(tr, es) && i < |tr| && tr[i].mode == Running && q < |tr[i].procs| && tr[i].procs[q].Asleep?
    ensures tr[i].committing || |tr[i].list| + (tr[i].outstanding + 1) * MAXOPBLOCKS > LOGSIZE
    ensures exists p :: 0 <= p < |tr[i].procs| && (tr[i].procs[p].Commits() || tr[i].procs[p].Open())
  {
    RunInvariant(tr, es, i);
    RunRefused(tr, es, i);
    var s := tr[i];
    if s.committing {
      var p :| SoleCommitter(s.procs, p);
    } else if forall p :: 0 <= p < |s.procs| ==> !s.procs[p].Open() {
      NoneOpen(s.procs);
    }
  }

  lemma EndStep(s: State, p: nat, a: Action)
    requires Enabled(s, Act(p, a)) && (a.End? || a.Finish?) && (a.End? ==> !s.committing)
    ensures var t := Do(s, p, a);
      (t.committing <==> a.End? && s.outstanding == 1) && (!t.committing ==> NobodySleeps(t.procs))
  {
  }

  // An end_op that starts no commit wakes everybody, and so does the end of every commit.
  lemma EndsWakeEverybody(tr: seq<State>, es: seq<Event>, i: nat)
    requires Run(tr, es) && i < |es| && es[i].Act? && (es[i].a.End? || es[i].a.Finish?)
    ensures tr[i + 1].committing <==> es[i].a.End? && tr[i].outstanding == 1
    ensures !tr[i + 1].committing ==> NobodySleeps(tr[i + 1].procs)
  {
    hide Control, Buffered, Ops, Do, CanAct;
    RunStep(tr, es, i);
    if es[i].a.End? { NoWriteDuringCommit(tr, es, i); }
    EndStep(tr[i], es[i].p, es[i].a);
  }

  // A killed sleeper wakes, and nobody else does.
  lemma KillWakes(tr: seq<State>, es: seq<Event>, i: nat, p: nat)
    requires Run(tr, es) && i < |es| && es[i].Kill? && p < |tr[i].procs|
    ensures |tr[i + 1].procs| == |tr[i].procs| && es[i].q < |tr[i].procs| && !tr[i + 1].procs[es[i].q].Asleep?
    ensures p != es[i].q || !tr[i].procs[p].Asleep? ==> tr[i + 1].procs[p] == tr[i].procs[p]
  {
    RunStep(tr, es, i);
  }

  // begin_op lets a process in exactly when no commit is in progress and one more reservation fits.
  lemma AdmittedExactly(tr: seq<State>, es: seq<Event>, i: nat, p: nat)
    requires Run(tr, es) && i < |tr| && tr[i].mode == Running
    requires p < |tr[i].procs| && tr[i].procs[p].Idle? && p < |tr[i].refs| && tr[i].refs[p] == {}
    ensures Enabled(tr[i], Act(p, Begin)) <==>
            !tr[i].committing && |tr[i].list| + MAXOPBLOCKS * Outstanding(tr[i].procs) + MAXOPBLOCKS <= LOGSIZE
    ensures Enabled(tr[i], Act(p, Wait)) <==> !Enabled(tr[i], Act(p, Begin))
  {
    hide NoDup, SoleCommitter, NobodyCommits, Busy, RefsOk;
    RunInvariant(tr, es, i);
    RunFits(tr, es, i);
  }

  lemma {:induction false} RunFits(tr: seq<State>, es: seq<Event>, i: nat)
    requires Run(tr, es) && i < |tr|
    ensures tr[i].g.start < |tr[i].disk|
  {
    hide Next, Enabled;
    if i > 0 {
      RunFits(tr, es, i - 1);
      RunStep(tr, es, i - 1);
      SameDisk(tr[i - 1], es[i - 1]);
    }
  }

  lemma SameDisk(s: State, e: Event)
    requires Enabled(s, e)
    ensures Next(s, e).g == s.g && |Next(s, e).disk| == |s.disk|
  {
    hide Woken, Busy;
  }

  // The event by which a committing process goes on: a read of the block it needs, then the write.
  function Onward(s: State, p: nat): Event
    requires p < |s.procs| && p < |s.refs| && s.procs[p].Commits()
  {
    match s.procs[p]
    case Filling(i) =>
      if s.list == [] then Act(p, ClearHead)
      else if LogBlock(s, i) !in s.refs[p] then Act(p, Get(LogBlock(s, i)))
      else Act(p, if i < |s.list| then WriteCopy else WriteHead)
    case Installing(i) =>
      if LogBlock(s, i) !in s.refs[p] then Act(p, Get(LogBlock(s, i)))
      else Act(p, if i < |s.list| then InstallCopy else ClearHead)
    case Finishing => Act(p, Finish)
  }

  // Nobody but p has a reference to a buffer.
  ghost predicate Alone(s: State, p: nat) {
    forall q :: 0 <= q < |s.refs| && q != p ==> s.refs[q] == {}
  }

  // A recovery and a commit always have a next step.  A commit panics in bread exactly when all buffers are
  // busy; if nobody else reads, exactly at its start and exactly when NBUF blocks are listed.
  lemma CommitGoesOn(tr: seq<State>, es: seq<Event>, i: nat, p: nat)
    requires Run(tr, es) && i < |tr| && (SafeSize(tr[0].g) || Within(tr, es, i)) && p < |tr[i].procs|
    ensures tr[i].mode.Booting? ==> Enabled(tr[i], Recover)
    ensures tr[i].mode == Running && tr[i].procs[p].Commits() ==>
      var s := tr[i];
      && |s.refs| == |s.procs| && Enabled(s, Onward(s, p))
      && (Next(s, Onward(s, p)).mode == Panicked <==> Onward(s, p).a.Get? && |Busy(s)| >= NBUF)
      && (Alone(s, p) ==>
            (Next(s, Onward(s, p)).mode == Panicked <==> s.procs[p] == Filling(0) && |s.list| == NBUF))
  {
    hide Run, Durable, Apply, NoDup, Overlay, Within, Ops;
    RunDisk(tr, es, i);
    RunInvariant(tr, es, i);
    var s := tr[i];
    assert HeaderOk(s.g, s.disk);
    if s.mode == Running && s.procs[p].Commits() {
      TheCommitter(s, p);
      CommitStep(s, p);
      if Alone(s, p) { AloneStep(s, p); }
    }
  }

  lemma LogBlockFree(s: State, p: nat, b: int)
    requires Buffered(s) && s.mode == Running && SoleCommitter(s.procs, p) && InLog(s.g, b) && b !in s.refs[p]
    ensures b !in Busy(s)
  {
    assert !HomeBlock(s.g, s.disk, b);
    forall q | 0 <= q < |s.refs| ensures b !in s.refs[q] {
      assert RefsOk(s, s.procs[q], s.refs[q]);
    }
  }

  // The block a commit reads next lies in the log.
  lemma NextInLog(s: State, p: nat, i: nat)
    requires Buffered(s) && DiskOk(s) && s.mode == Running && p < |s.procs|
    requires (s.procs[p] == Filling(i) && s.list != []) || s.procs[p] == Installing(i)
    ensures InLog(s.g, LogBlock(s, i)) && Fits(s.g, s.disk) && i <= |s.list|
  {
    hide Durable, Apply, Overlay, NoDup, Filled, Installed, Busy, RefsOk;
    assert StageOk(s, s.procs[p]);
  }

  lemma CommitStep(s: State, p: nat)
    requires Control(s) && Buffered(s) && DiskOk(s) && s.mode == Running && SoleCommitter(s.procs, p)
    ensures Enabled(s, Onward(s, p))
    ensures Next(s, Onward(s, p)).mode == Panicked <==> Onward(s, p).a.Get? && |Busy(s)| >= NBUF
  {
    hide Control, Durable, Apply, Overlay, NoDup, Filled, Installed, Busy, RefsOk, Loggable, HeaderOk;
    var ph := s.procs[p];
    assert StageOk(s, ph);
    if ph.Filling? && s.list != [] {
      NextInLog(s, p, ph.filled);
      if LogBlock(s, ph.filled) !in s.refs[p] { LogBlockFree(s, p, LogBlock(s, ph.filled)); }
    } else if ph.Installing? {
      NextInLog(s, p, ph.installed);
      InstallHome(s, ph.installed);
      if LogBlock(s, ph.installed) !in s.refs[p] { LogBlockFree(s, p, LogBlock(s, ph.installed)); }
    }
  }

  lemma InstallHome(s: State, i: nat)
    requires InstallingAt(s, i)
    ensures i < |s.list| ==> 0 <= s.list[i] < |s.disk|
  {
  }

  // Without other readers the busy buffers are the pinned ones and the committer's own.
  lemma AloneBusy(s: State, p: nat)
    requires p < |s.refs| && Alone(s, p)
    ensures Busy(s) == s.cache.Keys + s.refs[p]
  {
    HeldUpdate(s.refs, p, s.refs[p]);
    assert Held(s.refs) == s.refs[p];
  }

  // How many buffers are busy when a commit that is alone reads its next block.
  lemma AloneCount(s: State, p: nat)
    requires p < |s.refs| && Alone(s, p) && s.refs[p] == {} && NoDup(s.list)
    requires forall b :: b in s.cache ==> b in s.list
    ensures |Busy(s)| <= |s.list|
    ensures (forall i :: 0 <= i < |s.list| ==> s.list[i] in s.cache) ==> |Busy(s)| == |s.list|
  {
    hide Busy, NoDup;
    assert Busy(s) == s.cache.Keys by { AloneBusy(s, p); }
    forall b | b in s.cache.Keys ensures b in s.list { assert b in s.cache; }
    AtMost(s.list, s.cache.Keys);
    if forall i :: 0 <= i < |s.list| ==> s.list[i] in s.cache { AtLeast(s.list, s.cache.Keys); }
  }

  lemma OnList(s: State, ph: Phase)
    requires StageOk(s, ph) && ph.Commits()
    ensures (forall b :: b in s.cache ==> b in s.list)
    ensures ph.Filling? ==> forall i :: 0 <= i < |s.list| ==> s.list[i] in s.cache
  {
    hide Durable, Apply, Overlay, NoDup, Filled, Installed, Loggable, HeaderOk;
  }

  lemma AloneStep(s: State, p: nat)
    requires Control(s) && Buffered(s) && DiskOk(s) && s.mode == Running && SoleCommitter(s.procs, p) && Alone(s, p)
    requires Enabled(s, Onward(s, p))
    requires Next(s, Onward(s, p)).mode == Panicked <==> Onward(s, p).a.Get? && |Busy(s)| >= NBUF
    ensures Next(s, Onward(s, p)).mode == Panicked <==> s.procs[p] == Filling(0) && |s.list| == NBUF
  {
    hide Next, Enabled, StageOk, Gathering, DurableIs, Busy, NoDup, Held, SizeOk;
    var ph, e := s.procs[p], Onward(s, p);
    assert StageOk(s, ph) && RefsOk(s, ph, s.refs[p]);
    OnList(s, ph);
    if e.a.Get? {
      AloneCount(s, p);
    } else if e.a.WriteCopy? {
      CopyLeavesABuffer(s, p);
    }
  }
}
