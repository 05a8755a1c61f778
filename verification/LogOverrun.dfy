// How large the log area must be (log.c:126-141, log.c:216; mkfs.c:25).
//
// begin_op reserves LOGSIZE slots and log_write checks the log area before it takes log.lock, so on a
// smaller area two processes can pass the check with one slot left.  The buffer cache decides what comes of it:
// with as many blocks listed as there are buffers, the commit panics before its first write.
module LogOverrun {
  import opened Params
  import opened LogSpec
  import opened Sequences
  import opened GroupCommit

  // ---- Playing a list of events ----

  // The events can happen one after the other from s, within every operation's budget.
  ghost predicate Plays(s: State, es: seq<Event>)
    decreases |es|
  {
    && Budgeted(s.procs)
    && (es == [] || (Enabled(s, es[0]) && Plays(Next(s, es[0]), es[1..])))
  }

  ghost function After(s: State, es: seq<Event>): State
    requires Plays(s, es)
    decreases |es|
  {
    if es == [] then s else After(Next(s, es[0]), es[1..])
  }

  ghost function Trace(s: State, es: seq<Event>): (tr: seq<State>)
    requires Plays(s, es)
    ensures |tr| == |es| + 1 && tr[0] == s
    decreases |es|
  {
    if es == [] then [s] else [s] + Trace(Next(s, es[0]), es[1..])
  }

  lemma {:induction false} TraceAt(s: State, es: seq<Event>, i: nat)
    requires Plays(s, es) && i <= |es|
    ensures var tr := Trace(s, es);
      && Budgeted(tr[i].procs)
      && (i < |es| ==> Enabled(tr[i], es[i]) && tr[i + 1] == Next(tr[i], es[i]))
      && (i == |es| ==> tr[i] == After(s, es))
    decreases |es|
  {
    hide Enabled, Next, Budgeted;
    if es != [] && i > 0 { TraceAt(Next(s, es[0]), es[1..], i - 1); }
  }

  lemma TraceIsRun(s: State, es: seq<Event>)
    requires Init(s) && Plays(s, es)
    ensures Run(Trace(s, es), es) && InBudget(Trace(s, es), |es|) && Trace(s, es)[|es|] == After(s, es)
  {
    hide Enabled, Next, Init, Trace, Budgeted;
    TraceShape(s, es);
    var tr := Trace(s, es);
    forall i | 0 <= i < |es| ensures Enabled(tr[i], es[i]) && tr[i + 1] == Next(tr[i], es[i]) {
      TraceAt(s, es, i);
    }
    forall k | 0 <= k <= |es| && k < |tr| ensures Budgeted(tr[k].procs) {
      TraceAt(s, es, k);
    }
    TraceAt(s, es, |es|);
  }

  lemma TraceShape(s: State, es: seq<Event>)
    requires Plays(s, es)
    ensures |Trace(s, es)| == |es| + 1 && Trace(s, es)[0] == s
  {
  }

  lemma {:induction false} PlayOn(s: State, a: seq<Event>, b: seq<Event>)
    requires Plays(s, a) && Plays(After(s, a), b)
    ensures Plays(s, a + b) && After(s, a + b) == After(After(s, a), b) && Trace(s, a + b)[|a|] == After(s, a)
    decreases |a|
  {
    hide Enabled, Next, Budgeted;
    if a == [] {
      assert a + b == b;
    } else {
      assert (a + b)[0] == a[0] && (a + b)[1..] == a[1..] + b;
      PlayOn(Next(s, a[0]), a[1..], b);
    }
  }

  lemma PlayOne(s: State, e: Event)
    requires Enabled(s, e) && Budgeted(s.procs) && Budgeted(Next(s, e).procs)
    ensures Plays(s, [e]) && After(s, [e]) == Next(s, e)
  {
    hide Enabled, Next, Budgeted;
    assert [e][1..] == [] && Plays(Next(s, e), []);
  }

  // t can come after s, within every operation's budget.
  ghost predicate Reaches(s: State, t: State) {
    exists es :: Plays(s, es) && After(s, es) == t
  }

  lemma ReachSelf(s: State)
    requires Budgeted(s.procs)
    ensures Reaches(s, s)
  {
    assert Plays(s, []) && After(s, []) == s;
  }

  lemma ReachOne(s: State, e: Event)
    requires Enabled(s, e) && Budgeted(s.procs) && Budgeted(Next(s, e).procs)
    ensures Reaches(s, Next(s, e))
  {
    hide Enabled, Next, Budgeted;
    PlayOne(s, e);
  }

  lemma ReachOn(s: State, t: State, u: State)
    requires Reaches(s, t) && Reaches(t, u)
    ensures Reaches(s, u)
  {
    hide Plays, After;
    var a :| Plays(s, a) && After(s, a) == t;
    var b :| Plays(t, b) && After(t, b) == u;
    PlayOn(s, a, b);
  }

  // One more event after t.
  lemma ReachNext(s: State, t: State, e: Event)
    requires Reaches(s, t) && Enabled(t, e) && Budgeted(t.procs) && Budgeted(Next(t, e).procs)
    ensures Reaches(s, Next(t, e))
  {
    hide Reaches, Enabled, Next, Budgeted;
    ReachOne(t, e);
    ReachOn(s, t, Next(t, e));
  }

  lemma ReachRun(s: State, t: State) returns (tr: seq<State>, es: seq<Event>)
    requires Init(s) && Reaches(s, t)
    ensures Run(tr, es) && tr[0] == s && tr[|es|] == t && InBudget(tr, |es|)
  {
    hide Plays, After, Run, Init, InBudget;
    es :| Plays(s, es) && After(s, es) == t;
    TraceIsRun(s, es);
    tr := Trace(s, es);
  }

  // A run whose last event is e, made in state t.
  lemma ReachThen(s: State, t: State, e: Event) returns (tr: seq<State>, es: seq<Event>)
    requires Init(s) && Reaches(s, t) && Enabled(t, e) && Budgeted(t.procs) && Budgeted(Next(t, e).procs)
    ensures Run(tr, es) && tr[0] == s && InBudget(tr, |es|)
    ensures |es| > 0 && es[|es| - 1] == e && tr[|es| - 1] == t && tr[|es|] == Next(t, e)
  {
    hide Plays, After, Run, Init, InBudget, Enabled, Next, Trace, Budgeted;
    var a :| Plays(s, a) && After(s, a) == t;
    PlayOne(t, e);
    PlayOn(s, a, [e]);
    es := a + [e];
    TraceIsRun(s, es);
    TraceShape(s, es);
    tr := Trace(s, es);
  }

  // ---- Which buffers are busy ----

  // Exactly the first n blocks of bs are pinned, all with contents x.
  ghost predicate Cached(s: State, bs: seq<int>, x: Block, n: nat) {
    && n <= |bs| && (forall i :: 0 <= i < n ==> bs[i] in s.cache && s.cache[bs[i]] == x)
    && forall c :: c in s.cache ==> c in bs[..n]
  }

  // Nobody has a reference to a buffer.
  ghost predicate Unheld(s: State) {
    |s.refs| == |s.procs| && forall p :: 0 <= p < |s.refs| ==> s.refs[p] == {}
  }

  lemma CachedBusy(s: State, bs: seq<int>, x: Block, n: nat)
    requires Cached(s, bs, x, n) && Unheld(s)
    ensures |Busy(s)| <= n && (NoDup(bs) ==> |Busy(s)| == n) && forall c :: c in Busy(s) ==> c in bs
  {
    assert Busy(s) == s.cache.Keys;
    forall c | c in s.cache.Keys ensures c in bs[..n] { assert c in s.cache; }
    AtMost(bs[..n], s.cache.Keys);
    if NoDup(bs) { AtLeast(bs[..n], s.cache.Keys); }
  }

  lemma CachedOne(s: State, t: State, bs: seq<int>, x: Block, n: nat)
    requires Cached(s, bs, x, n) && n < |bs| && t.cache == s.cache[bs[n] := x]
    ensures Cached(t, bs, x, n + 1)
  {
    assert bs[..n + 1] == bs[..n] + [bs[n]];
  }

  // bread of a block of a file, with a buffer to spare.
  lemma GetStep(s: State, p: nat, b: int) returns (t: State)
    requires s.mode == Running && p < |s.procs| && |s.refs| == |s.procs| && s.procs[p].InOp? && s.refs[p] == {}
    requires s.g.start < |s.disk| && HomeBlock(s.g, s.disk, b) && |Busy(s)| < NBUF && Budgeted(s.procs)
    ensures Reaches(s, t) && t == s.(refs := s.refs[p := {b}]) && |Busy(t)| <= |Busy(s)| + 1
  {
    hide Reaches, Busy, HomeBlock, Budgeted;
    t := Next(s, Act(p, Get(b)));
    assert {} + {b} == {b};
    ReachOne(s, Act(p, Get(b)));
    BusyGet(s, t, p, b);
  }

  lemma PutStep(s: State, p: nat, b: int) returns (t: State)
    requires s.mode == Running && p < |s.procs| && |s.refs| == |s.procs| && s.procs[p].InOp? && s.refs[p] == {b}
    requires s.g.start < |s.disk| && Budgeted(s.procs)
    ensures Reaches(s, t) && t == s.(refs := s.refs[p := {}])
  {
    hide Reaches, Busy, Budgeted;
    t := Next(s, Act(p, Put(b)));
    assert {b} - {b} == {};
    ReachOne(s, Act(p, Put(b)));
  }

  // ---- Three operations fill the list ----

  // The first a blocks are logged by process 0, the next b by process 1, the rest by process 2.
  function Writer(a: nat, b: nat, j: nat): nat {
    if j < a then 0 else if j < a + b then 1 else 2
  }

  // How many of the first j blocks process p has logged.
  function Used(a: nat, b: nat, j: nat, p: nat): nat {
    if p == 0 then (if j < a then j else a)
    else if p == 1 then (if j < a then 0 else if j < a + b then j - a else b)
    else if p == 2 then (if j < a + b then 0 else j - a - b)
    else 0
  }

  // Three operations are open, n blocks are listed and all hold x.
  ghost predicate Listing(s: State, bs: seq<int>, x: Block, n: nat) {
    && s.mode == Running && !s.committing && s.outstanding == 3 && |s.procs| >= 3 && n <= |bs| && s.list == bs[..n]
    && (forall p :: 0 <= p < 3 ==> s.procs[p].InOp?)
    && (forall p :: 3 <= p < |s.procs| ==> s.procs[p].Idle?)
    && Cached(s, bs, x, n) && Unheld(s) && Budgeted(s.procs)
  }

  // And the first three processes have logged them in turn.
  ghost predicate Loaded(s: State, bs: seq<int>, x: Block, a: nat, b: nat, j: nat) {
    Listing(s, bs, x, j) && forall p :: 0 <= p < 3 ==> s.procs[p].used == Used(a, b, j, p)
  }

  // Blocks the processes may log: distinct, on the disk and outside the log.
  ghost predicate Supply(s: State, bs: seq<int>) {
    s.g.start < |s.disk| && NoDup(bs) && forall i :: 0 <= i < |bs| ==> HomeBlock(s.g, s.disk, bs[i])
  }

  // What booting and logging leave alone.
  ghost predicate SameDisk(s: State, t: State) {
    t.g == s.g && t.disk == s.disk && t.start == s.start && t.past == s.past && |t.procs| == |s.procs|
  }

  // One more block: its writer reads it, passes the check, appends it and gives it back.
  lemma LoadOne(s: State, bs: seq<int>, x: Block, a: nat, b: nat, j: nat) returns (t: State)
    requires Loaded(s, bs, x, a, b, j) && Supply(s, bs) && j < |bs| && j < LOGSIZE && j < s.g.size - 1
    requires a <= MAXOPBLOCKS && b <= MAXOPBLOCKS && j < a + b + MAXOPBLOCKS
    ensures Reaches(s, t) && Loaded(t, bs, x, a, b, j + 1) && SameDisk(s, t)
  {
    hide Reaches, Cached, Busy;
    var p := Writer(a, b, j);
    CachedBusy(s, bs, x, j);
    var s1 := GetStep(s, p, bs[j]);
    var s2 := Next(s1, Act(p, Check(bs[j], x)));
    ReachNext(s, s1, Act(p, Check(bs[j], x)));
    var s3 := Next(s2, Act(p, Append));
    assert bs[j] !in bs[..j] && bs[..j + 1] == bs[..j] + [bs[j]];
    ReachNext(s, s2, Act(p, Append));
    t := PutStep(s3, p, bs[j]);
    ReachOn(s, s3, t);
    CachedOne(s, t, bs, x, j);
  }

  lemma {:induction false} LoadUpTo(s: State, bs: seq<int>, x: Block, a: nat, b: nat, n: nat) returns (t: State)
    requires Loaded(s, bs, x, a, b, 0) && Supply(s, bs) && n <= |bs| && n <= LOGSIZE && n < s.g.size
    requires a <= MAXOPBLOCKS && b <= MAXOPBLOCKS && n <= a + b + MAXOPBLOCKS
    ensures Reaches(s, t) && Loaded(t, bs, x, a, b, n) && SameDisk(s, t)
  {
    hide Reaches, Listing, NoDup, HomeBlock, Budgeted;
    if n == 0 {
      assert Budgeted(s.procs) by { LoadedBudget(s, bs, x, 0); }
      ReachSelf(s);
      t := s;
    } else {
      var u := LoadUpTo(s, bs, x, a, b, n - 1);
      t := LoadOne(u, bs, x, a, b, n - 1);
      ReachOn(s, u, t);
    }
  }

  lemma LoadedBudget(s: State, bs: seq<int>, x: Block, n: nat)
    requires Listing(s, bs, x, n)
    ensures Budgeted(s.procs)
  {
  }

  // A booted machine: nothing logged, everybody idle, the home blocks as recovery left them.
  ghost predicate Booted(s: State) {
    s.mode == Running && s.list == [] && s.cache == map[] && AllIdle(s.procs) && !s.committing && s.outstanding == 0 && Unheld(s)
  }

  lemma OpenThree(s: State, bs: seq<int>, x: Block, a: nat, b: nat) returns (t: State)
    requires Booted(s) && |s.procs| >= 3 && s.g.start < |s.disk|
    ensures Reaches(s, t) && Loaded(t, bs, x, a, b, 0) && SameDisk(s, t)
  {
    hide Reaches, Busy;
    var s1 := Next(s, Act(0, Begin));
    var s2 := Next(s1, Act(1, Begin));
    t := Next(s2, Act(2, Begin));
    ReachOne(s, Act(0, Begin));
    ReachNext(s, s1, Act(1, Begin));
    ReachNext(s, s2, Act(2, Begin));
  }

  // ---- The race ----

  // With one slot left and two buffers, processes 1 and 2 both pass the check, and both append.
  lemma RaceToOverrun(s: State, bs: seq<int>, x: Block, m: nat) returns (t: State)
    requires 1 <= m < NBUF && m < s.g.size && m < |bs| && Loaded(s, bs, x, 10, 9, m - 1) && Supply(s, bs)
    ensures Reaches(s, t) && Listing(t, bs, x, m + 1) && SameDisk(s, t)
  {
    hide Reaches, Cached, Busy;
    CachedBusy(s, bs, x, m - 1);
    var s1 := GetStep(s, 1, bs[m - 1]);
    var s2 := GetStep(s1, 2, bs[m]);
    ReachOn(s, s1, s2);
    var s4 := BothCheck(s, s2, bs[m - 1], bs[m], x);
    assert bs[m - 1] !in bs[..m - 1] && bs[m] !in bs[..m - 1] + [bs[m - 1]];
    assert bs[..m + 1] == bs[..m - 1] + [bs[m - 1]] + [bs[m]];
    var s6 := BothAppend(s, s4, bs[m - 1], bs[m], x);
    var s7 := PutStep(s6, 1, bs[m - 1]);
    t := PutStep(s7, 2, bs[m]);
    ReachOn(s, s6, s7);
    ReachOn(s, s7, t);
    var mid := s.(cache := s.cache[bs[m - 1] := x]);
    CachedOne(s, mid, bs, x, m - 1);
    CachedOne(mid, t, bs, x, m);
  }

  // Processes 1 and 2 pass log_write's checks on b1 and b2.
  lemma BothCheck(s: State, u: State, b1: int, b2: int, x: Block) returns (t: State)
    requires Reaches(s, u) && u.mode == Running && |u.refs| == |u.procs| && |u.procs| >= 3 && u.outstanding == 3
    requires u.procs[1].InOp? && u.procs[2].InOp? && b1 in u.refs[1] && b2 in u.refs[2] && Budgeted(u.procs)
    requires u.g.start < |u.disk| && HomeBlock(u.g, u.disk, b1) && HomeBlock(u.g, u.disk, b2)
    requires |u.list| < LOGSIZE && |u.list| < u.g.size - 1
    ensures var p1, p2 := u.procs[1], u.procs[2];
      t == u.(procs := u.procs[1 := Checked(p1.op, p1.used, b1, x)][2 := Checked(p2.op, p2.used, b2, x)])
    ensures Reaches(s, t) && Budgeted(t.procs)
  {
    hide Reaches, Busy, HomeBlock;
    var e1, e2 := Act(1, Check(b1, x)), Act(2, Check(b2, x));
    var v := Next(u, e1);
    ReachNext(s, u, e1);
    t := Next(v, e2);
    ReachNext(s, v, e2);
  }

  // And both append.
  lemma BothAppend(s: State, u: State, b1: int, b2: int, x: Block) returns (t: State)
    requires Reaches(s, u) && u.mode == Running && |u.refs| == |u.procs| && |u.procs| >= 3 && u.g.start < |u.disk|
    requires u.procs[1].Checked? && u.procs[1].b == b1 && u.procs[1].data == x && u.procs[1].used < MAXOPBLOCKS
    requires u.procs[2].Checked? && u.procs[2].b == b2 && u.procs[2].data == x && u.procs[2].used < MAXOPBLOCKS
    requires b1 !in u.list && b2 !in u.list + [b1] && Budgeted(u.procs)
    ensures var p1, p2 := u.procs[1], u.procs[2];
      && t.procs == u.procs[1 := InOp(p1.op, p1.used + 1)][2 := InOp(p2.op, p2.used + 1)]
      && t == u.(procs := t.procs, list := u.list + [b1] + [b2], cache := u.cache[b1 := x][b2 := x], pending := t.pending)
    ensures Reaches(s, t) && Budgeted(t.procs)
  {
    hide Reaches, Busy;
    var v := Next(u, Act(1, Append));
    ReachNext(s, u, Act(1, Append));
    t := Next(v, Act(2, Append));
    ReachNext(s, v, Act(2, Append));
  }

  // Recovery runs to its end.
  lemma {:induction false} BootOn(s: State) returns (t: State)
    requires Control(s) && DiskOk(s) && s.mode.Booting? && Unheld(s)
    ensures Reaches(s, t) && Booted(t) && DiskOk(t)
    ensures t.g == s.g && |t.disk| == |s.disk| && t.start == s.start && t.past == s.past && |t.procs| == |s.procs|
    decreases |s.list| - s.mode.i
  {
    hide Reaches, Control, Ops, DurableIs, Gathering, Loggable, StageOk, Installed;
    BootFacts(s);
    var n := Next(s, Recover);
    ControlNext(s, Recover);
    DiskRecover(s);
    ReachOne(s, Recover);
    if n.mode == Running {
      t := n;
    } else {
      t := BootOn(n);
      ReachOn(s, n, t);
    }
  }

  lemma BootFacts(s: State)
    requires Control(s) && DiskOk(s) && s.mode.Booting?
    ensures Enabled(s, Recover) && Budgeted(s.procs) && Budgeted(Next(s, Recover).procs) && s.mode.i <= |s.list|
    ensures AllIdle(s.procs) && !s.committing && s.outstanding == 0 && s.cache == map[]
  {
    hide NoDup, Durable, Apply;
  }

  // ---- The commit ----

  // Process 2 is committing n blocks, all with contents x, and has written k copies.
  ghost predicate Copying(s: State, bs: seq<int>, x: Block, n: nat, k: nat) {
    && s.mode == Running && s.committing && |s.procs| >= 3 && n <= |bs| && s.list == bs[..n]
    && s.procs[2] == Filling(k) && Budgeted(s.procs) && Cached(s, bs, x, n) && Unheld(s)
  }

  lemma EndThree(s: State, bs: seq<int>, x: Block, n: nat) returns (t: State)
    requires Listing(s, bs, x, n) && s.g.start < |s.disk|
    ensures Reaches(s, t) && Copying(t, bs, x, n, 0) && SameDisk(s, t)
  {
    hide Reaches, Busy;
    var s1 := Next(s, Act(0, End));
    var s2 := Next(s1, Act(1, End));
    t := Next(s2, Act(2, End));
    ReachOne(s, Act(0, End));
    ReachNext(s, s1, Act(1, End));
    ReachNext(s, s2, Act(2, End));
  }

  // The committer reads its next log block, with a buffer to spare, and writes the copy.
  lemma CopyOne(s: State, bs: seq<int>, x: Block, n: nat, k: nat) returns (t: State)
    requires Copying(s, bs, x, n, k) && k < n < NBUF && s.g.start + 1 + k < |s.disk|
    ensures Reaches(s, t) && Copying(t, bs, x, n, k + 1)
    ensures t.g == s.g && t.start == s.start && t.past == s.past && t.disk == s.disk[s.g.start + 1 + k := x]
  {
    hide Reaches, Cached, Busy;
    CachedBusy(s, bs, x, n);
    assert bs[k] in s.cache && s.cache[bs[k]] == x by { CachedAt(s, bs, x, n, k); }
    var e := Act(2, Get(s.g.start + 1 + k));
    var u := Next(s, e);
    ReachOne(s, e);
    t := Next(u, Act(2, WriteCopy));
    ReachNext(s, u, Act(2, WriteCopy));
    SameCached(s, t, bs, x, n);
  }

  lemma CachedAt(s: State, bs: seq<int>, x: Block, n: nat, i: nat)
    requires Cached(s, bs, x, n) && i < n
    ensures bs[i] in s.cache && s.cache[bs[i]] == x
  {
  }

  lemma SameCached(s: State, t: State, bs: seq<int>, x: Block, n: nat)
    requires Cached(s, bs, x, n) && t.cache == s.cache
    ensures Cached(t, bs, x, n)
  {
  }

  lemma {:induction false} CopyUpTo(s: State, bs: seq<int>, x: Block, n: nat, k: nat) returns (t: State)
    requires Copying(s, bs, x, n, 0) && k <= n < NBUF && s.g.start + k < |s.disk|
    ensures Reaches(s, t) && Copying(t, bs, x, n, k)
    ensures t.g == s.g && |t.disk| == |s.disk| && t.start == s.start && t.past == s.past
    ensures forall c :: 0 <= c < |s.disk| && !(s.g.start < c <= s.g.start + k) ==> t.disk[c] == s.disk[c]
    ensures k > 0 ==> t.disk[s.g.start + k] == x
  {
    hide Reaches, Copying, Budgeted;
    if k == 0 {
      assert Budgeted(s.procs) by { CopyingBudget(s, bs, x, n); }
      ReachSelf(s);
      t := s;
    } else {
      var u := CopyUpTo(s, bs, x, n, k - 1);
      t := CopyOne(u, bs, x, n, k - 1);
      ReachOn(s, u, t);
    }
  }

  lemma CopyingBudget(s: State, bs: seq<int>, x: Block, n: nat)
    requires Copying(s, bs, x, n, 0)
    ensures Budgeted(s.procs)
  {
  }

  // ---- Which logs are safe ----

  // The machine comes up with n processes.
  ghost function BootState(g: Geometry, d: Disk, n: nat): (s: State)
    requires HeaderOk(g, d)
    ensures Init(s)
  {
    State(g, d, map[], HeaderList(d[g.start]), 0, false, seq(n, _ => Idle), seq(n, _ => {}), Booting(0),
          Durable(g, d), [], [], [], 0)
  }

  // Enough distinct blocks of files for the processes to log.
  ghost predicate Enough(g: Geometry, d: Disk, bs: seq<int>, n: int) {
    |bs| >= n && NoDup(bs) && forall i :: 0 <= i < |bs| ==> HomeBlock(g, d, bs[i])
  }

  // How many blocks log_write lets into the list, one writer at a time.
  function Cap(g: Geometry): int {
    if g.size - 1 < LOGSIZE then g.size - 1 else LOGSIZE
  }

  // The home blocks hold the state the run began with, and no transaction is on disk.
  ghost predicate Untouched(s: State) {
    && Fits(s.g, s.disk) && s.disk[s.g.start][0] == 0 && |s.start| == |s.disk| && s.past == []
    && HomeImage(s.g, s.disk) == s.start
  }

  lemma BootedUntouched(s: State)
    requires Booted(s) && DiskOk(s) && s.past == []
    ensures Untouched(s)
  {
    hide NoDup, Overlay;
    NothingLogged(s.g, s.disk);
  }

  lemma StillUntouched(s: State, t: State)
    requires Untouched(s) && SameDisk(s, t)
    ensures Untouched(t)
  {
  }

  // From the boot to three open operations that have logged the first k blocks of bs.
  lemma Load(g: Geometry, d: Disk, n: nat, bs: seq<int>, x: Block, b: nat, k: nat) returns (t: State)
    requires HeaderOk(g, d) && n >= 3 && Enough(g, d, bs, k) && k <= Cap(g) && b <= MAXOPBLOCKS && k <= 20 + b
    ensures Reaches(BootState(g, d, n), t) && Loaded(t, bs, x, 10, b, k)
    ensures Untouched(t) && Supply(t, bs) && t.g == g && |t.disk| == |d| && t.start == Durable(g, d) && |t.procs| == n
  {
    hide Reaches, Loaded, DiskOk, Control, Ops, Buffered, NoDup, Durable, HeaderOk;
    var s := BootState(g, d, n);
    InitHolds(s);
    var s1 := BootOn(s);
    BootedUntouched(s1);
    var s2 := OpenThree(s1, bs, x, 10, b);
    StillUntouched(s1, s2);
    t := LoadUpTo(s2, bs, x, 10, b, k);
    StillUntouched(s2, t);
    ReachOn(s, s1, s2);
    ReachOn(s, s2, t);
  }

  // On every log of 2 to NBUF blocks the list can come to fill the whole area, header and all.
  lemma Overrun(g: Geometry, d: Disk, n: nat, bs: seq<int>, x: Block) returns (t: State)
    requires HeaderOk(g, d) && n >= 3 && 2 <= g.size <= NBUF && Enough(g, d, bs, g.size)
    ensures Reaches(BootState(g, d, n), t) && Listing(t, bs, x, g.size)
    ensures Untouched(t) && t.g == g && |t.disk| == |d| && t.start == Durable(g, d) && |t.procs| == n
  {
    hide Reaches, Loaded, NoDup, Durable, HeaderOk, Listing;
    var m := g.size - 1;
    var s := BootState(g, d, n);
    var u := Load(g, d, n, bs, x, 9, m - 1);
    t := RaceToOverrun(u, bs, x, m);
    StillUntouched(u, t);
    ReachOn(s, u, t);
  }

  ghost predicate DurableOk(s: State) {
    HeaderOk(s.g, s.disk) && Durable(s.g, s.disk) == Apply(s.start, s.past)
  }

  // On this disk, with n processes, what recovery would restore is always the committed updates and nothing
  // else; if tight, only runs whose operations keep to MAXOPBLOCKS are meant.
  ghost predicate AlwaysDurable(g: Geometry, d: Disk, n: nat, tight: bool) {
    forall tr: seq<State>, es: seq<Event>, i: int :: OfDisk(g, d, n, tight, tr, es, i) ==> DurableOk(tr[i])
  }

  ghost predicate OfDisk(g: Geometry, d: Disk, n: nat, tight: bool, tr: seq<State>, es: seq<Event>, i: int) {
    0 <= i < |tr| && Run(tr, es) && tr[0].g == g && tr[0].disk == d && |tr[0].procs| == n && (tight ==> InBudget(tr, i))
  }

  function Other(b: Block): Block { b[0 := b[0] + 1] }

  // On a log of 2 to LOGSIZE - 1 blocks the commit of an overfull list writes its last copy on the block after
  // the log, before anything is committed.
  lemma Damage(g: Geometry, d: Disk, n: nat, bs: seq<int>) returns (t: State)
    requires HeaderOk(g, d) && n >= 3 && 2 <= g.size < LOGSIZE && Enough(g, d, bs, g.size) && g.start + g.size < |d|
    ensures Reaches(BootState(g, d, n), t) && !DurableOk(t)
  {
    hide Reaches, Listing, Copying, NoDup, Durable, Apply, Enough;
    var b0 := g.start + g.size;
    var x := Other(Durable(g, d)[b0]);
    var s := BootState(g, d, n);
    var u := Overrun(g, d, n, bs, x);
    var v := EndThree(u, bs, x, g.size);
    StillUntouched(u, v);
    t := CopyUpTo(v, bs, x, g.size, g.size);
    ReachOn(s, u, v);
    ReachOn(s, v, t);
    Damaged(v, t, x);
  }

  lemma Damaged(v: State, t: State, x: Block)
    requires Untouched(v) && t.g == v.g && |t.disk| == |v.disk| && t.start == v.start && t.past == v.past
    requires v.g.start + v.g.size < |v.disk| && x != v.start[v.g.start + v.g.size]
    requires t.disk[v.g.start] == v.disk[v.g.start] && t.disk[v.g.start + v.g.size] == x
    ensures !DurableOk(t)
  {
    hide Durable;
    var b0 := v.g.start + v.g.size;
    assert HeaderOk(t.g, t.disk);
    NothingLogged(t.g, t.disk);
    assert HomeImage(t.g, t.disk)[b0] == x;
  }

  // The exact condition on the log area, for operations of any length and for those within their budget alike:
  // what is recoverable stays right on every run if and only if the log has LOGSIZE blocks, the header
  // included (or is only a header).
  lemma LogAreaDecides(g: Geometry, d: Disk, n: nat, bs: seq<int>, tight: bool)
    requires HeaderOk(g, d) && n >= 3 && Enough(g, d, bs, LOGSIZE) && g.start + g.size < |d|
    ensures AlwaysDurable(g, d, n, tight) <==> SafeSize(g)
  {
    hide AlwaysDurable, DurableOk, Reaches, HeaderOk, Run, Init, InBudget;
    if SafeSize(g) {
      SafeAlways(g, d, n, tight);
    } else {
      var t := Damage(g, d, n, bs);
      var tr, es := ReachRun(BootState(g, d, n), t);
      RunStarts(tr, es);
      NotAlways(g, d, n, tight, tr, es, |es|);
    }
  }

  lemma SafeAlways(g: Geometry, d: Disk, n: nat, tight: bool)
    requires SafeSize(g)
    ensures AlwaysDurable(g, d, n, tight)
  {
    hide Run, DurableOk, InBudget;
    forall tr: seq<State>, es: seq<Event>, i: int | OfDisk(g, d, n, tight, tr, es, i) ensures DurableOk(tr[i]) {
      SafeLog(tr, es, i);
    }
  }

  lemma SafeLog(tr: seq<State>, es: seq<Event>, i: nat)
    requires Run(tr, es) && i < |tr| && SafeSize(tr[0].g)
    ensures DurableOk(tr[i])
  {
    hide Run;
    RunDisk(tr, es, i);
  }

  lemma NotAlways(g: Geometry, d: Disk, n: nat, tight: bool, tr: seq<State>, es: seq<Event>, i: nat)
    requires i < |tr| && Run(tr, es) && tr[0].g == g && tr[0].disk == d && |tr[0].procs| == n && InBudget(tr, i)
    requires !DurableOk(tr[i])
    ensures !AlwaysDurable(g, d, n, tight)
  {
    hide Run, InBudget, DurableOk;
    assert OfDisk(g, d, n, tight, tr, es, i);
  }

  // The image mkfs makes has LOGSIZE blocks of log from block 2 on, header included, which is just enough.
  lemma MkfsImageIsSafe(d: Disk, n: nat)
    requires |d| == 1000 && d[2][0] == 0
    ensures HeaderOk(Geometry(2, LOGSIZE), d) && AlwaysDurable(Geometry(2, LOGSIZE), d, n, false)
  {
    SafeAlways(Geometry(2, LOGSIZE), d, n, false);
  }

  // The price on a log of that size or more: three operations within their budget can list NBUF blocks, and then
  // the commit panics for want of a buffer, with nothing of it on the disk.
  lemma FullCommitPanics(g: Geometry, d: Disk, n: nat, bs: seq<int>) returns (tr: seq<State>, es: seq<Event>)
    requires HeaderOk(g, d) && n >= 3 && LOGSIZE <= g.size && Enough(g, d, bs, NBUF)
    ensures Run(tr, es) && tr[0] == BootState(g, d, n) && |es| > 0 && InBudget(tr, |es|)
    ensures var s := tr[|es| - 1];
      && s.mode == Running && |s.procs| == n && s.procs[2] == Filling(0) && |s.list| == NBUF
      && es[|es| - 1] == Act(2, Get(g.start + 1)) && tr[|es|].mode == Panicked
  {
    hide Reaches, Run, Init, InBudget, HeaderOk, Untouched, Busy, Cached, Durable;
    var s := BootState(g, d, n);
    var u := Load30(g, d, n, bs);
    var v := EndThree(u, bs, ZeroBlock, NBUF);
    ReachOn(s, u, v);
    CachedBusy(v, bs, ZeroBlock, NBUF);
    assert g.start + 1 !in bs;
    tr, es := ReachThen(s, v, Act(2, Get(g.start + 1)));
  }

  // NBUF blocks listed: one by one if the area has room for them, by the race if it is one block short.
  lemma Load30(g: Geometry, d: Disk, n: nat, bs: seq<int>) returns (t: State)
    requires HeaderOk(g, d) && n >= 3 && LOGSIZE <= g.size && Enough(g, d, bs, NBUF)
    ensures Reaches(BootState(g, d, n), t) && Listing(t, bs, ZeroBlock, NBUF) && t.g == g && |t.disk| == |d| && g.start < |d|
    ensures |t.procs| == n
  {
    hide Reaches, Enough, Listing;
    if g.size == NBUF {
      t := Overrun(g, d, n, bs, ZeroBlock);
    } else {
      t := Load(g, d, n, bs, ZeroBlock, 10, NBUF);
    }
  }

  // A write that needs no slot can still panic: with the list full, so does a block that is already on it.
  lemma AbsorbedWritePanics(g: Geometry, d: Disk, n: nat, bs: seq<int>) returns (tr: seq<State>, es: seq<Event>)
    requires HeaderOk(g, d) && n >= 3 && 2 <= g.size && Enough(g, d, bs, Cap(g))
    ensures Run(tr, es) && tr[0] == BootState(g, d, n) && |es| > 0 && InBudget(tr, |es|)
    ensures var last := es[|es| - 1];
      && last.Act? && last.a.Check? && last.a.b in tr[|es| - 1].list
      && tr[|es|].mode == Panicked
  {
    hide Reaches, Run, Init, HeaderOk, Untouched, Cached, Busy;
    var s := BootState(g, d, n);
    var t := Load(g, d, n, bs, ZeroBlock, 10, Cap(g));
    var e := Act(0, Get(bs[0]));
    assert bs[0] in Busy(t) by { Pinned(t, bs, ZeroBlock, Cap(g)); }
    var u := Next(t, e);
    ReachNext(s, t, e);
    tr, es := ReachThen(s, u, Act(0, Check(bs[0], ZeroBlock)));
  }

  lemma Pinned(s: State, bs: seq<int>, x: Block, n: nat)
    requires Cached(s, bs, x, n) && n > 0
    ensures bs[0] in Busy(s)
  {
    assert bs[0] in s.cache.Keys;
  }
}
