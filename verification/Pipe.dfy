// Pipes (pipe.c): what each stretch of code under p->lock does, over any interleaving, with 32-bit counters.
module Pipe {

  const PIPESIZE: int := 512

  type Byte = i: int | 0 <= i < 256

  // stored: every byte ever put in; taken: how many have been read; got: what was read;
  // writers and readers: the processes asleep on &p->nwrite and &p->nread.
  datatype State = State(stored: seq<Byte>, taken: int, got: seq<Byte>, readopen: bool, writeopen: bool,
                         writers: set<int>, readers: set<int>)

  datatype Outcome = Done | Failed | Slept

  ghost predicate Ok(s: State) {
    0 <= s.taken <= |s.stored| <= s.taken + PIPESIZE && s.got == s.stored[..s.taken]
  }

  function Unread(s: State): int { |s.stored| - s.taken }

  function Room(s: State): int { PIPESIZE - Unread(s) }

  // How much of rest fits before the pipe is full.
  function Fits(s: State, rest: seq<Byte>): int {
    if |rest| <= Room(s) then |rest| else if Room(s) < 0 then 0 else Room(s)
  }

  // pipewrite by p from acquiring the lock, or waking up, to giving the lock up: rest is what is still to write.
  function Write(s: State, p: int, rest: seq<Byte>, killed: bool): (State, Outcome) {
    var put := s.stored + rest[..Fits(s, rest)];
    if |rest| <= Room(s) then (State(put, s.taken, s.got, s.readopen, s.writeopen, s.writers, {}), Done)
    else if !s.readopen || killed then (State(put, s.taken, s.got, s.readopen, s.writeopen, s.writers, s.readers), Failed)
    else (State(put, s.taken, s.got, s.readopen, s.writeopen, s.writers + {p}, {}), Slept)
  }

  function Amount(s: State, n: int): int {
    if n <= 0 then 0 else if n < Unread(s) then n else Unread(s)
  }

  // The next k unread bytes.
  function Front(s: State, k: int): seq<Byte> {
    if 0 <= s.taken <= s.taken + k <= |s.stored| then s.stored[s.taken..s.taken + k] else []
  }

  // piperead by p, likewise.
  function Read(s: State, p: int, n: int, killed: bool): (State, Outcome) {
    if Unread(s) == 0 && s.writeopen then
      if killed then (s, Failed)
      else (State(s.stored, s.taken, s.got, s.readopen, s.writeopen, s.writers, s.readers + {p}), Slept)
    else
      var k := Amount(s, n);
      (State(s.stored, s.taken + k, s.got + Front(s, k), s.readopen, s.writeopen, {}, s.readers), Done)
  }

  function Close(s: State, writable: bool): State {
    if writable then State(s.stored, s.taken, s.got, s.readopen, false, s.writers, {})
    else State(s.stored, s.taken, s.got, false, s.writeopen, {}, s.readers)
  }

  // kill makes a sleeper runnable.
  function Kill(s: State, p: int): State {
    State(s.stored, s.taken, s.got, s.readopen, s.writeopen, s.writers - {p}, s.readers - {p})
  }

  datatype Event = EWrite(p: int, rest: seq<Byte>, killed: bool) | ERead(p: int, n: int, killed: bool)
                 | EClose(writable: bool) | EKill(p: int)

  predicate Awake(s: State, e: Event) {
    match e
    case EWrite(p, _, _) => p !in s.writers && p !in s.readers
    case ERead(p, _, _) => p !in s.writers && p !in s.readers
    case EClose(_) => true
    case EKill(_) => true
  }

  function Next(s: State, e: Event): State {
    match e
    case EWrite(p, rest, killed) => Write(s, p, rest, killed).0
    case ERead(p, n, killed) => Read(s, p, n, killed).0
    case EClose(w) => Close(s, w)
    case EKill(p) => Kill(s, p)
  }

  // A process sleeps on nwrite only while the pipe is full with its read end open.
  ghost predicate WritersWait(s: State) {
    s.writers != {} ==> Unread(s) == PIPESIZE && s.readopen
  }

  // The same promise for readers: empty, with the write end open.
  ghost predicate ReadersWait(s: State) {
    s.readers != {} ==> Unread(s) == 0 && s.writeopen
  }

  // Every step keeps order: what was stored stays, and what was read is the front of it.
  lemma OkNext(s: State, e: Event)
    requires Ok(s) && WritersWait(s)
    ensures Ok(Next(s, e)) && WritersWait(Next(s, e))
    ensures s.stored <= Next(s, e).stored && s.got <= Next(s, e).got
  {
    match e
    case EWrite(p, rest, killed) => assert Next(s, e).stored[..s.taken] == s.stored[..s.taken];
    case ERead(p, n, killed) =>
      if !(Unread(s) == 0 && s.writeopen) {
        var t := s.taken + Amount(s, n);
        assert s.stored[..s.taken] + s.stored[s.taken..t] == s.stored[..t];
      }
    case EClose(w) =>
    case EKill(p) =>
  }

  // A write that overfills the pipe and ends in the error exit, with readers asleep.
  predicate LeavesReaders(s: State, e: Event) {
    e.EWrite? && s.readers != {} && |e.rest| > PIPESIZE && (e.killed || !s.readopen)
  }

  // The readers' promise survives a step exactly when the step is not such a write.
  lemma ReadersExactly(s: State, e: Event)
    requires Ok(s) && ReadersWait(s) && Awake(s, e)
    ensures ReadersWait(Next(s, e)) <==> !LeavesReaders(s, e)
  {
    match e
    case EWrite(p, rest, killed) =>
    case ERead(p, n, killed) =>
    case EClose(w) =>
    case EKill(p) => assert s.readers == {} ==> s.readers - {p} == {};
  }

  function Bytes(n: nat): (r: seq<Byte>)
    ensures |r| == n
  {
    if n == 0 then [] else Bytes(n - 1) + [0]
  }

  function Start(): State { State([], 0, [], true, true, {}, {}) }

  // It can happen: process 1 sleeps on an empty pipe, process 2 is killed while writing 513 bytes.
  lemma ReadersLeftAsleep()
    ensures var s := Next(Start(), ERead(1, 1, false)); var s' := Next(s, EWrite(2, Bytes(513), true));
            Ok(s) && s'.readers == {1} && Unread(s') == PIPESIZE && !ReadersWait(s')
  {
    var s := Next(Start(), ERead(1, 1, false));
    assert s == State([], 0, [], true, true, {}, {1});
    assert s.stored + Bytes(513)[..512] == Bytes(513)[..512];
  }

  // kill wakes its target, and nobody else, and touches no byte.
  lemma KillWakes(s: State, p: int, q: int)
    ensures var s' := Next(s, EKill(p));
      && p !in s'.writers && p !in s'.readers && s'.stored == s.stored && s'.taken == s.taken && s'.got == s.got
      && (q != p ==> (q in s'.writers <==> q in s.writers) && (q in s'.readers <==> q in s.readers))
      && s'.readopen == s.readopen && s'.writeopen == s.writeopen
  {
  }

  // ---- Whole runs ----

  // A call that has given up the lock in sleep and not returned: what it has still to write, or wants to read.
  datatype Call = Writing(rest: seq<Byte>) | Reading(n: int)

  datatype World = World(pipe: State, calls: map<int, Call>)

  // A process in the middle of a call can only go on with that call.
  predicate Enabled(w: World, e: Event) {
    && Awake(w.pipe, e)
    && match e
       case EWrite(p, rest, _) => p in w.calls ==> w.calls[p] == Writing(rest)
       case ERead(p, n, _) => p in w.calls ==> w.calls[p] == Reading(n)
       case EClose(_) => true
       case EKill(_) => true
  }

  function Calls(w: World, e: Event): map<int, Call> {
    match e
    case EWrite(p, rest, killed) =>
      if Write(w.pipe, p, rest, killed).1 == Slept then w.calls[p := Writing(rest[Fits(w.pipe, rest)..])] else w.calls - {p}
    case ERead(p, n, killed) =>
      if Read(w.pipe, p, n, killed).1 == Slept then w.calls[p := Reading(n)] else w.calls - {p}
    case EClose(_) => w.calls
    case EKill(_) => w.calls
  }

  ghost predicate Run(run: seq<World>, es: seq<Event>) {
    && |run| == |es| + 1 && run[0] == World(Start(), map[])
    && forall i :: 0 <= i < |es| ==>
         Enabled(run[i], es[i]) && run[i + 1] == World(Next(run[i].pipe, es[i]), Calls(run[i], es[i]))
  }

  lemma {:induction false} RunOk(run: seq<World>, es: seq<Event>, k: nat)
    requires Run(run, es) && k < |run|
    ensures Ok(run[k].pipe) && WritersWait(run[k].pipe)
    ensures (forall i :: 0 <= i < k ==> !LeavesReaders(run[i].pipe, es[i])) ==> ReadersWait(run[k].pipe)
  {
    hide Next, Calls, Ok, WritersWait, ReadersWait, LeavesReaders, Awake;
    if k == 0 {
      StartOk();
    } else {
      RunOk(run, es, k - 1);
      OkNext(run[k - 1].pipe, es[k - 1]);
      if forall i :: 0 <= i < k ==> !LeavesReaders(run[i].pipe, es[i]) {
        ReadersExactly(run[k - 1].pipe, es[k - 1]);
      }
    }
  }

  lemma StartOk()
    ensures Ok(Start()) && WritersWait(Start()) && ReadersWait(Start())
  {
  }

  // What a stretch of pipewrite takes from its caller's buffer: as much as there is room for.
  function Given(s: State, e: Event): seq<Byte> {
    if !e.EWrite? then [] else if |e.rest| <= Room(s) then e.rest else if 0 <= Room(s) then e.rest[..Room(s)] else []
  }

  // What a stretch of piperead returns to its caller: n bytes, or all there are.
  function Returned(s: State, e: Event): seq<Byte>
    requires Ok(s)
  {
    if !e.ERead? || e.n <= 0 then [] else if e.n <= Unread(s) then s.stored[s.taken..s.taken + e.n] else s.stored[s.taken..]
  }

  // The bytes that pipewrite was given, and that piperead returned, in the first k steps.
  ghost function Written(run: seq<World>, es: seq<Event>, k: nat): seq<Byte>
    requires k <= |es| && |run| == |es| + 1
  {
    if k == 0 then [] else Written(run, es, k - 1) + Given(run[k - 1].pipe, es[k - 1])
  }

  ghost function Delivered(run: seq<World>, es: seq<Event>, k: nat): seq<Byte>
    requires k <= |es| && Run(run, es)
  {
    if k == 0 then []
    else
      RunOk(run, es, k - 1);
      Delivered(run, es, k - 1) + Returned(run[k - 1].pipe, es[k - 1])
  }

  lemma StepMovesBytes(s: State, e: Event)
    requires Ok(s)
    ensures Next(s, e).stored == s.stored + Given(s, e) && Next(s, e).got == s.got + Returned(s, e)
  {
    match e
    case EWrite(p, rest, killed) => assert rest[..|rest|] == rest;
    case ERead(p, n, killed) => assert s.stored[s.taken..] == s.stored[s.taken..|s.stored|];
    case EClose(w) =>
    case EKill(p) =>
  }

  lemma {:induction false} HistoriesAreEvents(run: seq<World>, es: seq<Event>, k: nat)
    requires Run(run, es) && k < |run|
    ensures run[k].pipe.stored == Written(run, es, k) && run[k].pipe.got == Delivered(run, es, k)
  {
    hide Next, Calls, Awake, Given, Returned, Ok, LeavesReaders, WritersWait, ReadersWait;
    if k > 0 {
      HistoriesAreEvents(run, es, k - 1);
      RunOk(run, es, k - 1);
      StepMovesBytes(run[k - 1].pipe, es[k - 1]);
    }
  }

  // First in, first out over the whole run: what the readers were returned by step j is a prefix of what the
  // writers handed over by step k, and at most 512 bytes are in between.
  lemma {:induction false} FirstInFirstOut(run: seq<World>, es: seq<Event>, j: nat, k: nat)
    requires Run(run, es) && j <= k < |run|
    ensures Written(run, es, j) <= Written(run, es, k) && Delivered(run, es, j) <= Delivered(run, es, k)
    ensures Delivered(run, es, k) <= Written(run, es, k)
    ensures |Written(run, es, k)| - |Delivered(run, es, k)| <= PIPESIZE
    decreases k
  {
    hide Next, Calls, Awake, Given, Returned, LeavesReaders, WritersWait, ReadersWait;
    RunOk(run, es, k);
    HistoriesAreEvents(run, es, k);
    if j < k {
      FirstInFirstOut(run, es, j, k - 1);
    }
  }

  function Took(s: State, e: Event, p: int): seq<Byte> {
    if e.EWrite? && e.p == p then Given(s, e) else []
  }

  // What process p's stretches took in steps i to k - 1.
  ghost function GivenBy(run: seq<World>, es: seq<Event>, p: int, i: nat, k: nat): seq<Byte>
    requires i <= k <= |es| && |run| == |es| + 1
    decreases k
  {
    if i == k then []
    else GivenBy(run, es, p, i, k - 1) + Took(run[k - 1].pipe, es[k - 1], p)
  }

  // A pipewrite call by p of buffer addr starts at step i and has not returned before step k.
  ghost predicate InCall(run: seq<World>, es: seq<Event>, p: int, addr: seq<Byte>, i: nat, k: nat) {
    && Run(run, es) && i < k <= |es|
    && p !in run[i].calls && es[i].EWrite? && es[i].p == p && es[i].rest == addr
    && forall m :: i < m < k ==> p in run[m].calls
  }

  // p's pipewrite returns at this step: n if everything is in, and -1 otherwise.
  predicate Returns(s: State, e: Event, p: int, everything: bool) {
    e.EWrite? && e.p == p && Write(s, p, e.rest, e.killed).1 == if everything then Done else Failed
  }

  // The stretch at a step of p, or a step of somebody else, moves p's call on.
  lemma CallStep(w: World, e: Event, p: int, rest: seq<Byte>)
    requires Ok(w.pipe) && Enabled(w, e)
    requires if p in w.calls then w.calls[p] == Writing(rest) else e.EWrite? && e.p == p && e.rest == rest
    ensures var took := Took(w.pipe, e, p);
      && took <= rest
      && (p in Calls(w, e) ==> Calls(w, e)[p].Writing? && took + Calls(w, e)[p].rest == rest)
      && (p !in Calls(w, e) ==> Returns(w.pipe, e, p, took == rest))
  {
    if e.EWrite? && e.p == p {
      assert rest[..Fits(w.pipe, rest)] + rest[Fits(w.pipe, rest)..] == rest;
    }
  }

  lemma Extends(a: seq<Byte>, b: seq<Byte>, c: seq<Byte>)
    requires b <= c
    ensures a + b <= a + c && (a + b == a + c <==> b == c)
  {
    assert a + c == a + b + c[|b|..];
    if a + b == a + c { assert (a + b)[|a|..] == b && (a + c)[|a|..] == c; }
  }

  // What p's call of pipewrite has put in so far, and what it has still to write, make up its buffer.
  ghost predicate Underway(calls: map<int, Call>, p: int, given: seq<Byte>, addr: seq<Byte>) {
    p in calls ==> calls[p].Writing? && given + calls[p].rest == addr
  }

  lemma CallGoesOn(w: World, e: Event, p: int, given: seq<Byte>, rest: seq<Byte>, addr: seq<Byte>)
    requires Ok(w.pipe) && Enabled(w, e) && given + rest == addr
    requires if p in w.calls then w.calls[p] == Writing(rest) else e.EWrite? && e.p == p && e.rest == rest
    ensures var now := given + Took(w.pipe, e, p);
      && now <= addr && Underway(Calls(w, e), p, now, addr)
      && (p !in Calls(w, e) ==> Returns(w.pipe, e, p, now == addr))
  {
    hide Enabled, Ok, Calls, Took, Returns;
    var took := Took(w.pipe, e, p);
    CallStep(w, e, p, rest);
    Extends(given, took, rest);
    if p in Calls(w, e) { assert given + took + Calls(w, e)[p].rest == given + (took + Calls(w, e)[p].rest); }
  }

  // However often it sleeps and whoever runs in between, a pipewrite call puts in its buffer in order: all of
  // it when it returns n, and a proper prefix when it returns -1.
  lemma {:induction false} WholeWrite(run: seq<World>, es: seq<Event>, p: int, addr: seq<Byte>, i: nat, k: nat)
    requires InCall(run, es, p, addr, i, k)
    ensures GivenBy(run, es, p, i, k) <= addr && Underway(run[k].calls, p, GivenBy(run, es, p, i, k), addr)
    ensures p !in run[k].calls ==> Returns(run[k - 1].pipe, es[k - 1], p, GivenBy(run, es, p, i, k) == addr)
    decreases k
  {
    hide Next, Calls, Enabled, Ok, Took, Returns, LeavesReaders, WritersWait, ReadersWait;
    RunOk(run, es, k - 1);
    if k == i + 1 {
      assert GivenBy(run, es, p, i, i) == [] && [] + addr == addr;
      CallGoesOn(run[i], es[i], p, [], addr, addr);
    } else {
      WholeWrite(run, es, p, addr, i, k - 1);
      var given, rest := GivenBy(run, es, p, i, k - 1), run[k - 1].calls[p].rest;
      CallGoesOn(run[k - 1], es[k - 1], p, given, rest, addr);
    }
  }
}
