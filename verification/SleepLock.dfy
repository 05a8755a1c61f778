// Sleep locks (sleeplock.c) over sleep, wakeup and kill (proc.c), for any number of processes.
// One step is one access to shared state; the spinlocks lk.lk and ptable.lock are part of the state.
module SleepLock {

  const NONE: int := -1

  // Where a process is.
  datatype PC =
    | Idle
    | AcquireLk         // take lk.lk, in acquiresleep or at the end of sleep
    | TestLocked        // the wait loop looks at locked
    | SleepAcquirePt    // sleep takes ptable.lock
    | SleepReleaseLk    // and gives up lk.lk
    | SetSleeping       // the state becomes SLEEPING on this lock
    | Sched             // the scheduler gives up ptable.lock
    | Asleep            // until scheduled again
    | TidyUp            // running again, give up ptable.lock
    | SetLocked         // the lock is taken
    | SetPid            // and its holder noted
    | AcquireDone       // give up lk.lk
    | Holding           // between acquiresleep and releasesleep
    | ReleaseAcquireLk  // releasesleep takes lk.lk
    | ClearLocked       // the lock is free
    | ClearPid          // and has no holder
    | WakeAcquirePt     // wakeup takes ptable.lock
    | Wake(next: nat)   // wakeup1 at table entry next
    | WakeReleasePt     // give up ptable.lock
    | ReleaseDone       // give up lk.lk
    | KillAcquirePt(target: nat)
    | KillWake(target: nat)
    | KillReleasePt

  // holder is auxiliary: the process that set locked and has not cleared it.
  datatype State = State(locked: bool, pid: int, lk: int, pt: int, pc: seq<PC>, asleep: seq<bool>, holder: int)

  datatype Move = Acquire | Release | Kill(target: nat) | Go

  ghost predicate Shape(s: State) {
    |s.pc| == |s.asleep| && NONE <= s.lk < |s.pc| && NONE <= s.pt < |s.pc| && NONE <= s.holder < |s.pc|
  }

  ghost predicate Init(s: State) {
    && |s.pc| == |s.asleep| && !s.locked && s.pid == NONE && s.lk == NONE && s.pt == NONE && s.holder == NONE
    && forall p :: 0 <= p < |s.pc| ==> s.pc[p] == Idle && !s.asleep[p]
  }

  // Whether process p can make move m now.
  predicate Enabled(s: State, p: nat, m: Move)
    requires p < |s.pc| && p < |s.asleep|
  {
    match m
    case Acquire => s.pc[p] == Idle
    case Release => s.pc[p] == Holding
    case Kill(_) => s.pc[p] == Idle
    case Go =>
      match s.pc[p]
      case Idle => false
      case Holding => false
      case AcquireLk => s.lk == NONE
      case ReleaseAcquireLk => s.lk == NONE
      case SleepAcquirePt => s.pt == NONE
      case WakeAcquirePt => s.pt == NONE
      case KillAcquirePt(_) => s.pt == NONE
      case Asleep => !s.asleep[p] && s.pt == NONE
      case _ => true
  }

  function At(s: State, p: nat, c: PC): State
    requires p < |s.pc|
  {
    State(s.locked, s.pid, s.lk, s.pt, s.pc[p := c], s.asleep, s.holder)
  }

  function Lk(s: State, lk: int): State { State(s.locked, s.pid, lk, s.pt, s.pc, s.asleep, s.holder) }
  function Pt(s: State, pt: int): State { State(s.locked, s.pid, s.lk, pt, s.pc, s.asleep, s.holder) }
  function Pid(s: State, pid: int): State { State(s.locked, pid, s.lk, s.pt, s.pc, s.asleep, s.holder) }
  function Locked(s: State, b: bool, h: int): State { State(b, s.pid, s.lk, s.pt, s.pc, s.asleep, h) }
  function Sleeping(s: State, q: nat, b: bool): State
    requires q < |s.asleep|
  {
    State(s.locked, s.pid, s.lk, s.pt, s.pc, s.asleep[q := b], s.holder)
  }

  // A pid that no process has wakes nobody.
  function Awake(asleep: seq<bool>, t: nat): (r: seq<bool>)
    ensures |r| == |asleep| && forall q :: 0 <= q < |r| ==> r[q] == (asleep[q] && q != t)
  {
    if t < |asleep| then asleep[t := false] else asleep
  }

  function Rouse(s: State, t: nat): State {
    State(s.locked, s.pid, s.lk, s.pt, s.pc, Awake(s.asleep, t), s.holder)
  }

  function Do(s: State, p: nat, m: Move): State
    requires p < |s.pc| == |s.asleep| && Enabled(s, p, m)
  {
    match m
    case Acquire => At(s, p, AcquireLk)
    case Release => At(s, p, ReleaseAcquireLk)
    case Kill(t) => At(s, p, KillAcquirePt(t))
    case Go =>
      match s.pc[p]
      case AcquireLk => At(Lk(s, p), p, TestLocked)
      case TestLocked => At(s, p, if s.locked then SleepAcquirePt else SetLocked)
      case SleepAcquirePt => At(Pt(s, p), p, SleepReleaseLk)
      case SleepReleaseLk => At(Lk(s, NONE), p, SetSleeping)
      case SetSleeping => At(Sleeping(s, p, true), p, Sched)
      case Sched => At(Pt(s, NONE), p, Asleep)
      case Asleep => At(Pt(s, p), p, TidyUp)
      case TidyUp => At(Pt(s, NONE), p, AcquireLk)
      case SetLocked => At(Locked(s, true, p), p, SetPid)
      case SetPid => At(Pid(s, p), p, AcquireDone)
      case AcquireDone => At(Lk(s, NONE), p, Holding)
      case ReleaseAcquireLk => At(Lk(s, p), p, ClearLocked)
      case ClearLocked => At(Locked(s, false, NONE), p, ClearPid)
      case ClearPid => At(Pid(s, NONE), p, WakeAcquirePt)
      case WakeAcquirePt => At(Pt(s, p), p, Wake(0))
      case Wake(i) =>
        if i < |s.pc| then At(Sleeping(s, i, false), p, Wake(i + 1)) else At(s, p, WakeReleasePt)
      case WakeReleasePt => At(Pt(s, NONE), p, ReleaseDone)
      case ReleaseDone => At(Lk(s, NONE), p, Idle)
      case KillAcquirePt(t) => At(Pt(s, p), p, KillWake(t))
      case KillWake(t) => At(Rouse(s, t), p, KillReleasePt)
      case KillReleasePt => At(Pt(s, NONE), p, Idle)
      case Idle => s
      case Holding => s
  }

  // ---- The invariant, process by process ----

  predicate HoldsLk(c: PC) {
    c == TestLocked || c == SleepAcquirePt || c == SleepReleaseLk || c == SetLocked || c == SetPid || c == AcquireDone
    || c == ClearLocked || Waker(c) || c == WakeReleasePt || c == ReleaseDone
  }

  predicate HoldsPt(c: PC) {
    c == SleepReleaseLk || c == SetSleeping || c == Sched || c == TidyUp || c.Wake? || c == WakeReleasePt
    || c.KillWake? || c == KillReleasePt
  }

  // Between setting locked and clearing it.
  predicate Owns(c: PC) {
    c == SetPid || c == AcquireDone || c == Holding || c == ReleaseAcquireLk || c == ClearLocked
  }

  // Between clearing locked and finishing wakeup.
  predicate Waker(c: PC) {
    c == ClearPid || c == WakeAcquirePt || c.Wake?
  }

  // Some process has cleared locked and its wakeup has not yet passed q.
  predicate Waking(s: State, q: int) {
    0 <= s.lk < |s.pc| && Waker(s.pc[s.lk]) && (s.pc[s.lk].Wake? ==> s.pc[s.lk].next <= q)
  }

  // The spinlocks, the sleep lock and lk->pid belong to the processes whose pc says so.
  ghost predicate Locks(s: State, q: int)
    requires Shape(s) && 0 <= q < |s.pc|
  {
    var c := s.pc[q];
    && (HoldsLk(c) <==> s.lk == q) && (HoldsPt(c) <==> s.pt == q) && (Owns(c) <==> s.holder == q)
    && (c == SetLocked || Waker(c) || c == WakeReleasePt || c == ReleaseDone ==> !s.locked)
    && (c == SleepAcquirePt || c == SleepReleaseLk ==> s.locked)
    && ((Owns(c) && c != SetPid) || c == ClearPid ==> s.pid == q)
  }

  // A sleeper will be woken.
  ghost predicate Woken(s: State, q: int)
    requires Shape(s) && 0 <= q < |s.pc|
  {
    && (s.asleep[q] ==> s.pc[q] == Sched || s.pc[q] == Asleep)
    && (s.asleep[q] || s.pc[q] == SetSleeping ==> s.locked || Waking(s, q))
  }

  ghost predicate Inv(s: State) {
    && Shape(s) && (s.locked <==> s.holder != NONE)
    && forall q :: 0 <= q < |s.pc| ==> Locks(s, q) && Woken(s, q)
  }

  lemma InitInv(s: State)
    requires Init(s)
    ensures Inv(s)
  {
  }

  predicate Acquiring(c: PC) {
    c == AcquireLk || c == TestLocked || c == SetLocked || c == SetPid || c == AcquireDone
  }

  predicate FallingAsleep(c: PC) {
    c == SleepAcquirePt || c == SleepReleaseLk || c == SetSleeping
  }

  predicate InSleep(c: PC) {
    c == Sched || c == Asleep || c == TidyUp
  }

  predicate Killing(c: PC) {
    c.KillAcquirePt? || c.KillWake? || c == KillReleasePt
  }

  predicate Releasing(c: PC) {
    c == ReleaseAcquireLk || c == ClearLocked || Waker(c) || c == WakeReleasePt || c == ReleaseDone
  }

  // The facts one step needs: about p, about q, and about whoever holds a lock p touches.
  ghost predicate Local(s: State, p: int, q: int) {
    && Shape(s) && (s.locked <==> s.holder != NONE) && 0 <= p < |s.pc| && 0 <= q < |s.pc|
    && Locks(s, p) && Locks(s, q)
    && (s.lk != NONE ==> Locks(s, s.lk)) && (s.holder != NONE ==> Locks(s, s.holder))
  }

  // A step that leaves the sleep lock alone cannot disturb what another process relies on.
  lemma OtherLocks(s: State, s': State, q: nat)
    requires Shape(s) && Shape(s') && q < |s.pc| == |s'.pc| && Locks(s, q) && s'.pc[q] == s.pc[q]
    requires s'.locked == s.locked && s'.holder == s.holder && s'.pid == s.pid
    requires (s.lk == q <==> s'.lk == q) && (s.pt == q <==> s'.pt == q)
    ensures Locks(s', q)
  {
  }

  lemma StartSelf(s: State, p: nat, m: Move)
    requires Shape(s) && (s.locked <==> s.holder != NONE) && p < |s.pc| && Locks(s, p)
    requires m != Go && Enabled(s, p, m)
    ensures var s' := Do(s, p, m); Shape(s') && (s'.locked <==> s'.holder != NONE) && Locks(s', p)
  {
  }

  lemma StartOther(s: State, p: nat, m: Move, q: nat)
    requires Local(s, p, q) && p != q && m != Go && Enabled(s, p, m)
    ensures Shape(Do(s, p, m)) && Locks(Do(s, p, m), q)
  {
    hide Locks;
    StartShared(s, p, m, q);
    OtherLocks(s, Do(s, p, m), q);
  }

  lemma StartShared(s: State, p: nat, m: Move, q: nat)
    requires Shape(s) && p < |s.pc| && Locks(s, p) && q < |s.pc| && p != q && m != Go && Enabled(s, p, m)
    ensures var s' := Do(s, p, m);
            && Shape(s') && |s'.pc| == |s.pc| && s'.pc[q] == s.pc[q]
            && s'.locked == s.locked && s'.holder == s.holder && s'.pid == s.pid
            && (s.lk == q <==> s'.lk == q) && (s.pt == q <==> s'.pt == q)
  {
  }

  lemma StartWoken(s: State, p: nat, m: Move, q: nat)
    requires Local(s, p, q) && m != Go && Enabled(s, p, m) && Woken(s, q)
    ensures Shape(Do(s, p, m)) && Woken(Do(s, p, m), q)
  {
  }

  lemma AcquireSelf(s: State, p: nat)
    requires Shape(s) && (s.locked <==> s.holder != NONE) && p < |s.pc| && Locks(s, p)
    requires Acquiring(s.pc[p]) && Enabled(s, p, Go)
    ensures var s' := Do(s, p, Go); Shape(s') && (s'.locked <==> s'.holder != NONE) && Locks(s', p)
  {
  }

  lemma AcquireOther(s: State, p: nat, q: nat)
    requires Local(s, p, q) && p != q && Acquiring(s.pc[p]) && Enabled(s, p, Go)
    ensures Shape(Do(s, p, Go)) && Locks(Do(s, p, Go), q)
  {
  }

  lemma AcquireWoken(s: State, p: nat, q: nat)
    requires Local(s, p, q) && Acquiring(s.pc[p]) && Enabled(s, p, Go) && Woken(s, q)
    ensures Shape(Do(s, p, Go)) && Woken(Do(s, p, Go), q)
  {
  }

  lemma FallAsleepSelf(s: State, p: nat)
    requires Shape(s) && (s.locked <==> s.holder != NONE) && p < |s.pc| && Locks(s, p)
    requires FallingAsleep(s.pc[p]) && Enabled(s, p, Go)
    ensures var s' := Do(s, p, Go); Shape(s') && (s'.locked <==> s'.holder != NONE) && Locks(s', p)
  {
  }

  lemma FallAsleepOther(s: State, p: nat, q: nat)
    requires Local(s, p, q) && p != q && FallingAsleep(s.pc[p]) && Enabled(s, p, Go)
    ensures Shape(Do(s, p, Go)) && Locks(Do(s, p, Go), q)
  {
    hide Locks;
    FallAsleepShared(s, p, q);
    OtherLocks(s, Do(s, p, Go), q);
  }

  lemma FallAsleepShared(s: State, p: nat, q: nat)
    requires Shape(s) && p < |s.pc| && Locks(s, p) && q < |s.pc| && p != q && FallingAsleep(s.pc[p]) && Enabled(s, p, Go)
    ensures var s' := Do(s, p, Go);
            && Shape(s') && |s'.pc| == |s.pc| && s'.pc[q] == s.pc[q]
            && s'.locked == s.locked && s'.holder == s.holder && s'.pid == s.pid
            && (s.lk == q <==> s'.lk == q) && (s.pt == q <==> s'.pt == q)
  {
  }

  lemma FallAsleepWoken(s: State, p: nat, q: nat)
    requires Local(s, p, q) && FallingAsleep(s.pc[p]) && Enabled(s, p, Go) && Woken(s, q)
    ensures Shape(Do(s, p, Go)) && Woken(Do(s, p, Go), q)
  {
  }

  lemma SleepSelf(s: State, p: nat)
    requires Shape(s) && (s.locked <==> s.holder != NONE) && p < |s.pc| && Locks(s, p)
    requires InSleep(s.pc[p]) && Enabled(s, p, Go)
    ensures var s' := Do(s, p, Go); Shape(s') && (s'.locked <==> s'.holder != NONE) && Locks(s', p)
  {
  }

  lemma SleepOther(s: State, p: nat, q: nat)
    requires Local(s, p, q) && p != q && InSleep(s.pc[p]) && Enabled(s, p, Go)
    ensures Shape(Do(s, p, Go)) && Locks(Do(s, p, Go), q)
  {
    hide Locks;
    SleepShared(s, p, q);
    OtherLocks(s, Do(s, p, Go), q);
  }

  lemma SleepShared(s: State, p: nat, q: nat)
    requires Shape(s) && p < |s.pc| && Locks(s, p) && q < |s.pc| && p != q && InSleep(s.pc[p]) && Enabled(s, p, Go)
    ensures var s' := Do(s, p, Go);
            && Shape(s') && |s'.pc| == |s.pc| && s'.pc[q] == s.pc[q]
            && s'.locked == s.locked && s'.holder == s.holder && s'.pid == s.pid
            && (s.lk == q <==> s'.lk == q) && (s.pt == q <==> s'.pt == q)
  {
  }

  lemma SleepWoken(s: State, p: nat, q: nat)
    requires Local(s, p, q) && InSleep(s.pc[p]) && Enabled(s, p, Go) && Woken(s, q)
    ensures Shape(Do(s, p, Go)) && Woken(Do(s, p, Go), q)
  {
  }

  lemma ReleaseSelf(s: State, p: nat)
    requires Shape(s) && (s.locked <==> s.holder != NONE) && p < |s.pc| && Locks(s, p)
    requires Releasing(s.pc[p]) && Enabled(s, p, Go)
    ensures var s' := Do(s, p, Go); Shape(s') && (s'.locked <==> s'.holder != NONE) && Locks(s', p)
  {
  }

  lemma ReleaseOther(s: State, p: nat, q: nat)
    requires Local(s, p, q) && p != q && Releasing(s.pc[p]) && Enabled(s, p, Go)
    ensures Shape(Do(s, p, Go)) && Locks(Do(s, p, Go), q)
  {
  }

  lemma ReleaseWoken(s: State, p: nat, q: nat)
    requires Local(s, p, q) && Releasing(s.pc[p]) && Enabled(s, p, Go) && Woken(s, q)
    ensures Shape(Do(s, p, Go)) && Woken(Do(s, p, Go), q)
  {
  }

  lemma KillSelf(s: State, p: nat)
    requires Shape(s) && (s.locked <==> s.holder != NONE) && p < |s.pc| && Locks(s, p)
    requires Killing(s.pc[p]) && Enabled(s, p, Go)
    ensures var s' := Do(s, p, Go); Shape(s') && (s'.locked <==> s'.holder != NONE) && Locks(s', p)
  {
    hide Locks, Do;
    match s.pc[p]
    case KillAcquirePt(t) => KillSelfAcquire(s, p, t);
    case KillWake(t) => KillSelfWake(s, p, t);
    case _ => KillSelfRelease(s, p);
  }

  lemma KillSelfAcquire(s: State, p: nat, t: nat)
    requires Shape(s) && p < |s.pc| && Locks(s, p)
    requires s.pc[p] == KillAcquirePt(t) && Enabled(s, p, Go)
    ensures Do(s, p, Go) == At(Pt(s, p), p, KillWake(t)) && Locks(Do(s, p, Go), p)
  {
  }

  lemma KillSelfWake(s: State, p: nat, t: nat)
    requires Shape(s) && p < |s.pc| && Locks(s, p)
    requires s.pc[p] == KillWake(t) && Enabled(s, p, Go)
    ensures Do(s, p, Go) == At(Rouse(s, t), p, KillReleasePt) && Locks(Do(s, p, Go), p)
  {
  }

  lemma KillSelfRelease(s: State, p: nat)
    requires Shape(s) && p < |s.pc| && Locks(s, p)
    requires s.pc[p] == KillReleasePt && Enabled(s, p, Go)
    ensures s.pt == p && Do(s, p, Go) == At(Pt(s, NONE), p, Idle) && Locks(Do(s, p, Go), p)
  {
    hide Do;
    DoKillRelease(s, p);
  }

  lemma DoKillRelease(s: State, p: nat)
    requires Shape(s) && p < |s.pc| && s.pc[p] == KillReleasePt && Enabled(s, p, Go)
    ensures Do(s, p, Go) == At(Pt(s, NONE), p, Idle)
  {
  }

  lemma KillOther(s: State, p: nat, q: nat)
    requires Local(s, p, q) && p != q && Killing(s.pc[p]) && Enabled(s, p, Go)
    ensures Shape(Do(s, p, Go)) && Locks(Do(s, p, Go), q)
  {
    hide Locks;
    KillShared(s, p, q);
    OtherLocks(s, Do(s, p, Go), q);
  }

  lemma KillShared(s: State, p: nat, q: nat)
    requires Shape(s) && p < |s.pc| && Locks(s, p) && q < |s.pc| && p != q && Killing(s.pc[p]) && Enabled(s, p, Go)
    ensures var s' := Do(s, p, Go);
            && Shape(s') && |s'.pc| == |s.pc| && s'.pc[q] == s.pc[q]
            && s'.locked == s.locked && s'.holder == s.holder && s'.pid == s.pid
            && (s.lk == q <==> s'.lk == q) && (s.pt == q <==> s'.pt == q)
  {
    hide Locks, Do;
    match s.pc[p]
    case KillAcquirePt(t) => KillSelfAcquire(s, p, t);
    case KillWake(t) => KillSelfWake(s, p, t);
    case _ => KillSelfRelease(s, p);
  }

  lemma KillWoken(s: State, p: nat, q: nat)
    requires Local(s, p, q) && Killing(s.pc[p]) && Enabled(s, p, Go) && Woken(s, q)
    ensures Shape(Do(s, p, Go)) && Woken(Do(s, p, Go), q)
  {
  }

  lemma InvNext(s: State, p: nat, m: Move)
    requires Inv(s) && p < |s.pc| && Enabled(s, p, m)
    ensures Inv(Do(s, p, m)) && |Do(s, p, m).pc| == |s.pc|
  {
    hide Locks, Woken, Do;
    forall q | 0 <= q < |s.pc|
      ensures var s' := Do(s, p, m);
              Shape(s') && (s'.locked <==> s'.holder != NONE) && |s'.pc| == |s.pc| && Locks(s', q) && Woken(s', q)
    {
      StepKeeps(s, p, m, q);
    }
    StepKeeps(s, p, m, p);
  }

  lemma StepKeeps(s: State, p: nat, m: Move, q: nat)
    requires Inv(s) && p < |s.pc| && q < |s.pc| && Enabled(s, p, m)
    ensures var s' := Do(s, p, m);
            Shape(s') && (s'.locked <==> s'.holder != NONE) && |s'.pc| == |s.pc| && Locks(s', q) && Woken(s', q)
  {
    hide Locks, Woken, Do;
    SameCount(s, p, m);
    if m != Go {
      StartSelf(s, p, m);
      if p != q { StartOther(s, p, m, q); }
      StartWoken(s, p, m, q);
    } else if Acquiring(s.pc[p]) {
      AcquireSelf(s, p);
      if p != q { AcquireOther(s, p, q); }
      AcquireWoken(s, p, q);
    } else if FallingAsleep(s.pc[p]) {
      FallAsleepSelf(s, p);
      if p != q { FallAsleepOther(s, p, q); }
      FallAsleepWoken(s, p, q);
    } else if InSleep(s.pc[p]) {
      SleepSelf(s, p);
      if p != q { SleepOther(s, p, q); }
      SleepWoken(s, p, q);
    } else if Releasing(s.pc[p]) {
      ReleaseSelf(s, p);
      if p != q { ReleaseOther(s, p, q); }
      ReleaseWoken(s, p, q);
    } else {
      KillSelf(s, p);
      if p != q { KillOther(s, p, q); }
      KillWoken(s, p, q);
    }
  }

  lemma SameCount(s: State, p: nat, m: Move)
    requires p < |s.pc| == |s.asleep| && Enabled(s, p, m)
    ensures |Do(s, p, m).pc| == |s.pc|
  {
  }

  // ---- Whole runs ----

  ghost predicate Run(run: seq<State>) {
    && |run| > 0 && Init(run[0])
    && forall i :: 0 <= i < |run| - 1 ==> Stepped(run[i], run[i + 1])
  }

  ghost predicate Stepped(s: State, s': State) {
    |s.pc| == |s.asleep| && exists p: nat, m: Move :: p < |s.pc| && Enabled(s, p, m) && s' == Do(s, p, m)
  }

  lemma {:induction false} RunInvariant(run: seq<State>, k: nat)
    requires Run(run) && k < |run|
    ensures Inv(run[k])
  {
    hide Inv, Init, Do, Enabled;
    if k == 0 {
      InitInv(run[0]);
    } else {
      RunInvariant(run, k - 1);
      assert Stepped(run[k - 1], run[k]);
      var p: nat, m: Move :| p < |run[k - 1].pc| && Enabled(run[k - 1], p, m) && run[k] == Do(run[k - 1], p, m);
      InvNext(run[k - 1], p, m);
    }
  }

  // At most one process is between acquiresleep and releasesleep, and lk->pid names it.
  lemma OneHolder(run: seq<State>, k: nat, p: nat, q: nat)
    requires Run(run) && k < |run| && p < |run[k].pc| && q < |run[k].pc|
    requires run[k].pc[p] == Holding && run[k].pc[q] == Holding
    ensures p == q && run[k].locked && run[k].pid == p
  {
    RunInvariant(run, k);
    assert Locks(run[k], p) && Locks(run[k], q);
  }

  // No lost wakeup: a sleeper's lock is held, or somebody has cleared it and has yet to reach the sleeper in wakeup1.
  lemma NoLostWakeup(run: seq<State>, k: nat, q: nat)
    requires Run(run) && k < |run| && q < |run[k].pc| && q < |run[k].asleep| && run[k].asleep[q]
    ensures (exists p: nat :: p < |run[k].pc| && Owns(run[k].pc[p])) || Waking(run[k], q)
  {
    RunInvariant(run, k);
    assert Woken(run[k], q);
    if run[k].locked { assert Locks(run[k], run[k].holder); }
  }

  // When wakeup's loop ends nobody sleeps on the lock.
  lemma WakeupWakesAll(run: seq<State>, k: nat, p: nat, q: nat)
    requires Run(run) && k < |run| && p < |run[k].pc| && q < |run[k].asleep|
    requires run[k].pc[p] == Wake(|run[k].pc|) || run[k].pc[p] == WakeReleasePt || run[k].pc[p] == ReleaseDone
    ensures q < |run[k].pc| && !run[k].asleep[q] && run[k].pc[q] != SetSleeping
  {
    RunInvariant(run, k);
    assert Locks(run[k], p) && Woken(run[k], q);
  }

  // No deadlock: if some process is inside acquiresleep, releasesleep or kill, some process can go on,
  // unless the sleep lock is held and every such process is asleep waiting for it.
  lemma NoDeadlock(run: seq<State>, k: nat, q: nat)
    requires Run(run) && k < |run| && q < |run[k].pc| && q < |run[k].asleep|
    requires run[k].pc[q] != Idle && run[k].pc[q] != Holding
    ensures |run[k].pc| == |run[k].asleep|
    ensures (exists p: nat :: p < |run[k].pc| && Enabled(run[k], p, Go))
            || (run[k].asleep[q] && exists p: nat :: p < |run[k].pc| && run[k].pc[p] == Holding)
  {
    var s := run[k];
    RunInvariant(run, k);
    assert Locks(s, q) && Woken(s, q);
    if s.pt != NONE {
      assert Locks(s, s.pt) && Enabled(s, s.pt, Go);
    } else if s.lk != NONE {
      assert Locks(s, s.lk) && Enabled(s, s.lk, Go);
    } else if !Enabled(s, q, Go) {
      assert s.asleep[q] && s.locked && Locks(s, s.holder);
      if s.pc[s.holder] != Holding { assert Enabled(s, s.holder, Go); }
    }
  }

  // ---- lk->pid ----

  // lk->pid is 0 unless its process is between noting itself and clearing the note.
  ghost predicate PidOk(s: State) {
    s.pid != NONE ==> 0 <= s.pid < |s.pc| && ((Owns(s.pc[s.pid]) && s.pc[s.pid] != SetPid) || s.pc[s.pid] == ClearPid)
  }

  lemma PidNext(s: State, p: nat, m: Move)
    requires p < |s.pc| == |s.asleep| && Enabled(s, p, m) && PidOk(s)
    ensures PidOk(Do(s, p, m))
  {
  }

  lemma {:induction false} PidNamesTheHolder(run: seq<State>, k: nat)
    requires Run(run) && k < |run|
    ensures PidOk(run[k])
  {
    hide Do, Enabled, PidOk;
    if k == 0 {
      assert PidOk(run[0]) by { PidAtStart(run[0]); }
    } else {
      PidNamesTheHolder(run, k - 1);
      assert Stepped(run[k - 1], run[k]);
      var p: nat, m: Move :| p < |run[k - 1].pc| && Enabled(run[k - 1], p, m) && run[k] == Do(run[k - 1], p, m);
      PidNext(run[k - 1], p, m);
    }
  }

  lemma PidAtStart(s: State)
    requires Init(s)
    ensures PidOk(s)
  {
  }

  // ---- Whole calls ----

  // The step of kill that matters wakes the target, wherever it sleeps, and touches nobody else.
  lemma KillWakes(s: State, p: nat, t: nat, q: nat)
    requires p < |s.pc| == |s.asleep| && q < |s.pc| && s.pc[p] == KillWake(t)
    ensures var s' := Do(s, p, Go);
      && |s'.asleep| == |s.asleep| && s'.asleep[q] == (s.asleep[q] && q != t) && (q != p ==> s'.pc[q] == s.pc[q])
      && s'.locked == s.locked && s'.pid == s.pid && s'.holder == s.holder
  {
  }

  // p makes up to k steps of its current call, stopping where it cannot go on.
  function GoOn(s: State, p: nat, k: nat): State
    decreases k
  {
    if k > 0 && p < |s.pc| && p < |s.asleep| && |s.pc| == |s.asleep| && Enabled(s, p, Go)
    then GoOn(Do(s, p, Go), p, k - 1) else s
  }

  // Undisturbed, kill(t) returns with t awake and nothing else changed.
  lemma KillAlone(s: State, p: nat, t: nat)
    requires p < |s.pc| == |s.asleep| && s.pc[p] == Idle && s.pt == NONE
    ensures GoOn(Do(s, p, Kill(t)), p, 3) == Rouse(s, t)
  {
    var s1 := Do(s, p, Kill(t));
    var s2 := Do(s1, p, Go);
    var s3 := Do(s2, p, Go);
    assert GoOn(s3, p, 1) == Do(s3, p, Go);
    assert GoOn(s2, p, 2) == GoOn(s3, p, 1);
    assert s.pc[p := KillAcquirePt(t)][p := KillWake(t)][p := KillReleasePt][p := Idle] == s.pc;
  }

  // Undisturbed, acquiresleep on a free lock returns with the lock held and its holder noted.
  lemma AcquireAlone(s: State, p: nat)
    requires p < |s.pc| == |s.asleep| && s.pc[p] == Idle && s.lk == NONE && !s.locked
    ensures GoOn(Do(s, p, Acquire), p, 5) == At(Pid(Locked(s, true, p), p), p, Holding)
  {
    var s1 := Do(s, p, Acquire);
    var s2 := Do(s1, p, Go);
    var s3 := Do(s2, p, Go);
    var s4 := Do(s3, p, Go);
    var s5 := Do(s4, p, Go);
    assert GoOn(s5, p, 1) == Do(s5, p, Go);
    assert GoOn(s4, p, 2) == GoOn(s5, p, 1);
    assert GoOn(s3, p, 3) == GoOn(s4, p, 2);
    assert GoOn(s2, p, 4) == GoOn(s3, p, 3);
  }

  // Undisturbed, acquiresleep on a held lock ends up asleep, with both spinlocks free, and goes no further.
  lemma AcquireHeld(s: State, p: nat)
    requires p < |s.pc| == |s.asleep| && s.pc[p] == Idle && s.lk == NONE && s.pt == NONE && s.locked
    ensures var s' := At(Sleeping(s, p, true), p, Asleep);
      GoOn(Do(s, p, Acquire), p, 6) == s' && !Enabled(s', p, Go)
  {
    var s1 := Do(s, p, Acquire);
    var s2 := Do(s1, p, Go);
    var s3 := Do(s2, p, Go);
    var s4 := Do(s3, p, Go);
    assert s4 == At(Pt(Lk(s, p), p), p, SleepReleaseLk);
    var s5 := Do(s4, p, Go);
    var s6 := Do(s5, p, Go);
    assert GoOn(s6, p, 1) == Do(s6, p, Go);
    assert GoOn(s5, p, 2) == GoOn(s6, p, 1);
    assert GoOn(s4, p, 3) == GoOn(s5, p, 2);
    assert GoOn(s3, p, 4) == GoOn(s4, p, 3);
    assert GoOn(s2, p, 5) == GoOn(s3, p, 4);
  }

  // wakeup1's loop from entry i on: everybody from i on is awake, and the loop is left.
  lemma {:induction false} WakeupAlone(s: State, p: nat, i: nat)
    requires p < |s.pc| == |s.asleep| && i <= |s.pc| && s.pc[p] == Wake(i)
    ensures var s' := GoOn(s, p, |s.pc| - i + 1);
      && s' == At(State(s.locked, s.pid, s.lk, s.pt, s.pc, s'.asleep, s.holder), p, WakeReleasePt)
      && |s'.asleep| == |s.asleep| && forall q :: 0 <= q < |s.asleep| ==> s'.asleep[q] == (s.asleep[q] && q < i)
    decreases |s.pc| - i
  {
    var s1 := Do(s, p, Go);
    if i < |s.pc| {
      WakeupAlone(s1, p, i + 1);
    }
  }

  lemma {:induction false} GoOnTwice(s: State, p: nat, j: nat, k: nat)
    ensures GoOn(GoOn(s, p, j), p, k) == GoOn(s, p, j + k)
    decreases j
  {
    if j > 0 && p < |s.pc| && p < |s.asleep| && |s.pc| == |s.asleep| && Enabled(s, p, Go) {
      GoOnTwice(Do(s, p, Go), p, j - 1, k);
    }
  }

  // releasesleep up to wakeup1's loop, and from there on.
  lemma ReleaseStarts(s: State, p: nat, n: nat)
    requires p < |s.pc| == |s.asleep| && s.pc[p] == Holding && s.lk == NONE && s.pt == NONE
    ensures GoOn(Do(s, p, Release), p, n + 4) == GoOn(At(State(false, NONE, p, p, s.pc, s.asleep, NONE), p, Wake(0)), p, n)
  {
    var s1 := Do(s, p, Release);
    var s2 := Do(s1, p, Go);
    var s3 := Do(s2, p, Go);
    var s4 := Do(s3, p, Go);
    assert s4 == At(State(false, NONE, p, s.pt, s.pc, s.asleep, NONE), p, WakeAcquirePt);
    assert Do(s4, p, Go) == At(State(false, NONE, p, p, s.pc, s.asleep, NONE), p, Wake(0));
    assert GoOn(s4, p, n + 1) == GoOn(Do(s4, p, Go), p, n);
    assert GoOn(s3, p, n + 2) == GoOn(s4, p, n + 1);
    assert GoOn(s2, p, n + 3) == GoOn(s3, p, n + 2);
  }

  lemma ReleaseEnds(s: State, p: nat)
    requires p < |s.pc| == |s.asleep| && s.pc[p] == WakeReleasePt
    ensures GoOn(s, p, 2) == At(State(s.locked, s.pid, NONE, NONE, s.pc, s.asleep, s.holder), p, Idle)
  {
    var s1 := Do(s, p, Go);
    assert GoOn(s1, p, 1) == Do(s1, p, Go);
  }

  // Undisturbed, releasesleep returns with the lock free, no holder noted, and nobody asleep on it.
  lemma ReleaseAlone(s: State, p: nat)
    requires p < |s.pc| == |s.asleep| && s.pc[p] == Holding && s.lk == NONE && s.pt == NONE
    ensures var s' := GoOn(Do(s, p, Release), p, |s.pc| + 7);
      && s' == At(State(false, NONE, NONE, NONE, s.pc, s'.asleep, NONE), p, Idle)
      && |s'.asleep| == |s.asleep| && forall q :: 0 <= q < |s.asleep| ==> !s'.asleep[q]
  {
    hide Do, GoOn, Enabled;
    var n := |s.pc| + 1;
    var loop := At(State(false, NONE, p, p, s.pc, s.asleep, NONE), p, Wake(0));
    ReleaseStarts(s, p, n + 2);
    WakeupAlone(loop, p, 0);
    GoOnTwice(loop, p, n, 2);
    ReleaseEnds(GoOn(loop, p, n), p);
  }
}
