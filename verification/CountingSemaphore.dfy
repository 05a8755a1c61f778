// The counting semaphore built from two binary ones (uthread.c, csem_alloc / down / up).
//
// Any number of threads call down and up.  Each bsem_down and bsem_up is one step, because
// alarm(0) turns preemption off inside them; everything else can be interleaved, including
// the load and the store of `val--` and `val++`.
module CountingSemaphore {
  import opened BinarySemaphore
  import opened Sequences

  // Where a thread is inside down() or up().
  datatype PC =
    | Idle
    | DGate            // down: about to bsem_down(s2)
    | DGateWait        //       asleep on s2
    | DLock            //       about to bsem_down(s1)
    | DLockWait        //       asleep on s1
    | DLoad            //       about to read val
    | DStore(tmp: int) //       about to write tmp - 1
    | DTest            //       about to test val > 0
    | DOpen            //       about to bsem_up(s2)
    | DUnlock          //       about to bsem_up(s1)
    | ULock | ULockWait | ULoad | UStore(tmp: int) | UTest | UOpen | UUnlock
  {
    // Between bsem_down(s1) and bsem_up(s1).
    predicate Inside() {
      DLoad? || DStore? || DTest? || DOpen? || DUnlock? || ULoad? || UStore? || UTest? || UOpen? || UUnlock?
    }
    predicate Asleep() { DGateWait? || DLockWait? || ULockWait? }
    // Holds the gate token that bsem_down(s2) took or that val's rise to 1 created.
    predicate HoldsGate(val: int) {
      DLock? || DLockWait? || DLoad? || DStore? || DOpen? || UOpen? || (DTest? && val > 0) || (UTest? && val == 1)
    }
  }

  datatype State = State(
    s1: BSem, s2: BSem, val: int, pcs: seq<PC>,
    init: int, ups: nat, downs: nat,    // increments and decrements of val so far
    early: bool)                        // some bsem_up took its early return

  datatype Event = CallDown | CallUp | Run

  // csem_alloc: with nothing to hand out, the creator takes the gate's token away.
  function Init(n: nat, init: int): State {
    var gate := BSem(1, []);
    State(BSem(1, []), if init < 1 then DownB(gate, 0) else gate, init, seq(n, _ => Idle), init, 0, 0, false)
  }

  predicate Enabled(s: State, t: nat, e: Event) {
    && t < |s.pcs|
    && match e
       case Run => !s.pcs[t].Idle? && !s.pcs[t].Asleep()
       case _ => s.pcs[t].Idle?
  }

  // Where a thread woken from a queue resumes.
  function Resume(pc: PC): PC {
    match pc
    case DGateWait => DLock
    case DLockWait => DLoad
    case ULockWait => ULoad
    case _ => pc
  }

  function Wake(pcs: seq<PC>, r: UpOutcome): (ps: seq<PC>)
    ensures |ps| == |pcs|
  {
    if r.Woke? && r.t < |pcs| then pcs[r.t := Resume(pcs[r.t])] else pcs
  }

  function UpS1(s: State, t: nat, pc: PC): State
    requires t < |s.pcs|
  {
    var (b, r) := UpB(s.s1);
    s.(s1 := b, pcs := Wake(s.pcs, r)[t := pc], early := s.early || r.AlreadyUp?)
  }

  function UpS2(s: State, t: nat, pc: PC): State
    requires t < |s.pcs|
  {
    var (b, r) := UpB(s.s2);
    s.(s2 := b, pcs := Wake(s.pcs, r)[t := pc], early := s.early || r.AlreadyUp?)
  }

  function Next(s: State, t: nat, e: Event): State
    requires Enabled(s, t, e)
  {
    match e
    case CallDown => s.(pcs := s.pcs[t := DGate])
    case CallUp => s.(pcs := s.pcs[t := ULock])
    case Run =>
      match s.pcs[t]
      case DGate => s.(s2 := DownB(s.s2, t), pcs := s.pcs[t := if s.s2.s != 0 then DLock else DGateWait])
      case DLock => s.(s1 := DownB(s.s1, t), pcs := s.pcs[t := if s.s1.s != 0 then DLoad else DLockWait])
      case DLoad => s.(pcs := s.pcs[t := DStore(s.val)])
      case DStore(tmp) => s.(val := tmp - 1, downs := s.downs + 1, pcs := s.pcs[t := DTest])
      case DTest => s.(pcs := s.pcs[t := if s.val > 0 then DOpen else DUnlock])
      case DOpen => UpS2(s, t, DUnlock)
      case DUnlock => UpS1(s, t, Idle)
      case ULock => s.(s1 := DownB(s.s1, t), pcs := s.pcs[t := if s.s1.s != 0 then ULoad else ULockWait])
      case ULoad => s.(pcs := s.pcs[t := UStore(s.val)])
      case UStore(tmp) => s.(val := tmp + 1, ups := s.ups + 1, pcs := s.pcs[t := UTest])
      case UTest => s.(pcs := s.pcs[t := if s.val == 1 then UOpen else UUnlock])
      case UOpen => UpS2(s, t, UUnlock)
      case UUnlock => UpS1(s, t, Idle)
      case _ => s
  }

  // ---- Invariants ----

  function Insides(ps: seq<PC>): seq<bool> {
    seq(|ps|, i requires 0 <= i < |ps| => ps[i].Inside())
  }
  function LockWaits(ps: seq<PC>): seq<bool> {
    seq(|ps|, i requires 0 <= i < |ps| => ps[i].DLockWait? || ps[i].ULockWait?)
  }
  function Gates(ps: seq<PC>, val: int): seq<bool> {
    seq(|ps|, i requires 0 <= i < |ps| => ps[i].HoldsGate(val))
  }
  function GateWaits(ps: seq<PC>): seq<bool> {
    seq(|ps|, i requires 0 <= i < |ps| => ps[i].DGateWait?)
  }

  // s1 is a mutex around the accesses to val.
  ghost predicate Mutex(s: State) {
    Token(s.s1, Insides(s.pcs), LockWaits(s.pcs), true)
  }

  // s2 is the gate: its token exists exactly while val > 0, in s2 or in one thread's hands.
  ghost predicate Gate(s: State) {
    Token(s.s2, Gates(s.pcs, s.val), GateWaits(s.pcs), s.val > 0)
  }

  predicate LocalOk(pc: PC, val: int) {
    && (pc.DStore? || pc.UStore? ==> pc.tmp == val)
    && (pc.UOpen? ==> val == 1)
  }

  ghost predicate Locals(s: State) {
    && (forall t :: 0 <= t < |s.pcs| ==> LocalOk(s.pcs[t], s.val))
    && s.val == s.init + s.ups - s.downs
    && (s.val >= 0 || s.val >= s.init)
    && !s.early
  }

  ghost predicate Inv(s: State) {
    Mutex(s) && Gate(s) && Locals(s)
  }

  // ---- Every step keeps them ----

  // How the four views of the thread positions change when thread t moves to pc.
  lemma Moved(ps: seq<PC>, t: nat, pc: PC, val: int)
    requires t < |ps|
    ensures Insides(ps[t := pc]) == Insides(ps)[t := pc.Inside()]
    ensures LockWaits(ps[t := pc]) == LockWaits(ps)[t := pc.DLockWait? || pc.ULockWait?]
    ensures Gates(ps[t := pc], val) == Gates(ps, val)[t := pc.HoldsGate(val)]
    ensures GateWaits(ps[t := pc]) == GateWaits(ps)[t := pc.DGateWait?]
    ensures Insides(ps)[t := ps[t].Inside()] == Insides(ps)
    ensures LockWaits(ps)[t := ps[t].DLockWait? || ps[t].ULockWait?] == LockWaits(ps)
    ensures Gates(ps, val)[t := ps[t].HoldsGate(val)] == Gates(ps, val)
    ensures GateWaits(ps)[t := ps[t].DGateWait?] == GateWaits(ps)
  {
  }

  lemma CallNext(s: State, t: nat, e: Event)
    requires Inv(s) && Enabled(s, t, e) && !e.Run?
    ensures Inv(Next(s, t, e))
  {
    Moved(s.pcs, t, Next(s, t, e).pcs[t], s.val);
  }

  lemma DownNext(s: State, t: nat)
    requires Inv(s) && Enabled(s, t, Run) && (s.pcs[t].DGate? || s.pcs[t].DLock? || s.pcs[t].ULock?)
    ensures Inv(Next(s, t, Run))
  {
    Moved(s.pcs, t, Next(s, t, Run).pcs[t], s.val);
    if s.pcs[t].DGate? {
      TokenDown(s.s2, Gates(s.pcs, s.val), GateWaits(s.pcs), s.val > 0, t);
    } else {
      TokenDown(s.s1, Insides(s.pcs), LockWaits(s.pcs), true, t);
    }
  }

  // Reading val and testing it change only the thread's own position.
  lemma InsideNext(s: State, t: nat)
    requires Inv(s) && Enabled(s, t, Run)
    requires s.pcs[t].DLoad? || s.pcs[t].DTest? || s.pcs[t].ULoad? || s.pcs[t].UTest?
    ensures Inv(Next(s, t, Run))
  {
    Moved(s.pcs, t, Next(s, t, Run).pcs[t], s.val);
  }

  // Only the thread inside can be testing val, so a store changes nobody else's hold on the gate.
  lemma StoreViews(s: State, t: nat, n: State)
    requires Inv(s) && t < |s.pcs| && s.pcs[t].Inside()
    requires |n.pcs| == |s.pcs| && n.pcs == s.pcs[t := n.pcs[t]]
    ensures Gates(n.pcs, n.val) == Gates(s.pcs, s.val)[t := n.pcs[t].HoldsGate(n.val)]
    ensures forall u :: 0 <= u < |s.pcs| && u != t ==> !s.pcs[u].Inside()
  {
    forall u | 0 <= u < |s.pcs| && u != t
      ensures !s.pcs[u].Inside() && n.pcs[u].HoldsGate(n.val) == s.pcs[u].HoldsGate(s.val)
    {
      assert Insides(s.pcs)[t] && (Insides(s.pcs)[u] == s.pcs[u].Inside());
    }
  }

  lemma StoreNext(s: State, t: nat)
    requires Inv(s) && Enabled(s, t, Run) && (s.pcs[t].DStore? || s.pcs[t].UStore?)
    ensures Inv(Next(s, t, Run))
    ensures s.pcs[t].DStore? ==> s.val > 0
  {
    var n := Next(s, t, Run);
    Moved(s.pcs, t, n.pcs[t], s.val);
    StoreViews(s, t, n);
    var gates, waits := Gates(s.pcs, s.val), GateWaits(s.pcs);
    assert s.pcs[t].DStore? ==> gates[t] && s.val > 0;
    assert LocalOk(s.pcs[t], s.val);
    if s.pcs[t].DStore? && s.val == 1 { TokenConsume(s.s2, gates, waits, t); }
    if s.pcs[t].UStore? && s.val == 0 { TokenCreate(s.s2, gates, waits, t); }
    assert Gate(n);
  }

  lemma OpenNext(s: State, t: nat)
    requires Inv(s) && Enabled(s, t, Run) && (s.pcs[t].DOpen? || s.pcs[t].UOpen?)
    ensures s.s2.s == 0
    ensures Inv(Next(s, t, Run))
  {
    hide UpB, DownB;
    var n, r := Next(s, t, Run), UpB(s.s2).1;
    var mid := Wake(s.pcs, r);
    var gates, waits := Gates(s.pcs, s.val), GateWaits(s.pcs);
    assert gates[t] && !waits[t];
    TokenUp(s.s2, gates, waits, s.val > 0, t);
    if r.Woke? {
      assert s.pcs[r.t].DGateWait?;
      Moved(s.pcs, r.t, DLock, s.val);
    }
    Moved(mid, t, n.pcs[t], s.val);
  }

  lemma UnlockNext(s: State, t: nat)
    requires Inv(s) && Enabled(s, t, Run) && (s.pcs[t].DUnlock? || s.pcs[t].UUnlock?)
    ensures s.s1.s == 0
    ensures Inv(Next(s, t, Run))
  {
    hide UpB, DownB;
    var n, r := Next(s, t, Run), UpB(s.s1).1;
    var mid := Wake(s.pcs, r);
    var ins, waits := Insides(s.pcs), LockWaits(s.pcs);
    assert ins[t] && !waits[t];
    TokenUp(s.s1, ins, waits, true, t);
    if r.Woke? {
      assert s.pcs[r.t].DLockWait? || s.pcs[r.t].ULockWait?;
      Moved(s.pcs, r.t, Resume(s.pcs[r.t]), s.val);
    }
    Moved(mid, t, n.pcs[t], s.val);
  }

  lemma InvNext(s: State, t: nat, e: Event)
    requires Inv(s) && Enabled(s, t, e)
    ensures Inv(Next(s, t, e))
  {
    if !e.Run? { CallNext(s, t, e); }
    else {
      match s.pcs[t]
      case DGate => DownNext(s, t);
      case DLock => DownNext(s, t);
      case ULock => DownNext(s, t);
      case DStore(_) => StoreNext(s, t);
      case UStore(_) => StoreNext(s, t);
      case DOpen => OpenNext(s, t);
      case UOpen => OpenNext(s, t);
      case DUnlock => UnlockNext(s, t);
      case UUnlock => UnlockNext(s, t);
      case _ => InsideNext(s, t);
    }
  }

  lemma InitInv(n: nat, init: int)
    ensures Inv(Init(n, init))
  {
    assert DownB(BSem(1, []), 0) == BSem(0, []);
  }

  // ---- Runs ----

  datatype Step = Step(t: nat, e: Event)

  ghost predicate IsRun(tr: seq<State>, steps: seq<Step>, n: nat, init: int) {
    && |tr| == |steps| + 1 && tr[0] == Init(n, init)
    && forall i :: 0 <= i < |steps| ==>
         Enabled(tr[i], steps[i].t, steps[i].e) && tr[i + 1] == Next(tr[i], steps[i].t, steps[i].e)
  }

  lemma {:induction false} RunInvariant(tr: seq<State>, steps: seq<Step>, n: nat, init: int, i: nat)
    requires IsRun(tr, steps, n, init) && i < |tr|
    ensures Inv(tr[i]) && tr[i].init == init && |tr[i].pcs| == n
  {
    if i == 0 {
      InitInv(n, init);
    } else {
      RunInvariant(tr, steps, n, init, i - 1);
      assert tr[i - 1 + 1] == Next(tr[i - 1], steps[i - 1].t, steps[i - 1].e);
      InvNext(tr[i - 1], steps[i - 1].t, steps[i - 1].e);
    }
  }

  // Over every interleaving: the count is exactly the start plus ups minus downs, so from a
  // non-negative start no more downs take effect than the start and the ups allow; and no
  // bsem_up made by down or up ever takes the early return, which would leave preemption off.
  lemma CountIsExact(tr: seq<State>, steps: seq<Step>, n: nat, init: int, i: nat)
    requires IsRun(tr, steps, n, init) && i < |tr|
    ensures tr[i].val == init + tr[i].ups - tr[i].downs
    ensures init >= 0 ==> tr[i].val >= 0
    ensures !tr[i].early
  {
    RunInvariant(tr, steps, n, init, i);
  }

  function GateHolders(s: State): set<int> {
    set t | 0 <= t < |s.pcs| && s.pcs[t].HoldsGate(s.val)
  }

  // Exactly one gate token exists, in s2 or held by one thread, if and only if val > 0.
  lemma OneTokenIffPositive(tr: seq<State>, steps: seq<Step>, n: nat, init: int, i: nat)
    requires IsRun(tr, steps, n, init) && i < |tr|
    ensures tr[i].s2.s + |GateHolders(tr[i])| == if tr[i].val > 0 then 1 else 0
  {
    RunInvariant(tr, steps, n, init, i);
    var s := tr[i];
    var gates := Gates(s.pcs, s.val);
    assert forall t :: 0 <= t < |s.pcs| ==> (gates[t] <==> s.pcs[t].HoldsGate(s.val));
    if s.s2.s == 0 && s.val > 0 {
      var t :| 0 <= t < |gates| && gates[t];
      assert GateHolders(s) == {t};
    } else {
      assert GateHolders(s) == {};
    }
  }

  // At most one thread is between bsem_down(s1) and bsem_up(s1).
  lemma OneInside(tr: seq<State>, steps: seq<Step>, n: nat, init: int, i: nat, t: nat, u: nat)
    requires IsRun(tr, steps, n, init) && i < |tr| && t < |tr[i].pcs| && u < |tr[i].pcs|
    requires t != u && tr[i].pcs[t].Inside()
    ensures !tr[i].pcs[u].Inside()
  {
    RunInvariant(tr, steps, n, init, i);
    var ins := Insides(tr[i].pcs);
    assert ins[t] && ins[u] == tr[i].pcs[u].Inside();
  }

  // No lost wakeup: if threads sleep on the gate while val > 0, or sleep on s1, then some thread
  // is mid-operation and able to run.
  lemma SleepersAreServed(tr: seq<State>, steps: seq<Step>, n: nat, init: int, i: nat)
    requires IsRun(tr, steps, n, init) && i < |tr|
    requires (tr[i].s2.queue != [] && tr[i].val > 0) || tr[i].s1.queue != []
    ensures exists t :: 0 <= t < |tr[i].pcs| && (tr[i].pcs[t].Inside() || tr[i].pcs[t].HoldsGate(tr[i].val))
                        && Enabled(tr[i], t, Run)
  {
    RunInvariant(tr, steps, n, init, i);
    var s := tr[i];
    var ins, gates := Insides(s.pcs), Gates(s.pcs, s.val);
    if s.s1.s == 0 {
      var t :| 0 <= t < |ins| && ins[t];
      assert s.pcs[t].Inside() && Enabled(s, t, Run);
    } else {
      var t :| 0 <= t < |gates| && gates[t];
      assert s.pcs[t].HoldsGate(s.val);
      assert LockWaits(s.pcs)[t] == s.pcs[t].DLockWait?;
      assert Enabled(s, t, Run);
    }
  }

  // ---- The order of service ----

  function Steppers(steps: seq<Step>): seq<nat> {
    seq(|steps|, i requires 0 <= i < |steps| => steps[i].t)
  }

  // Who waits for s1, and for s2, at each moment of a run.
  function LockWaiters(tr: seq<State>): seq<seq<bool>> {
    seq(|tr|, i requires 0 <= i < |tr| => LockWaits(tr[i].pcs))
  }

  function GateWaiters(tr: seq<State>): seq<seq<bool>> {
    seq(|tr|, i requires 0 <= i < |tr| => GateWaits(tr[i].pcs))
  }

  function LockQueues(tr: seq<State>): seq<seq<nat>> {
    seq(|tr|, i requires 0 <= i < |tr| => tr[i].s1.queue)
  }

  function GateQueues(tr: seq<State>): seq<seq<nat>> {
    seq(|tr|, i requires 0 <= i < |tr| => tr[i].s2.queue)
  }

  lemma StepInOrder(s: State, t: nat, e: Event)
    requires Inv(s) && Enabled(s, t, e)
    ensures var n := Next(s, t, e);
      && InOrder(s.s1.queue, LockWaits(s.pcs), n.s1.queue, LockWaits(n.pcs), t)
      && InOrder(s.s2.queue, GateWaits(s.pcs), n.s2.queue, GateWaits(n.pcs), t)
  {
    hide InOrder, Inv;
    if e.Run? && (s.pcs[t].DGate? || s.pcs[t].DLock? || s.pcs[t].ULock?) { DownInOrder(s, t); }
    else if e.Run? && (s.pcs[t].DOpen? || s.pcs[t].UOpen?) { OpenInOrder(s, t); }
    else if e.Run? && (s.pcs[t].DUnlock? || s.pcs[t].UUnlock?) { UnlockInOrder(s, t); }
    else {
      Moved(s.pcs, t, Next(s, t, e).pcs[t], s.val);
      OrderSame(s.s1.queue, LockWaits(s.pcs), t);
      OrderSame(s.s2.queue, GateWaits(s.pcs), t);
    }
  }

  lemma DownInOrder(s: State, t: nat)
    requires Inv(s) && Enabled(s, t, Run) && (s.pcs[t].DGate? || s.pcs[t].DLock? || s.pcs[t].ULock?)
    ensures var n := Next(s, t, Run);
      && InOrder(s.s1.queue, LockWaits(s.pcs), n.s1.queue, LockWaits(n.pcs), t)
      && InOrder(s.s2.queue, GateWaits(s.pcs), n.s2.queue, GateWaits(n.pcs), t)
  {
    hide InOrder;
    Moved(s.pcs, t, Next(s, t, Run).pcs[t], s.val);
    OrderSame(s.s1.queue, LockWaits(s.pcs), t);
    OrderSame(s.s2.queue, GateWaits(s.pcs), t);
    if s.pcs[t].DGate? { OrderDown(s.s2, GateWaits(s.pcs), t); } else { OrderDown(s.s1, LockWaits(s.pcs), t); }
  }

  lemma OpenInOrder(s: State, t: nat)
    requires Inv(s) && Enabled(s, t, Run) && (s.pcs[t].DOpen? || s.pcs[t].UOpen?)
    ensures var n := Next(s, t, Run);
      && InOrder(s.s1.queue, LockWaits(s.pcs), n.s1.queue, LockWaits(n.pcs), t)
      && InOrder(s.s2.queue, GateWaits(s.pcs), n.s2.queue, GateWaits(n.pcs), t)
  {
    hide InOrder;
    var r, waits := UpB(s.s2).1, GateWaits(s.pcs);
    OrderUp(s.s2, waits, t);
    OrderSame(s.s1.queue, LockWaits(s.pcs), t);
    if r.Woke? {
      assert r.t in s.s2.queue && waits[r.t];
      Moved(s.pcs, r.t, DLock, s.val);
    }
    Moved(Wake(s.pcs, r), t, Next(s, t, Run).pcs[t], s.val);
  }

  lemma UnlockInOrder(s: State, t: nat)
    requires Inv(s) && Enabled(s, t, Run) && (s.pcs[t].DUnlock? || s.pcs[t].UUnlock?)
    ensures var n := Next(s, t, Run);
      && InOrder(s.s1.queue, LockWaits(s.pcs), n.s1.queue, LockWaits(n.pcs), t)
      && InOrder(s.s2.queue, GateWaits(s.pcs), n.s2.queue, GateWaits(n.pcs), t)
  {
    hide InOrder;
    var r, waits := UpB(s.s1).1, LockWaits(s.pcs);
    OrderUp(s.s1, waits, t);
    OrderSame(s.s2.queue, GateWaits(s.pcs), t);
    if r.Woke? {
      assert r.t in s.s1.queue && waits[r.t];
      Moved(s.pcs, r.t, Resume(s.pcs[r.t]), s.val);
    }
    Moved(Wake(s.pcs, r), t, Next(s, t, Run).pcs[t], s.val);
  }

  // First come, first served, over every stretch of every run and for both semaphores: the threads asleep at its
  // start, followed by those who fell asleep during it, are the threads woken during it followed by those still asleep.
  lemma ServedInOrder(tr: seq<State>, steps: seq<Step>, n: nat, init: int, i: nat, j: nat)
    requires IsRun(tr, steps, n, init) && i <= j < |tr|
    ensures tr[i].s1.queue + AllSlept(LockWaiters(tr), Steppers(steps), i, j)
         == AllWoken(LockWaiters(tr), i, j) + tr[j].s1.queue
    ensures tr[i].s2.queue + AllSlept(GateWaiters(tr), Steppers(steps), i, j)
         == AllWoken(GateWaiters(tr), i, j) + tr[j].s2.queue
    ensures tr[0].s1.queue == [] && tr[0].s2.queue == []
  {
    hide InOrder, Next, Inv, Enabled;
    forall k | i <= k < j
      ensures InOrder(LockQueues(tr)[k], LockWaiters(tr)[k], LockQueues(tr)[k + 1], LockWaiters(tr)[k + 1], Steppers(steps)[k])
      ensures InOrder(GateQueues(tr)[k], GateWaiters(tr)[k], GateQueues(tr)[k + 1], GateWaiters(tr)[k + 1], Steppers(steps)[k])
    {
      RunInvariant(tr, steps, n, init, k);
      StepInOrder(tr[k], steps[k].t, steps[k].e);
    }
    OrderOfService(LockQueues(tr), LockWaiters(tr), Steppers(steps), i, j);
    OrderOfService(GateQueues(tr), GateWaiters(tr), Steppers(steps), i, j);
  }

  // ---- The counter ----

  // What one step does to the count: nothing, or an atomic P that finds it positive, or a V.
  datatype Effect = Nothing | P | V

  function EffectOf(pc: PC): Effect {
    if pc.DStore? then P else if pc.UStore? then V else Nothing
  }

  // The semaphore refines the textbook counter with atomic P and V.
  lemma RefinesAtomicCounter(s: State, t: nat, e: Event)
    requires Inv(s) && Enabled(s, t, e)
    ensures match if e.Run? then EffectOf(s.pcs[t]) else Nothing
      case Nothing => Next(s, t, e).val == s.val
      case P => s.val > 0 && Next(s, t, e).val == s.val - 1
      case V => Next(s, t, e).val == s.val + 1
  {
    assert LocalOk(s.pcs[t], s.val);
    if e.Run? && s.pcs[t].DStore? { StoreNext(s, t); }
  }

  // ---- Calls ----

  // Inside down() before val-- is stored, and inside up() before val++ is.
  predicate BeforeP(pc: PC) { pc.DGate? || pc.DGateWait? || pc.DLock? || pc.DLockWait? || pc.DLoad? || pc.DStore? }
  predicate BeforeV(pc: PC) { pc.ULock? || pc.ULockWait? || pc.ULoad? || pc.UStore? }

  function BeforePs(ps: seq<PC>): seq<bool> {
    seq(|ps|, i requires 0 <= i < |ps| => BeforeP(ps[i]))
  }

  function BeforeVs(ps: seq<PC>): seq<bool> {
    seq(|ps|, i requires 0 <= i < |ps| => BeforeV(ps[i]))
  }

  // How often down, or up, was called in the first i steps.
  function Called(steps: seq<Step>, e: Event, i: nat): nat
    requires i <= |steps|
  {
    if i == 0 then 0 else Called(steps, e, i - 1) + if steps[i - 1].e == e then 1 else 0
  }

  // A step changes the caller, and at most wakes one other thread.
  lemma OthersResume(s: State, t: nat, e: Event)
    requires Enabled(s, t, e)
    ensures var n := Next(s, t, e);
      && |n.pcs| == |s.pcs| && n.init == s.init
      && (forall u :: 0 <= u < |s.pcs| && u != t ==> n.pcs[u] == s.pcs[u] || n.pcs[u] == Resume(s.pcs[u]))
  {
    hide UpB, DownB, Resume;
  }

  lemma OwnStep(s: State, t: nat, e: Event)
    requires Enabled(s, t, e) && |Next(s, t, e).pcs| == |s.pcs|
    ensures var n := Next(s, t, e);
      && n.downs == s.downs + (if e.Run? && s.pcs[t].DStore? then 1 else 0)
      && n.ups == s.ups + (if e.Run? && s.pcs[t].UStore? then 1 else 0)
      && (BeforeP(n.pcs[t]) <==> e.CallDown? || (BeforeP(s.pcs[t]) && !s.pcs[t].DStore?))
      && (BeforeV(n.pcs[t]) <==> e.CallUp? || (BeforeV(s.pcs[t]) && !s.pcs[t].UStore?))
  {
    hide UpB, DownB, Wake;
  }

  lemma ViewsBefore(s: State, n: State, t: nat)
    requires |n.pcs| == |s.pcs| && t < |s.pcs|
    requires forall u :: 0 <= u < |s.pcs| && u != t ==> n.pcs[u] == s.pcs[u] || n.pcs[u] == Resume(s.pcs[u])
    ensures BeforePs(n.pcs) == BeforePs(s.pcs)[t := BeforeP(n.pcs[t])]
    ensures BeforeVs(n.pcs) == BeforeVs(s.pcs)[t := BeforeV(n.pcs[t])]
  {
  }

  // Every call of down performs exactly one P and every call of up exactly one V: the calls made so far are the
  // decrements, or increments, so far and the calls that have not got there yet.
  lemma {:induction false} EveryCallCounts(tr: seq<State>, steps: seq<Step>, n: nat, init: int, i: nat)
    requires IsRun(tr, steps, n, init) && i < |tr|
    ensures Called(steps, CallDown, i) == tr[i].downs + Count(BeforePs(tr[i].pcs))
    ensures Called(steps, CallUp, i) == tr[i].ups + Count(BeforeVs(tr[i].pcs))
  {
    hide Next;
    if i == 0 {
      CountNone(BeforePs(tr[0].pcs));
      CountNone(BeforeVs(tr[0].pcs));
    } else {
      EveryCallCounts(tr, steps, n, init, i - 1);
      var s, t, e := tr[i - 1], steps[i - 1].t, steps[i - 1].e;
      assert Enabled(s, t, e) && tr[i - 1 + 1] == Next(s, t, e);
      OthersResume(s, t, e);
      OwnStep(s, t, e);
      ViewsBefore(s, tr[i], t);
      CountUpdate(BeforePs(s.pcs), t, BeforeP(tr[i].pcs[t]));
      CountUpdate(BeforeVs(s.pcs), t, BeforeV(tr[i].pcs[t]));
    }
  }
}
