// The bounded buffer of sanity.c on top of the semaphores of uthread.c.
//
// Any number of threads act as producers and consumers.  down(empty), up(full) and the rest run
// as the step machines of CountingSemaphore, so their inner steps interleave with everything
// else, and the accesses to arr, in and out are separate steps.
module BoundedBuffer {
  import opened BinarySemaphore
  import CS = CountingSemaphore

  const N: int := 100

  // Where a thread is in the body of producer() or consumer().
  datatype BPC =
    | Outside
    | PEmpty(item: int)      // inside down(empty)
    | PMutex(item: int)      // about to bsem_down(mutex)
    | PMutexWait(item: int)
    | PStore(item: int)      // about to arr[in] = item
    | PAdvance(item: int)    // about to in = (in+1) % N
    | PRelease               // about to bsem_up(mutex)
    | PFull                  // inside up(full)
    | CFull                  // inside down(full)
    | CMutex
    | CMutexWait
    | CLoad                  // about to item = arr[out]
    | CClear(item: int)      // about to arr[out] = -1
    | CAdvance(item: int)    // about to out = (out+1) % N
    | CRelease
    | CEmpty                 // inside up(empty)
  {
    predicate Inside() { PStore? || PAdvance? || PRelease? || CLoad? || CClear? || CAdvance? || CRelease? }
    predicate Waits() { PMutexWait? || CMutexWait? }
  }

  datatype State = State(
    empty: CS.State, full: CS.State, mutex: BSem,
    arr: seq<int>, inx: int, outx: int, bb: seq<BPC>,
    produced: seq<int>, consumed: seq<int>)   // items in the order in and out advanced past them

  datatype Event = Produce(item: int) | Consume | Run

  ghost predicate Init(s: State) {
    exists n: nat :: InitFor(s, n)
  }

  ghost predicate InitFor(s: State, n: nat) {
    && s.empty == CS.Init(n, N) && s.full == CS.Init(n, 0) && s.mutex == BSem(1, [])
    && |s.arr| == N && s.inx == 0 && s.outx == 0 && s.bb == seq(n, _ => Outside)
    && s.produced == [] && s.consumed == []
  }

  predicate Shape(s: State) {
    && |s.arr| == N && 0 <= s.inx < N && 0 <= s.outx < N
    && |s.empty.pcs| == |s.bb| && |s.full.pcs| == |s.bb|
  }

  // A thread inside a semaphore call can run when its position there can.
  predicate Enabled(s: State, t: nat, e: Event) {
    && Shape(s) && t < |s.bb|
    && match e
       case Produce(_) => s.bb[t].Outside? && s.empty.pcs[t].Idle?
       case Consume => s.bb[t].Outside? && s.full.pcs[t].Idle?
       case Run =>
         && !s.bb[t].Outside? && !s.bb[t].Waits()
         && (s.bb[t].PEmpty? || s.bb[t].CEmpty? ==> CS.Enabled(s.empty, t, CS.Run))
         && (s.bb[t].PFull? || s.bb[t].CFull? ==> CS.Enabled(s.full, t, CS.Run))
         && (s.bb[t].PRelease? ==> CS.Enabled(s.full, t, CS.CallUp))
         && (s.bb[t].CRelease? ==> CS.Enabled(s.empty, t, CS.CallUp))
  }

  function Resume(b: BPC): BPC {
    match b
    case PMutexWait(item) => PStore(item)
    case CMutexWait => CLoad
    case _ => b
  }

  function Wake(bb: seq<BPC>, r: UpOutcome): (q: seq<BPC>)
    ensures |q| == |bb|
  {
    if r.Woke? && r.t < |bb| then bb[r.t := Resume(bb[r.t])] else bb
  }

  // One step inside a call on a counting semaphore; when the call returns the thread moves on.
  function InEmpty(s: State, t: nat, done: BPC): State
    requires Shape(s) && t < |s.bb| && CS.Enabled(s.empty, t, CS.Run)
  {
    var c := CS.Next(s.empty, t, CS.Run);
    s.(empty := c, bb := s.bb[t := if t < |c.pcs| && c.pcs[t].Idle? then done else s.bb[t]])
  }

  function InFull(s: State, t: nat, done: BPC): State
    requires Shape(s) && t < |s.bb| && CS.Enabled(s.full, t, CS.Run)
  {
    var c := CS.Next(s.full, t, CS.Run);
    s.(full := c, bb := s.bb[t := if t < |c.pcs| && c.pcs[t].Idle? then done else s.bb[t]])
  }

  function Next(s: State, t: nat, e: Event): State
    requires Enabled(s, t, e)
  {
    match e
    case Produce(v) => s.(empty := CS.Next(s.empty, t, CS.CallDown), bb := s.bb[t := PEmpty(v)])
    case Consume => s.(full := CS.Next(s.full, t, CS.CallDown), bb := s.bb[t := CFull])
    case Run =>
      match s.bb[t]
      case PEmpty(v) => InEmpty(s, t, PMutex(v))
      case PMutex(v) => s.(mutex := DownB(s.mutex, t), bb := s.bb[t := if s.mutex.s != 0 then PStore(v) else PMutexWait(v)])
      case PStore(v) => s.(arr := s.arr[s.inx := v], bb := s.bb[t := PAdvance(v)])
      case PAdvance(v) => s.(inx := (s.inx + 1) % N, produced := s.produced + [v], bb := s.bb[t := PRelease])
      case PRelease =>
        var (b, r) := UpB(s.mutex);
        s.(mutex := b, full := CS.Next(s.full, t, CS.CallUp), bb := Wake(s.bb, r)[t := PFull])
      case PFull => InFull(s, t, Outside)
      case CFull => InFull(s, t, CMutex)
      case CMutex => s.(mutex := DownB(s.mutex, t), bb := s.bb[t := if s.mutex.s != 0 then CLoad else CMutexWait])
      case CLoad => s.(bb := s.bb[t := CClear(s.arr[s.outx])])
      case CClear(v) => s.(arr := s.arr[s.outx := -1], bb := s.bb[t := CAdvance(v)])
      case CAdvance(v) => s.(outx := (s.outx + 1) % N, consumed := s.consumed + [v], bb := s.bb[t := CRelease])
      case CRelease =>
        var (b, r) := UpB(s.mutex);
        s.(mutex := b, empty := CS.Next(s.empty, t, CS.CallUp), bb := Wake(s.bb, r)[t := CEmpty])
      case CEmpty => InEmpty(s, t, Outside)
      case _ => s
  }

  // ---- Invariants ----

  function Insides(bb: seq<BPC>): seq<bool> {
    seq(|bb|, i requires 0 <= i < |bb| => bb[i].Inside())
  }
  function MutexWaits(bb: seq<BPC>): seq<bool> {
    seq(|bb|, i requires 0 <= i < |bb| => bb[i].Waits())
  }

  // Positions inside down() after the count is stored.
  predicate AfterP(pc: CS.PC) { pc.DTest? || pc.DOpen? || pc.DUnlock? }
  predicate InDown(pc: CS.PC) { CS.BeforeP(pc) || AfterP(pc) }
  predicate InUp(pc: CS.PC) { CS.BeforeV(pc) || pc.UTest? || pc.UOpen? || pc.UUnlock? }

  // A thread's position in each semaphore agrees with its position in the body.
  predicate LinkedOne(b: BPC, e: CS.PC, f: CS.PC) {
    && (if b.PEmpty? then InDown(e) else if b.CEmpty? then InUp(e) else e.Idle?)
    && (if b.CFull? then InDown(f) else if b.PFull? then InUp(f) else f.Idle?)
  }

  // Slots taken from `empty` and not yet filled; items not yet announced to `full`; and the reverse.
  predicate TookEmpty(b: BPC, e: CS.PC) {
    (b.PEmpty? && AfterP(e)) || b.PMutex? || b.PMutexWait? || b.PStore? || b.PAdvance?
  }
  predicate OwesFull(b: BPC, f: CS.PC) { b.PRelease? || (b.PFull? && CS.BeforeV(f)) }
  predicate TookFull(b: BPC, f: CS.PC) {
    (b.CFull? && AfterP(f)) || b.CMutex? || b.CMutexWait? || b.CLoad? || b.CClear? || b.CAdvance?
  }
  predicate OwesEmpty(b: BPC, e: CS.PC) { b.CRelease? || (b.CEmpty? && CS.BeforeV(e)) }

  // The four credits of every thread.
  datatype Credits = Credits(tookEmpty: bool, owesFull: bool, tookFull: bool, owesEmpty: bool)

  function CreditsOf(b: BPC, e: CS.PC, f: CS.PC): Credits {
    Credits(TookEmpty(b, e), OwesFull(b, f), TookFull(b, f), OwesEmpty(b, e))
  }

  function AllCredits(s: State): (q: seq<Credits>)
    requires Shape(s)
    ensures |q| == |s.bb|
    ensures forall i :: 0 <= i < |q| ==> q[i] == CreditsOf(s.bb[i], s.empty.pcs[i], s.full.pcs[i])
  {
    seq(|s.bb|, i requires 0 <= i < |s.bb| && Shape(s) => CreditsOf(s.bb[i], s.empty.pcs[i], s.full.pcs[i]))
  }

  datatype Totals = Totals(tookEmpty: nat, owesFull: nat, tookFull: nat, owesEmpty: nat)

  function One(b: bool): nat { if b then 1 else 0 }

  function Sum(q: seq<Credits>): Totals {
    if q == [] then Totals(0, 0, 0, 0)
    else
      var r, c := Sum(q[..|q| - 1]), q[|q| - 1];
      Totals(r.tookEmpty + One(c.tookEmpty), r.owesFull + One(c.owesFull),
             r.tookFull + One(c.tookFull), r.owesEmpty + One(c.owesEmpty))
  }

  lemma {:induction false} SumUpdate(q: seq<Credits>, t: nat, c: Credits)
    requires t < |q|
    ensures var r, r' := Sum(q), Sum(q[t := c]);
      && r'.tookEmpty == r.tookEmpty - One(q[t].tookEmpty) + One(c.tookEmpty)
      && r'.owesFull == r.owesFull - One(q[t].owesFull) + One(c.owesFull)
      && r'.tookFull == r.tookFull - One(q[t].tookFull) + One(c.tookFull)
      && r'.owesEmpty == r.owesEmpty - One(q[t].owesEmpty) + One(c.owesEmpty)
    ensures One(q[t].tookEmpty) <= Sum(q).tookEmpty && One(q[t].tookFull) <= Sum(q).tookFull
  {
    var front := q[..|q| - 1];
    if t == |q| - 1 {
      assert q[t := c][..|q| - 1] == front;
    } else {
      assert q[t := c][..|q| - 1] == front[t := c];
      SumUpdate(front, t, c);
    }
  }

  ghost predicate Linked(s: State)
    requires Shape(s)
  {
    forall t :: 0 <= t < |s.bb| ==> LinkedOne(s.bb[t], s.empty.pcs[t], s.full.pcs[t])
  }

  ghost predicate Mutex(s: State) {
    Token(s.mutex, Insides(s.bb), MutexWaits(s.bb), true)
  }

  // The semaphores' histories account for every item that went in and came out.
  ghost predicate Accounts(s: State)
    requires Shape(s)
  {
    var r := Sum(AllCredits(s));
    && s.empty.downs == |s.produced| + r.tookEmpty
    && s.full.ups + r.owesFull == |s.produced|
    && s.full.downs == |s.consumed| + r.tookFull
    && s.empty.ups + r.owesEmpty == |s.consumed|
  }

  // The unread items are in the ring, in order, between out and in.
  ghost predicate Ring(s: State)
    requires Shape(s)
  {
    && s.consumed <= s.produced && |s.produced| - |s.consumed| <= N
    && s.inx == |s.produced| % N && s.outx == |s.consumed| % N
    && forall k :: |s.consumed| <= k < |s.produced| ==> s.arr[k % N] == s.produced[k] || k == |s.consumed|
  }

  ghost predicate LocalOk(s: State, b: BPC)
    requires Shape(s)
  {
    && (b.PAdvance? ==> s.arr[s.inx] == b.item)
    && (b.CClear? || b.CAdvance? ==> |s.consumed| < |s.produced| && b.item == s.produced[|s.consumed|])
    && (!b.CAdvance? && |s.consumed| < |s.produced| ==> s.arr[s.outx] == s.produced[|s.consumed|])
  }

  // The first unread item is in place unless the thread inside has just cleared it.
  ghost predicate Locals(s: State)
    requires Shape(s)
  {
    && (forall t :: 0 <= t < |s.bb| && s.bb[t].Inside() ==> LocalOk(s, s.bb[t]))
    && (s.mutex.s == 1 ==> LocalOk(s, Outside))
  }

  ghost predicate Sems(s: State) {
    CS.Inv(s.empty) && CS.Inv(s.full) && s.empty.init == N && s.full.init == 0
  }

  ghost predicate Inv(s: State) {
    Shape(s) && Sems(s) && Linked(s) && Mutex(s) && Accounts(s) && Ring(s) && Locals(s)
  }

  // ---- One step at a time ----

  lemma CsStep(c: CS.State, t: nat, e: CS.Event)
    requires CS.Enabled(c, t, e)
    ensures var n := CS.Next(c, t, e);
      && |n.pcs| == |c.pcs| && n.init == c.init
      && (forall u :: 0 <= u < |c.pcs| && u != t ==> n.pcs[u] == c.pcs[u] || n.pcs[u] == CS.Resume(c.pcs[u]))
      && n.downs == c.downs + One(e.Run? && c.pcs[t].DStore?)
      && n.ups == c.ups + One(e.Run? && c.pcs[t].UStore?)
      && (e.Run? && InDown(c.pcs[t]) ==>
          && (n.pcs[t].Idle? || InDown(n.pcs[t])) && (n.pcs[t].Idle? <==> c.pcs[t].DUnlock?)
          && (AfterP(n.pcs[t]) || n.pcs[t].Idle? <==> AfterP(c.pcs[t]) || c.pcs[t].DStore?))
      && (e.Run? && InUp(c.pcs[t]) ==>
          && (n.pcs[t].Idle? || InUp(n.pcs[t])) && (n.pcs[t].Idle? <==> c.pcs[t].UUnlock?)
          && (CS.BeforeV(n.pcs[t]) <==> CS.BeforeV(c.pcs[t]) && !c.pcs[t].UStore?))
  {
    CS.OthersResume(c, t, e);
  }

  lemma CsCall(c: CS.State, t: nat)
    requires CS.Enabled(c, t, CS.CallDown)
    ensures t < |CS.Next(c, t, CS.CallDown).pcs| && InDown(CS.Next(c, t, CS.CallDown).pcs[t])
  {
  }

  ghost predicate OthersOnlyResume(s: State, n: State, t: nat) {
    && Shape(s) && Shape(n) && |s.bb| == |n.bb| && t < |s.bb|
    && forall u :: 0 <= u < |s.bb| && u != t ==>
         && (n.bb[u] == s.bb[u] || n.bb[u] == Resume(s.bb[u]))
         && (n.empty.pcs[u] == s.empty.pcs[u] || n.empty.pcs[u] == CS.Resume(s.empty.pcs[u]))
         && (n.full.pcs[u] == s.full.pcs[u] || n.full.pcs[u] == CS.Resume(s.full.pcs[u]))
  }

  // Waking up moves no credit and breaks no link.
  lemma OthersKeep(s: State, n: State, t: nat)
    requires OthersOnlyResume(s, n, t) && Linked(s)
    requires LinkedOne(n.bb[t], n.empty.pcs[t], n.full.pcs[t])
    ensures Linked(n)
    ensures AllCredits(n) == AllCredits(s)[t := CreditsOf(n.bb[t], n.empty.pcs[t], n.full.pcs[t])]
  {
    forall u | 0 <= u < |s.bb| && u != t
      ensures AllCredits(n)[u] == AllCredits(s)[u] && LinkedOne(n.bb[u], n.empty.pcs[u], n.full.pcs[u])
    {
      assert LinkedOne(s.bb[u], s.empty.pcs[u], s.full.pcs[u]);
    }
  }

  lemma LinksOfCall(s: State, t: nat, e: Event)
    requires Enabled(s, t, e) && Sems(s) && Linked(s)
    requires e.Run? ==> s.bb[t].PEmpty? || s.bb[t].CEmpty? || s.bb[t].PFull? || s.bb[t].CFull?
    ensures var n := Next(s, t, e);
      Sems(n) && OthersOnlyResume(s, n, t) && LinkedOne(n.bb[t], n.empty.pcs[t], n.full.pcs[t])
  {
    hide CS.Inv;
    assert LinkedOne(s.bb[t], s.empty.pcs[t], s.full.pcs[t]);
    var call := if e.Run? then CS.Run else CS.CallDown;
    if e.Produce? { CsCall(s.empty, t); }
    if e.Consume? { CsCall(s.full, t); }
    if e.Produce? || (e.Run? && (s.bb[t].PEmpty? || s.bb[t].CEmpty?)) {
      CsStep(s.empty, t, call);
      CS.InvNext(s.empty, t, call);
    } else {
      CsStep(s.full, t, call);
      CS.InvNext(s.full, t, call);
    }
  }

  lemma LinksOfBody(s: State, t: nat)
    requires Enabled(s, t, Run) && Sems(s) && Linked(s)
    requires !s.bb[t].PEmpty? && !s.bb[t].CEmpty? && !s.bb[t].PFull? && !s.bb[t].CFull?
    ensures var n := Next(s, t, Run);
      Sems(n) && OthersOnlyResume(s, n, t) && LinkedOne(n.bb[t], n.empty.pcs[t], n.full.pcs[t])
  {
    hide CS.Inv;
    assert LinkedOne(s.bb[t], s.empty.pcs[t], s.full.pcs[t]);
    if s.bb[t].PRelease? {
      CsStep(s.full, t, CS.CallUp);
      CS.InvNext(s.full, t, CS.CallUp);
    } else if s.bb[t].CRelease? {
      CsStep(s.empty, t, CS.CallUp);
      CS.InvNext(s.empty, t, CS.CallUp);
    }
  }

  lemma Links(s: State, t: nat, e: Event)
    requires Inv(s) && Enabled(s, t, e)
    ensures var n := Next(s, t, e);
      && Sems(n) && Shape(n) && Linked(n)
      && AllCredits(n) == AllCredits(s)[t := CreditsOf(n.bb[t], n.empty.pcs[t], n.full.pcs[t])]
  {
    if e.Run? && !s.bb[t].PEmpty? && !s.bb[t].CEmpty? && !s.bb[t].PFull? && !s.bb[t].CFull? {
      LinksOfBody(s, t);
    } else {
      LinksOfCall(s, t, e);
    }
    OthersKeep(s, Next(s, t, e), t);
  }

  lemma AccountsNext(s: State, t: nat, e: Event)
    requires Inv(s) && Enabled(s, t, e)
    ensures Shape(Next(s, t, e)) && Accounts(Next(s, t, e))
  {
    var n := Next(s, t, e);
    Links(s, t, e);
    SumUpdate(AllCredits(s), t, CreditsOf(n.bb[t], n.empty.pcs[t], n.full.pcs[t]));
    assert AllCredits(s)[t] == CreditsOf(s.bb[t], s.empty.pcs[t], s.full.pcs[t]);
    Balance(s, t, e);
  }

  // The step moves t's own credits exactly as it moves the histories.
  ghost predicate Balanced(s: State, n: State, t: nat)
    requires Shape(s) && Shape(n) && t < |s.bb| && t < |n.bb|
  {
    var c, d := CreditsOf(s.bb[t], s.empty.pcs[t], s.full.pcs[t]), CreditsOf(n.bb[t], n.empty.pcs[t], n.full.pcs[t]);
    && n.empty.downs - |n.produced| == s.empty.downs - |s.produced| - One(c.tookEmpty) + One(d.tookEmpty)
    && n.full.ups - |n.produced| == s.full.ups - |s.produced| + One(c.owesFull) - One(d.owesFull)
    && n.full.downs - |n.consumed| == s.full.downs - |s.consumed| - One(c.tookFull) + One(d.tookFull)
    && n.empty.ups - |n.consumed| == s.empty.ups - |s.consumed| + One(c.owesEmpty) - One(d.owesEmpty)
  }

  lemma BalanceOfStart(s: State, t: nat, e: Event)
    requires Enabled(s, t, e) && Linked(s) && !e.Run?
    ensures Shape(Next(s, t, e)) && Balanced(s, Next(s, t, e), t)
  {
    assert LinkedOne(s.bb[t], s.empty.pcs[t], s.full.pcs[t]);
    if e.Produce? { CsStep(s.empty, t, CS.CallDown); } else { CsStep(s.full, t, CS.CallDown); }
  }

  lemma BalanceOfEmpty(s: State, t: nat)
    requires Enabled(s, t, Run) && Linked(s) && (s.bb[t].PEmpty? || s.bb[t].CEmpty?)
    ensures Shape(Next(s, t, Run)) && Balanced(s, Next(s, t, Run), t)
  {
    assert LinkedOne(s.bb[t], s.empty.pcs[t], s.full.pcs[t]);
    CsStep(s.empty, t, CS.Run);
  }

  lemma BalanceOfFull(s: State, t: nat)
    requires Enabled(s, t, Run) && Linked(s) && (s.bb[t].PFull? || s.bb[t].CFull?)
    ensures Shape(Next(s, t, Run)) && Balanced(s, Next(s, t, Run), t)
  {
    assert LinkedOne(s.bb[t], s.empty.pcs[t], s.full.pcs[t]);
    CsStep(s.full, t, CS.Run);
  }

  lemma BalanceOfRelease(s: State, t: nat)
    requires Enabled(s, t, Run) && Linked(s) && (s.bb[t].PRelease? || s.bb[t].CRelease?)
    ensures Shape(Next(s, t, Run)) && Balanced(s, Next(s, t, Run), t)
  {
    assert LinkedOne(s.bb[t], s.empty.pcs[t], s.full.pcs[t]);
    if s.bb[t].PRelease? { CsStep(s.full, t, CS.CallUp); } else { CsStep(s.empty, t, CS.CallUp); }
  }

  lemma BalanceOfBody(s: State, t: nat)
    requires Enabled(s, t, Run) && Linked(s) && !s.bb[t].PRelease? && !s.bb[t].CRelease?
    requires !s.bb[t].PEmpty? && !s.bb[t].CEmpty? && !s.bb[t].PFull? && !s.bb[t].CFull?
    ensures Shape(Next(s, t, Run)) && Balanced(s, Next(s, t, Run), t)
  {
    assert Next(s, t, Run).empty == s.empty && Next(s, t, Run).full == s.full;
  }

  lemma Balance(s: State, t: nat, e: Event)
    requires Enabled(s, t, e) && Linked(s)
    ensures Shape(Next(s, t, e)) && Balanced(s, Next(s, t, e), t)
  {
    if !e.Run? { BalanceOfStart(s, t, e); }
    else if s.bb[t].PEmpty? || s.bb[t].CEmpty? { BalanceOfEmpty(s, t); }
    else if s.bb[t].PFull? || s.bb[t].CFull? { BalanceOfFull(s, t); }
    else if s.bb[t].PRelease? || s.bb[t].CRelease? { BalanceOfRelease(s, t); }
    else { BalanceOfBody(s, t); }
  }

  // ---- The mutex ----

  lemma Moved(bb: seq<BPC>, t: nat, b: BPC)
    requires t < |bb|
    ensures Insides(bb[t := b]) == Insides(bb)[t := b.Inside()]
    ensures MutexWaits(bb[t := b]) == MutexWaits(bb)[t := b.Waits()]
    ensures Insides(bb)[t := bb[t].Inside()] == Insides(bb)
    ensures MutexWaits(bb)[t := bb[t].Waits()] == MutexWaits(bb)
  {
  }

  lemma MutexDown(s: State, t: nat)
    requires Enabled(s, t, Run) && Mutex(s) && (s.bb[t].PMutex? || s.bb[t].CMutex?)
    ensures Mutex(Next(s, t, Run))
  {
    Moved(s.bb, t, Next(s, t, Run).bb[t]);
    TokenDown(s.mutex, Insides(s.bb), MutexWaits(s.bb), true, t);
  }

  lemma MutexUp(s: State, t: nat)
    requires Enabled(s, t, Run) && Mutex(s) && (s.bb[t].PRelease? || s.bb[t].CRelease?)
    ensures Mutex(Next(s, t, Run))
  {
    var ins, waits, r := Insides(s.bb), MutexWaits(s.bb), UpB(s.mutex).1;
    assert ins[t] && !waits[t];
    TokenUp(s.mutex, ins, waits, true, t);
    if r.Woke? {
      assert s.bb[r.t].Waits();
      Moved(s.bb, r.t, Resume(s.bb[r.t]));
    }
    Moved(Wake(s.bb, r), t, Next(s, t, Run).bb[t]);
  }

  lemma MutexSame(s: State, t: nat, e: Event)
    requires Enabled(s, t, e) && Mutex(s)
    requires e.Run? ==> !s.bb[t].PRelease? && !s.bb[t].CRelease? && !s.bb[t].PMutex? && !s.bb[t].CMutex?
    ensures Mutex(Next(s, t, e))
  {
    Moved(s.bb, t, Next(s, t, e).bb[t]);
  }

  lemma MutexNext(s: State, t: nat, e: Event)
    requires Enabled(s, t, e) && Mutex(s)
    ensures Mutex(Next(s, t, e))
  {
    if e.Run? && (s.bb[t].PMutex? || s.bb[t].CMutex?) { MutexDown(s, t); }
    else if e.Run? && (s.bb[t].PRelease? || s.bb[t].CRelease?) { MutexUp(s, t); }
    else { MutexSame(s, t, e); }
  }

  // ---- The ring ----

  // A thread about to store has a free slot; a thread about to load has an item.
  lemma Room(s: State, t: nat)
    requires Inv(s) && t < |s.bb|
    ensures s.bb[t].PStore? || s.bb[t].PAdvance? ==> |s.produced| - |s.consumed| < N
    ensures s.bb[t].CLoad? || s.bb[t].CClear? || s.bb[t].CAdvance? ==> |s.consumed| < |s.produced|
  {
    var c := AllCredits(s);
    SumUpdate(c, t, c[t]);
  }

  lemma OneInside(s: State, t: nat)
    requires Inv(s) && t < |s.bb| && s.bb[t].Inside()
    ensures s.mutex.s == 0
    ensures forall u :: 0 <= u < |s.bb| && u != t ==> !s.bb[u].Inside()
  {
    var ins := Insides(s.bb);
    assert ins[t];
    forall u | 0 <= u < |s.bb| && u != t ensures !s.bb[u].Inside() {
      assert ins[u] == s.bb[u].Inside();
    }
  }

  lemma ModApart(a: int, b: int)
    requires 0 <= a < b < a + N
    ensures a % N != b % N
  {
  }

  lemma ModNext(a: int)
    requires 0 <= a
    ensures (a % N + 1) % N == (a + 1) % N
  {
  }

  // Storing hits no unread item.
  lemma StoreNext(s: State, t: nat)
    requires Inv(s) && Enabled(s, t, Run) && s.bb[t].PStore?
    ensures forall k :: |s.consumed| <= k < |s.produced| ==> k % N != s.inx
    ensures Ring(Next(s, t, Run)) && Locals(Next(s, t, Run))
  {
    Room(s, t);
    OneInside(s, t);
    forall k | |s.consumed| <= k < |s.produced| ensures k % N != s.inx { ModApart(k, |s.produced|); }
    assert LocalOk(s, s.bb[t]);
  }

  lemma ProducedNext(s: State, t: nat)
    requires Inv(s) && Enabled(s, t, Run) && s.bb[t].PAdvance?
    ensures Ring(Next(s, t, Run)) && Locals(Next(s, t, Run))
  {
    Room(s, t);
    OneInside(s, t);
    ModNext(|s.produced|);
    assert LocalOk(s, s.bb[t]);
    var n := Next(s, t, Run);
    assert forall k :: 0 <= k < |s.produced| ==> n.produced[k] == s.produced[k];
  }

  lemma LoadNext(s: State, t: nat)
    requires Inv(s) && Enabled(s, t, Run) && s.bb[t].CLoad?
    ensures Ring(Next(s, t, Run)) && Locals(Next(s, t, Run))
  {
    Room(s, t);
    OneInside(s, t);
    assert LocalOk(s, s.bb[t]);
  }

  lemma ClearNext(s: State, t: nat)
    requires Inv(s) && Enabled(s, t, Run) && s.bb[t].CClear?
    ensures Ring(Next(s, t, Run)) && Locals(Next(s, t, Run))
  {
    OneInside(s, t);
    assert LocalOk(s, s.bb[t]);
    forall k | |s.consumed| < k < |s.produced| ensures k % N != s.outx { ModApart(|s.consumed|, k); }
  }

  lemma ConsumedNext(s: State, t: nat)
    requires Inv(s) && Enabled(s, t, Run) && s.bb[t].CAdvance?
    ensures Ring(Next(s, t, Run)) && Locals(Next(s, t, Run))
  {
    OneInside(s, t);
    ModNext(|s.consumed|);
    assert LocalOk(s, s.bb[t]);
    var n := Next(s, t, Run);
    assert n.consumed == s.produced[..|s.consumed|] + [s.produced[|s.consumed|]] == s.produced[..|n.consumed|];
  }

  predicate TouchesBuffer(b: BPC) { b.PStore? || b.PAdvance? || b.CLoad? || b.CClear? || b.CAdvance? }

  predicate InPlace(s: State)
    requires Shape(s)
  {
    |s.consumed| < |s.produced| ==> s.arr[s.outx] == s.produced[|s.consumed|]
  }

  ghost predicate SameBuffer(s: State, n: State) {
    && Shape(s) && Shape(n) && |n.bb| == |s.bb|
    && n.arr == s.arr && n.inx == s.inx && n.outx == s.outx && n.produced == s.produced && n.consumed == s.consumed
  }

  // If the buffer is untouched and whoever is newly inside finds the oldest item in place, all is kept.
  lemma BufferKept(s: State, n: State)
    requires SameBuffer(s, n) && Ring(s) && Locals(s)
    requires forall u :: 0 <= u < |s.bb| && n.bb[u].Inside() ==>
      (s.bb[u] == n.bb[u] || (InPlace(s) && (n.bb[u].PStore? || n.bb[u].CLoad?)))
    requires n.mutex.s == 1 ==> InPlace(s)
    ensures Ring(n) && Locals(n)
  {
    forall u | 0 <= u < |n.bb| && n.bb[u].Inside() ensures LocalOk(n, n.bb[u]) {
      if s.bb[u] == n.bb[u] { assert LocalOk(s, s.bb[u]); }
    }
  }

  lemma ReleaseNext(s: State, t: nat)
    requires Inv(s) && Enabled(s, t, Run) && (s.bb[t].PRelease? || s.bb[t].CRelease?) && Shape(Next(s, t, Run))
    ensures Ring(Next(s, t, Run)) && Locals(Next(s, t, Run))
  {
    assert LocalOk(s, s.bb[t]);
    BufferKept(s, Next(s, t, Run));
  }

  lemma RestNext(s: State, t: nat, e: Event)
    requires Inv(s) && Enabled(s, t, e) && (e.Run? ==> !TouchesBuffer(s.bb[t]) && !s.bb[t].PRelease? && !s.bb[t].CRelease?)
    requires Shape(Next(s, t, e))
    ensures Ring(Next(s, t, e)) && Locals(Next(s, t, e))
  {
    var n := Next(s, t, e);
    assert n.bb == s.bb[t := n.bb[t]] && (n.mutex == s.mutex || n.mutex.s == 0);
    assert n.bb[t].Inside() ==> s.mutex.s == 1 && (n.bb[t].PStore? || n.bb[t].CLoad?);
    assert s.mutex.s == 1 ==> LocalOk(s, Outside);
    BufferKept(s, n);
  }

  lemma InvNext(s: State, t: nat, e: Event)
    requires Inv(s) && Enabled(s, t, e)
    ensures Inv(Next(s, t, e))
  {
    Links(s, t, e);
    AccountsNext(s, t, e);
    MutexNext(s, t, e);
    if e.Run? && s.bb[t].PStore? { StoreNext(s, t); }
    else if e.Run? && s.bb[t].PAdvance? { ProducedNext(s, t); }
    else if e.Run? && s.bb[t].CLoad? { LoadNext(s, t); }
    else if e.Run? && s.bb[t].CClear? { ClearNext(s, t); }
    else if e.Run? && s.bb[t].CAdvance? { ConsumedNext(s, t); }
    else if e.Run? && (s.bb[t].PRelease? || s.bb[t].CRelease?) { ReleaseNext(s, t); }
    else { RestNext(s, t, e); }
  }

  // ---- Runs ----

  datatype Step = Step(t: nat, e: Event)

  ghost predicate IsRun(tr: seq<State>, steps: seq<Step>) {
    && |tr| == |steps| + 1 && Init(tr[0])
    && forall i :: 0 <= i < |steps| ==>
         Enabled(tr[i], steps[i].t, steps[i].e) && tr[i + 1] == Next(tr[i], steps[i].t, steps[i].e)
  }

  lemma {:induction false} SumNone(q: seq<Credits>)
    requires forall i :: 0 <= i < |q| ==> q[i] == Credits(false, false, false, false)
    ensures Sum(q) == Totals(0, 0, 0, 0)
  {
    if q != [] { SumNone(q[..|q| - 1]); }
  }

  lemma InitInv(s: State)
    requires Init(s)
    ensures Inv(s)
  {
    var n: nat :| InitFor(s, n);
    CS.InitInv(n, N);
    CS.InitInv(n, 0);
    SumNone(AllCredits(s));
  }

  lemma {:induction false} RunInvariant(tr: seq<State>, steps: seq<Step>, i: nat)
    requires IsRun(tr, steps) && i < |tr|
    ensures Inv(tr[i])
  {
    if i == 0 {
      InitInv(tr[0]);
    } else {
      RunInvariant(tr, steps, i - 1);
      assert tr[i - 1 + 1] == Next(tr[i - 1], steps[i - 1].t, steps[i - 1].e);
      InvNext(tr[i - 1], steps[i - 1].t, steps[i - 1].e);
    }
  }

  // Items leave in exactly the order they entered, and never more than N are in flight.
  lemma FirstInFirstOut(tr: seq<State>, steps: seq<Step>, i: nat)
    requires IsRun(tr, steps) && i < |tr|
    ensures tr[i].consumed <= tr[i].produced
    ensures |tr[i].produced| - |tr[i].consumed| <= N
  {
    RunInvariant(tr, steps, i);
  }

  // A producer never overwrites an item that has not been read.
  lemma NoOverwrite(tr: seq<State>, steps: seq<Step>, i: nat)
    requires IsRun(tr, steps) && i < |steps| && steps[i].e.Run? && steps[i].t < |tr[i].bb| && tr[i].bb[steps[i].t].PStore?
    ensures forall k :: |tr[i].consumed| <= k < |tr[i].produced| ==> k % N != tr[i].inx
  {
    RunInvariant(tr, steps, i);
    assert Enabled(tr[i], steps[i].t, steps[i].e);
    StoreNext(tr[i], steps[i].t);
  }

  // A consumer always finds an item, and it is the oldest unread one.
  lemma LoadsTheOldest(tr: seq<State>, steps: seq<Step>, i: nat)
    requires IsRun(tr, steps) && i < |steps| && steps[i].e.Run? && steps[i].t < |tr[i].bb| && tr[i].bb[steps[i].t].CLoad?
    ensures |tr[i].consumed| < |tr[i].produced|
    ensures tr[i + 1].bb[steps[i].t] == CClear(tr[i].produced[|tr[i].consumed|])
  {
    RunInvariant(tr, steps, i);
    assert Enabled(tr[i], steps[i].t, steps[i].e) && tr[i + 1] == Next(tr[i], steps[i].t, steps[i].e);
    Room(tr[i], steps[i].t);
    OneInside(tr[i], steps[i].t);
    assert LocalOk(tr[i], tr[i].bb[steps[i].t]);
  }

  // ---- Which items ----

  // The item a producer has been given and not yet put in.
  function InHand(b: BPC): seq<int> {
    match b
    case PEmpty(v) => [v]
    case PMutex(v) => [v]
    case PMutexWait(v) => [v]
    case PStore(v) => [v]
    case PAdvance(v) => [v]
    case _ => []
  }

  // What a step puts in the buffer.
  function Added(s: State, n: State): seq<int> {
    if |s.produced| <= |n.produced| then n.produced[|s.produced|..] else []
  }

  function Given(e: Event): seq<int> { if e.Produce? then [e.item] else [] }

  // The items handed to thread u's producer, and the items u put in the buffer, in the first i steps.
  function Handed(steps: seq<Step>, u: nat, i: nat): seq<int>
    requires i <= |steps|
  {
    if i == 0 then [] else Handed(steps, u, i - 1) + if steps[i - 1].t == u then Given(steps[i - 1].e) else []
  }

  function StoredBy(tr: seq<State>, steps: seq<Step>, u: nat, i: nat): seq<int>
    requires i <= |steps| && |tr| == |steps| + 1
  {
    if i == 0 then []
    else StoredBy(tr, steps, u, i - 1) + if steps[i - 1].t == u then Added(tr[i - 1], tr[i]) else []
  }

  lemma StepHands(s: State, t: nat, e: Event, u: nat)
    requires Enabled(s, t, e) && u < |s.bb|
    ensures var n := Next(s, t, e);
      && |n.bb| == |s.bb| && s.produced <= n.produced
      && if u == t then InHand(s.bb[u]) + Given(e) == Added(s, n) + InHand(n.bb[u]) else InHand(n.bb[u]) == InHand(s.bb[u])
  {
  }

  lemma Handover(h: seq<int>, st: seq<int>, hand: seq<int>, given: seq<int>, added: seq<int>, hand': seq<int>)
    requires h == st + hand && hand + given == added + hand'
    ensures h + given == st + added + hand'
  {
    assert st + hand + given == st + (hand + given);
    assert st + (added + hand') == st + added + hand';
  }

  // Every item a producer is handed goes into the buffer exactly once and in the order it was handed over; at most
  // the last one is still on its way.
  lemma {:induction false} EveryItemOnce(tr: seq<State>, steps: seq<Step>, u: nat, i: nat)
    requires IsRun(tr, steps) && i < |tr| && u < |tr[0].bb|
    ensures |tr[i].bb| == |tr[0].bb| && |InHand(tr[i].bb[u])| <= 1
    ensures Handed(steps, u, i) == StoredBy(tr, steps, u, i) + InHand(tr[i].bb[u])
  {
    hide Next, InHand, Added, Given, Enabled;
    if i == 0 {
      NothingInHand(tr[0], u);
    } else {
      EveryItemOnce(tr, steps, u, i - 1);
      var s, t, e := tr[i - 1], steps[i - 1].t, steps[i - 1].e;
      assert Enabled(s, t, e) && tr[i - 1 + 1] == Next(s, t, e);
      StepHands(s, t, e, u);
      InHandIsOne(tr[i].bb[u]);
      if t == u {
        Handover(Handed(steps, u, i - 1), StoredBy(tr, steps, u, i - 1), InHand(s.bb[u]), Given(e), Added(s, tr[i]),
                 InHand(tr[i].bb[u]));
      }
    }
  }

  lemma InHandIsOne(b: BPC)
    ensures |InHand(b)| <= 1
  {
  }

  lemma NothingInHand(s: State, u: nat)
    requires Init(s) && u < |s.bb|
    ensures InHand(s.bb[u]) == []
  {
  }

  // ---- The order of service at the mutex ----

  function Steppers(steps: seq<Step>): seq<nat> {
    seq(|steps|, i requires 0 <= i < |steps| => steps[i].t)
  }

  function Waiters(tr: seq<State>): seq<seq<bool>> {
    seq(|tr|, i requires 0 <= i < |tr| => MutexWaits(tr[i].bb))
  }

  function Queues(tr: seq<State>): seq<seq<nat>> {
    seq(|tr|, i requires 0 <= i < |tr| => tr[i].mutex.queue)
  }

  lemma StepInOrder(s: State, t: nat, e: Event)
    requires Enabled(s, t, e) && Mutex(s)
    ensures InOrder(s.mutex.queue, MutexWaits(s.bb), Next(s, t, e).mutex.queue, MutexWaits(Next(s, t, e).bb), t)
  {
    hide InOrder;
    var n := Next(s, t, e);
    if e.Run? && (s.bb[t].PRelease? || s.bb[t].CRelease?) {
      ReleaseInOrder(s, t);
    } else {
      Moved(s.bb, t, n.bb[t]);
      OrderSame(s.mutex.queue, MutexWaits(s.bb), t);
      if e.Run? && (s.bb[t].PMutex? || s.bb[t].CMutex?) { OrderDown(s.mutex, MutexWaits(s.bb), t); }
    }
  }

  lemma ReleaseInOrder(s: State, t: nat)
    requires Enabled(s, t, Run) && Mutex(s) && (s.bb[t].PRelease? || s.bb[t].CRelease?)
    ensures InOrder(s.mutex.queue, MutexWaits(s.bb), Next(s, t, Run).mutex.queue, MutexWaits(Next(s, t, Run).bb), t)
  {
    hide InOrder;
    var waits, r := MutexWaits(s.bb), UpB(s.mutex).1;
    OrderUp(s.mutex, waits, t);
    if r.Woke? {
      assert r.t in s.mutex.queue && waits[r.t];
      Moved(s.bb, r.t, Resume(s.bb[r.t]));
    }
    Moved(Wake(s.bb, r), t, Next(s, t, Run).bb[t]);
  }

  // First come, first served at the mutex, over every stretch of every run.
  lemma ServedInOrder(tr: seq<State>, steps: seq<Step>, i: nat, j: nat)
    requires IsRun(tr, steps) && i <= j < |tr|
    ensures tr[i].mutex.queue + AllSlept(Waiters(tr), Steppers(steps), i, j)
         == AllWoken(Waiters(tr), i, j) + tr[j].mutex.queue
    ensures tr[0].mutex.queue == []
  {
    hide InOrder, Next, Enabled;
    forall k | i <= k < j
      ensures InOrder(Queues(tr)[k], Waiters(tr)[k], Queues(tr)[k + 1], Waiters(tr)[k + 1], Steppers(steps)[k])
    {
      RunInvariant(tr, steps, k);
      StepInOrder(tr[k], steps[k].t, steps[k].e);
    }
    OrderOfService(Queues(tr), Waiters(tr), Steppers(steps), i, j);
  }
}
