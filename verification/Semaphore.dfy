// User-level semaphores (uthread.c): binary semaphores with FIFO hand-off.
module BinarySemaphore {
  import opened Sequences

  const MAX_UTHREADS: nat := 64

  // A binary semaphore: its value and the threads asleep on it, oldest first.
  datatype BSem = BSem(s: int, queue: seq<nat>)

  ghost predicate Wf(b: BSem) {
    && 0 <= b.s <= 1
    && NoDup(b.queue)
    && (b.queue != [] ==> b.s == 0)
  }

  datatype UpOutcome = AlreadyUp | Raised | Woke(t: nat)

  function DownB(b: BSem, t: nat): BSem {
    if b.s != 0 then BSem(0, b.queue) else BSem(b.s, b.queue + [t])
  }

  function UpB(b: BSem): (BSem, UpOutcome) {
    if b.queue == [] && b.s == 1 then (b, AlreadyUp)
    else if b.queue == [] then (BSem(1, []), Raised)
    else (BSem(b.s, b.queue[1..]), Woke(b.queue[0]))
  }

  // The token discipline: while `live` there is exactly one token, either in the semaphore or
  // with one holder; the queue is exactly the waiting threads.
  ghost predicate Token(b: BSem, holds: seq<bool>, waits: seq<bool>, live: bool) {
    && Wf(b) && |holds| == |waits|
    && (b.s == 1 ==> live)
    && ((b.s == 1 || !live) ==> forall t :: 0 <= t < |holds| ==> !holds[t])
    && (b.s == 0 && live ==> exists t :: 0 <= t < |holds| && holds[t])
    && (forall t, u :: 0 <= t < u < |holds| ==> !(holds[t] && holds[u]))
    && (forall t :: 0 <= t < |waits| ==> (waits[t] <==> t in b.queue))
    && (forall t :: t in b.queue ==> t < |waits|)
  }

  lemma TokenDown(b: BSem, holds: seq<bool>, waits: seq<bool>, live: bool, t: nat)
    requires Token(b, holds, waits, live) && t < |holds| && !waits[t] && !holds[t]
    ensures b.s == 1 ==> Token(DownB(b, t), holds[t := true], waits, live)
    ensures b.s == 0 ==> Token(DownB(b, t), holds, waits[t := true], live)
  {
    if b.s == 1 {
      assert holds[t := true][t];
    }
  }

  // A holder's bsem_up never takes the early return, and hands the token to the oldest waiter.
  lemma TokenUp(b: BSem, holds: seq<bool>, waits: seq<bool>, live: bool, t: nat)
    requires Token(b, holds, waits, live) && t < |holds| && holds[t] && !waits[t]
    ensures !UpB(b).1.AlreadyUp? && live
    ensures if b.queue == [] then UpB(b) == (BSem(1, []), Raised) else UpB(b) == (BSem(0, b.queue[1..]), Woke(b.queue[0]))
    ensures UpB(b).1.Raised? ==> Token(UpB(b).0, holds[t := false], waits, live)
    ensures UpB(b).1.Woke? ==>
      var u := UpB(b).1.t;
      && u < |waits| && u != t && waits[u]
      && Token(UpB(b).0, holds[u := true][t := false], waits[u := false], live)
  {
    if UpB(b).1.Woke? {
      var u := UpB(b).1.t;
      assert u in b.queue;
      assert holds[u := true][t := false][u];
      assert forall v :: v in b.queue[1..] <==> v in b.queue && v != u;
    }
  }

  // The token comes into existence in t's hands, or is used up there.
  lemma TokenCreate(b: BSem, holds: seq<bool>, waits: seq<bool>, t: nat)
    requires Token(b, holds, waits, false) && t < |holds|
    ensures Token(b, holds[t := true], waits, true)
  {
    assert holds[t := true][t];
  }

  lemma TokenConsume(b: BSem, holds: seq<bool>, waits: seq<bool>, t: nat)
    requires Token(b, holds, waits, true) && t < |holds| && holds[t]
    ensures Token(b, holds[t := false], waits, false)
  {
  }

  // ---- The order of service ----

  // The thread that goes to sleep at a step of thread t, and the one that is woken, as the threads' positions
  // show it: w and w' say who waits before and after the step.
  function Slept(w: seq<bool>, w': seq<bool>, t: nat): seq<nat> {
    if t < |w| && t < |w'| && !w[t] && w'[t] then [t] else []
  }

  ghost function Woken(w: seq<bool>, w': seq<bool>): seq<nat> {
    if exists u: nat :: u < |w| && u < |w'| && w[u] && !w'[u]
    then var u: nat :| u < |w| && u < |w'| && w[u] && !w'[u]; [u]
    else []
  }

  // At a step of t only t falls asleep, at most one thread wakes, and they do so at the ends of the queue.
  ghost predicate InOrder(q: seq<nat>, w: seq<bool>, q': seq<nat>, w': seq<bool>, t: nat) {
    && |w| == |w'| && q + Slept(w, w', t) == Woken(w, w') + q'
    && (forall u: nat :: u < |w| && w[u] && !w'[u] ==> Woken(w, w') == [u])
    && (forall u: nat :: u < |w| && w'[u] && u != t ==> w[u])
  }

  lemma OrderSame(q: seq<nat>, w: seq<bool>, t: nat)
    ensures InOrder(q, w, q, w, t)
  {
    assert q + [] == [] + q;
  }

  lemma OrderDown(b: BSem, w: seq<bool>, t: nat)
    requires 0 <= b.s <= 1 && t < |w| && !w[t]
    ensures InOrder(b.queue, w, DownB(b, t).queue, if b.s == 1 then w else w[t := true], t)
  {
    if b.s == 1 { OrderSame(b.queue, w, t); } else { assert [] + (b.queue + [t]) == b.queue + [t]; }
  }

  lemma OrderUp(b: BSem, w: seq<bool>, t: nat)
    requires forall u :: u in b.queue ==> u < |w| && w[u]
    requires t < |w| && !w[t]
    ensures UpB(b).1.Woke? ==> UpB(b).1.t < |w|
    ensures InOrder(b.queue, w, UpB(b).0.queue, if UpB(b).1.Woke? then w[UpB(b).1.t := false] else w, t)
  {
    if UpB(b).1.Woke? {
      var u := b.queue[0];
      assert u in b.queue;
      assert w[u] && !w[u := false][u];
      assert b.queue + [] == [u] + b.queue[1..];
    } else {
      OrderSame(b.queue, w, t);
    }
  }

  // The threads that fell asleep, and that were woken, in steps i to j - 1; ts[k] makes step k.
  function AllSlept(ws: seq<seq<bool>>, ts: seq<nat>, i: nat, j: nat): seq<nat>
    requires i <= j < |ws| == |ts| + 1
    decreases j
  {
    if i == j then [] else AllSlept(ws, ts, i, j - 1) + Slept(ws[j - 1], ws[j], ts[j - 1])
  }

  ghost function AllWoken(ws: seq<seq<bool>>, i: nat, j: nat): seq<nat>
    requires i <= j < |ws|
    decreases j
  {
    if i == j then [] else AllWoken(ws, i, j - 1) + Woken(ws[j - 1], ws[j])
  }

  // If every step keeps the order, then so does every stretch: those waiting at its start and those who came to wait
  // are woken in that order, and whoever is left is waiting at its end, still in that order.
  lemma {:induction false} OrderOfService(qs: seq<seq<nat>>, ws: seq<seq<bool>>, ts: seq<nat>, i: nat, j: nat)
    requires i <= j < |ws| == |qs| == |ts| + 1
    requires forall k :: i <= k < j ==> InOrder(qs[k], ws[k], qs[k + 1], ws[k + 1], ts[k])
    ensures qs[i] + AllSlept(ws, ts, i, j) == AllWoken(ws, i, j) + qs[j]
    decreases j
  {
    hide Slept, Woken;
    if i < j {
      OrderOfService(qs, ws, ts, i, j - 1);
      assert InOrder(qs[j - 1], ws[j - 1], qs[j - 1 + 1], ws[j - 1 + 1], ts[j - 1]);
      Joined(qs[i], AllSlept(ws, ts, i, j - 1), Slept(ws[j - 1], ws[j], ts[j - 1]),
             AllWoken(ws, i, j - 1), Woken(ws[j - 1], ws[j]), qs[j - 1], qs[j]);
    } else {
      assert qs[i] + [] == [] + qs[i];
    }
  }

  lemma Joined(q: seq<nat>, a: seq<nat>, b: seq<nat>, c: seq<nat>, d: seq<nat>, m: seq<nat>, r: seq<nat>)
    requires q + a == c + m && m + b == d + r
    ensures q + (a + b) == (c + d) + r
  {
    assert q + (a + b) == (q + a) + b;
    assert (c + m) + b == c + (m + b);
    assert c + (d + r) == (c + d) + r;
  }

  datatype TState = Unused | Sleeping | Runnable | Running

  // n distinct numbers below m: n <= m.
  lemma {:induction false} Pigeonhole(q: seq<nat>, m: nat)
    requires NoDup(q) && forall i :: 0 <= i < |q| ==> q[i] < m
    ensures |q| <= m
    decreases m
  {
    if m > 0 {
      if m - 1 in q {
        var i :| 0 <= i < |q| && q[i] == m - 1;
        WithoutNoDup(q, i);
        var rest := Without(q, i);
        forall k | 0 <= k < |rest| ensures rest[k] < m - 1 {
          assert rest[k] == q[if k < i then k else k + 1];
        }
        Pigeonhole(rest, m - 1);
      } else {
        Pigeonhole(q, m - 1);
      }
    }
  }

  // The ring slot k places after `base`.
  function Slot(base: int, k: int): int {
    if base + k < MAX_UTHREADS then base + k else base + k - MAX_UTHREADS
  }

  // struct bsem with its ring of waiters, and the states of the threads it puts to sleep.
  class Bsem {
    var s: int
    var insert: nat
    var toOut: nat
    var waiting: nat
    const list: array<int>
    const state: array<TState>

    ghost function At(k: int): int
      requires 0 <= k < MAX_UTHREADS && toOut < MAX_UTHREADS && list.Length == MAX_UTHREADS
      reads list, this`toOut
    {
      list[Slot(toOut, k)]
    }

    ghost predicate Ring()
      reads this, list
    {
      && list.Length == MAX_UTHREADS && state.Length == MAX_UTHREADS
      && 0 <= s <= 1
      && insert < MAX_UTHREADS && toOut < MAX_UTHREADS && waiting <= MAX_UTHREADS
      && insert == Slot(toOut, waiting)
      && (forall k :: 0 <= k < waiting ==> 0 <= At(k) < MAX_UTHREADS)
    }

    // The waiters in the order they will be served.
    ghost function Queue(): (q: seq<nat>)
      requires Ring()
      reads this, list
      ensures |q| == waiting && forall k :: 0 <= k < waiting ==> q[k] == At(k)
    {
      seq(waiting, k requires 0 <= k < waiting && Ring() reads this, list => At(k))
    }

    ghost function Model(): BSem
      requires Ring()
      reads this, list
    {
      BSem(s, Queue())
    }

    ghost predicate Valid()
      reads this, list, state
    {
      && Ring() && Wf(Model())
      && forall k :: 0 <= k < waiting ==> state[At(k)] == Sleeping
    }

    // bsem_alloc
    constructor (state: array<TState>)
      requires state.Length == MAX_UTHREADS
      ensures Valid() && Model() == BSem(1, []) && this.state == state && fresh(list)
    {
      s, insert, toOut, waiting := 1, 0, 0, 0;
      list := new int[MAX_UTHREADS];
      this.state := state;
    }

    // bsem_down by `current`; the caller is asleep iff the result is true.
    method Down(current: nat) returns (blocked: bool)
      requires Valid() && current < MAX_UTHREADS && current !in Queue()
      modifies this`s, this`insert, this`waiting, list, state
      ensures Valid() && Model() == DownB(old(Model()), current)
      ensures blocked <==> old(s) == 0
      ensures s == 0 && Queue() == if blocked then old(Queue()) + [current] else old(Queue())
      ensures state[current] == if blocked then Sleeping else old(state[current])
      ensures forall t :: 0 <= t < MAX_UTHREADS && t != current ==> state[t] == old(state[t])
    {
      if s != 0 {
        s := 0;
        blocked := false;
        assert Queue() == old(Queue());
      } else {
        RoomForOneMore(current);
        Enqueue(current);
        state[current] := Sleeping;
        blocked := true;
      }
    }

    // bsem_down's entry in the ring of waiters.
    method Enqueue(current: nat)
      requires Ring() && current < MAX_UTHREADS && waiting < MAX_UTHREADS
      modifies this`insert, this`waiting, list
      ensures Ring() && Queue() == old(Queue()) + [current]
    {
      ghost var q := Queue();
      var ind := insert;
      list[ind] := current;
      ind := (ind + 1) % MAX_UTHREADS;
      insert := ind;
      waiting := waiting + 1;
      assert forall k :: 0 <= k < waiting - 1 ==> At(k) == q[k];
      assert At(waiting - 1) == current;
    }

    // The ring cannot overflow: its entries are distinct threads and the caller is not among them.
    lemma RoomForOneMore(current: nat)
      requires Ring() && Wf(Model()) && current < MAX_UTHREADS && current !in Queue()
      ensures waiting < MAX_UTHREADS
    {
      Pigeonhole(Queue() + [current], MAX_UTHREADS);
    }

    // bsem_up: hand the semaphore to the oldest waiter if there is one.
    method Up() returns (r: UpOutcome)
      requires Valid()
      modifies this`s, this`toOut, this`waiting, list, state
      ensures Valid() && (Model(), r) == UpB(old(Model()))
      ensures old(Queue()) != [] ==> r == Woke(old(Queue())[0]) && Queue() == old(Queue())[1..] && s == old(s)
      ensures old(Queue()) == [] ==> r == (if old(s) == 1 then AlreadyUp else Raised) && Queue() == [] && s == 1
      ensures forall t :: 0 <= t < MAX_UTHREADS ==>
        state[t] == if r == Woke(t) then Runnable else old(state[t])
    {
      ghost var q := Queue();
      if waiting == 0 && s == 1 {
        return AlreadyUp;
      } else if waiting == 0 && s == 0 {
        s := 1;
        r := Raised;
        assert Queue() == [];
      } else {
        var outInd := toOut;
        var ut := list[outInd];
        assert ut == At(0) == q[0];
        list[outInd] := 0;
        outInd := (outInd + 1) % MAX_UTHREADS;
        toOut := outInd;
        waiting := waiting - 1;
        state[ut] := Runnable;
        r := Woke(ut);
        assert forall k :: 0 <= k < waiting ==> At(k) == q[k + 1];
        assert Queue() == q[1..];
      }
    }
  }
}
