// Two-level page tables (vm.c) as values: what a page directory maps, and who owns each physical page.
module PageTable {
  import opened Sequences

  const USER: int := 0x80000           // KERNBASE in pages
  const KERNBASE: int := 0x8000_0000
  const PGSIZE: int := 4096

  // A directory or table entry: PTE_P clear, or a physical page with its permissions.
  datatype Pte = Absent | Map(frame: int, writable: bool, user: bool)

  function PDX(v: int): int { v / 1024 }

  function PTX(v: int): int { v % 1024 }

  lemma Split(v: int)
    requires 0 <= v < 1024 * 1024
    ensures 0 <= PDX(v) < 1024 && 0 <= PTX(v) < 1024 && v == 1024 * PDX(v) + PTX(v)
  {
  }

  lemma SameSlot(v: int, w: int)
    requires PDX(v) == PDX(w) && PTX(v) == PTX(w)
    ensures v == w
  {
  }

  // Every directory entry in use leads to a table of its own, and restricts nothing: PTE_W and PTE_U are set.
  ghost predicate Walkable(dir: seq<Pte>, tables: map<int, seq<Pte>>) {
    && |dir| == 1024
    && (forall d :: 0 <= d < 1024 && dir[d].Map? ==> dir[d].writable && dir[d].user)
    && (forall d :: 0 <= d < 1024 && dir[d].Map? ==> dir[d].frame in tables && |tables[dir[d].frame]| == 1024)
    && (forall d, e :: 0 <= d < e < 1024 && dir[d].Map? && dir[e].Map? ==> dir[d].frame != dir[e].frame)
  }

  // What the processor grants: both entries must be present, and both must allow the access.
  function Both(de: Pte, pte: Pte): Pte {
    if de.Map? && pte.Map? then Map(pte.frame, de.writable && pte.writable, de.user && pte.user) else Absent
  }

  // What virtual page v is mapped to, with the permissions the processor grants.
  ghost function Lookup(dir: seq<Pte>, tables: map<int, seq<Pte>>, v: int): Pte
    requires Walkable(dir, tables) && 0 <= v < 1024 * 1024
  {
    Split(v);
    if dir[PDX(v)].Map? then Both(dir[PDX(v)], tables[dir[PDX(v)].frame][PTX(v)]) else Absent
  }

  function SetPte(tables: map<int, seq<Pte>>, f: int, t: int, pte: Pte): map<int, seq<Pte>>
    requires f in tables && 0 <= t < |tables[f]|
  {
    tables[f := tables[f][t := pte]]
  }

  // Writing one table entry changes what one page is mapped to.
  lemma SetPteLookup(dir: seq<Pte>, tables: map<int, seq<Pte>>, v: int, pte: Pte, w: int)
    requires Walkable(dir, tables) && 0 <= v < 1024 * 1024 && 0 <= w < 1024 * 1024
    requires 0 <= PDX(v) < 1024 && 0 <= PTX(v) < 1024 && dir[PDX(v)].Map?
    ensures var ts := SetPte(tables, dir[PDX(v)].frame, PTX(v), pte);
            Walkable(dir, ts) && Lookup(dir, ts, w) == if w == v then pte else Lookup(dir, tables, w)
  {
    hide PDX, PTX;
    Split(v);
    Split(w);
    if PDX(v) == PDX(w) && PTX(v) == PTX(w) { SameSlot(v, w); }
  }

  function Blank(): (r: seq<Pte>)
    ensures |r| == 1024 && forall t :: 0 <= t < 1024 ==> r[t] == Absent
  {
    seq(1024, _ => Absent)
  }

  // A cleared page put into the directory maps nothing.
  lemma NewTableLookup(dir: seq<Pte>, tables: map<int, seq<Pte>>, d: int, f: int, w: int)
    requires Walkable(dir, tables) && 0 <= d < 1024 && dir[d].Absent? && 0 <= w < 1024 * 1024
    requires forall e :: 0 <= e < 1024 && dir[e].Map? ==> dir[e].frame != f
    ensures var dir', ts := dir[d := Map(f, true, true)], tables[f := Blank()];
            Walkable(dir', ts) && Lookup(dir', ts, w) == Lookup(dir, tables, w)
  {
    hide PDX, PTX;
    Split(w);
  }

  // An address space with the machine's free pages: the directory, its tables, the free list, the virtual
  // page each physical user page is mapped at, and the byte each page was last filled with.
  datatype Space = Space(dir: seq<Pte>, tables: map<int, seq<Pte>>, free: seq<int>, data: map<int, int>, fill: map<int, int>)

  ghost predicate Sound(m: Space) {
    Walkable(m.dir, m.tables)
  }

  ghost function At(m: Space, v: int): Pte
    requires Sound(m) && 0 <= v < 1024 * 1024
  {
    Lookup(m.dir, m.tables, v)
  }

  // Two spaces map the same pages to the same places.
  ghost predicate SameMap(m: Space, m': Space) {
    Sound(m) && Sound(m') && forall w :: 0 <= w < 1024 * 1024 ==> At(m', w) == At(m, w)
  }

  // They differ in page v, which m' maps to pte.
  ghost predicate OnePage(m: Space, m': Space, v: int, pte: Pte) {
    Sound(m) && Sound(m') && forall w :: 0 <= w < 1024 * 1024 ==> At(m', w) == if w == v then pte else At(m, w)
  }

  // The directory's tables, the user pages and the free list share no physical page.
  ghost predicate Owned(m: Space) {
    && Sound(m) && NoDup(m.free)
    && (forall d :: 0 <= d < 1024 && m.dir[d].Map? ==> m.dir[d].frame !in m.free && m.dir[d].frame !in m.data)
    && (forall f :: f in m.data ==> f !in m.free && 0 <= m.data[f] < USER)
    && (forall f :: f in m.data ==> At(m, m.data[f]).Map? && At(m, m.data[f]).frame == f)
    && (forall v :: 0 <= v < USER && At(m, v).Map? ==> var f := At(m, v).frame; f in m.data && m.data[f] == v)
  }

  // ---- Moves that keep the ownership ----

  // f is neither free, nor mapped, nor a table.
  ghost predicate Loose(m: Space, f: int) {
    f !in m.free && f !in m.data && forall d :: 0 <= d < |m.dir| && m.dir[d].Map? ==> m.dir[d].frame != f
  }

  lemma PopFree(m: Space)
    requires Owned(m) && |m.free| > 0
    ensures var m' := m.(free := m.free[1..]); Owned(m') && Loose(m', m.free[0]) && SameMap(m, m')
  {
    hide Lookup, Walkable;
    WalkableSize(m.dir, m.tables);
    var m' := m.(free := m.free[1..]);
    assert SameMap(m, m');
  }

  lemma PushFree(m: Space, f: int)
    requires Owned(m) && Loose(m, f)
    ensures var m' := m.(free := [f] + m.free); Owned(m') && SameMap(m, m')
  {
    hide Lookup, Walkable;
    WalkableSize(m.dir, m.tables);
    var m' := m.(free := [f] + m.free);
    assert SameMap(m, m');
  }

  // What holds of m holds of any space that differs in fill alone.
  lemma FillKeeps(m: Space, fill: map<int, int>)
    requires Sound(m)
    ensures var m' := m.(fill := fill); SameMap(m, m') && (Owned(m) ==> Owned(m'))
  {
    hide Lookup, Walkable;
  }

  lemma AddTable(m: Space, d: int, f: int)
    requires Owned(m) && Loose(m, f) && 0 <= d < 1024 && m.dir[d].Absent?
    ensures var m' := m.(dir := m.dir[d := Map(f, true, true)], tables := m.tables[f := Blank()]);
      Owned(m') && SameMap(m, m')
  {
    hide Lookup, Walkable, PDX, PTX;
    WalkableSize(m.dir, m.tables);
    var m' := m.(dir := m.dir[d := Map(f, true, true)], tables := m.tables[f := Blank()]);
    NewTableLookup(m.dir, m.tables, d, f, 0);
    forall w | 0 <= w < 1024 * 1024 ensures At(m', w) == At(m, w) {
      NewTableLookup(m.dir, m.tables, d, f, w);
    }
  }

  lemma WalkableSize(dir: seq<Pte>, tables: map<int, seq<Pte>>)
    requires Walkable(dir, tables)
    ensures |dir| == 1024
  {
  }

  // The space with page v's entry set; the directory entry is in use.
  ghost predicate EntrySet(m: Space, m': Space, v: int, pte: Pte) {
    && Sound(m) && 0 <= v < 1024 * 1024 && 0 <= PDX(v) < 1024 && 0 <= PTX(v) < 1024 && m.dir[PDX(v)].Map?
    && m'.dir == m.dir && m'.tables == SetPte(m.tables, m.dir[PDX(v)].frame, PTX(v), pte)
  }

  lemma EntryLookup(m: Space, m': Space, v: int, pte: Pte)
    requires EntrySet(m, m', v, pte)
    ensures OnePage(m, m', v, pte)
  {
    hide Lookup, PDX, PTX, SetPte;
    SetPteLookup(m.dir, m.tables, v, pte, v);
    forall w | 0 <= w < 1024 * 1024 ensures At(m', w) == if w == v then pte else At(m, w) {
      SetPteLookup(m.dir, m.tables, v, pte, w);
    }
  }

  lemma MapPage(m: Space, m': Space, v: int, pte: Pte)
    requires Owned(m) && 0 <= v < USER && At(m, v).Absent? && pte.Map? && Loose(m, pte.frame)
    requires EntrySet(m, m', v, pte) && m'.free == m.free && m'.data == m.data[pte.frame := v]
    ensures Owned(m')
  {
    hide Lookup, Walkable, PDX, PTX, SetPte;
    WalkableSize(m.dir, m.tables);
    EntryLookup(m, m', v, pte);
  }

  lemma UnmapPage(m: Space, m': Space, v: int)
    requires Owned(m) && 0 <= v < USER && At(m, v).Map?
    requires EntrySet(m, m', v, Absent) && m'.free == m.free && m'.data == m.data - {At(m, v).frame}
    ensures Owned(m') && Loose(m', At(m, v).frame)
  {
    hide Lookup, Walkable, PDX, PTX, SetPte;
    WalkableSize(m.dir, m.tables);
    EntryLookup(m, m', v, Absent);
  }

  // ---- The page-by-page scan ----

  // The physical pages mapped at virtual pages lo to hi - 1, in order.
  ghost function Frames(dir: seq<Pte>, tables: map<int, seq<Pte>>, lo: int, hi: int): seq<int>
    requires Walkable(dir, tables) && 0 <= lo && hi <= 1024 * 1024
    decreases hi
  {
    if lo >= hi then []
    else
      Frames(dir, tables, lo, hi - 1) +
      (if Lookup(dir, tables, hi - 1).Map? then [Lookup(dir, tables, hi - 1).frame] else [])
  }

  // Freeing pages one after the other.
  ghost function Pushed(fs: seq<int>, free: seq<int>): seq<int> {
    if fs == [] then free else [fs[|fs| - 1]] + Pushed(fs[..|fs| - 1], free)
  }

  lemma {:induction false} FramesSkip(dir: seq<Pte>, tables: map<int, seq<Pte>>, lo: int, mid: int, hi: int)
    requires Walkable(dir, tables) && 0 <= lo <= mid <= hi <= 1024 * 1024
    requires forall v :: mid <= v < hi ==> Lookup(dir, tables, v).Absent?
    ensures Frames(dir, tables, lo, hi) == Frames(dir, tables, lo, mid)
    decreases hi
  {
    if mid < hi {
      FramesSkip(dir, tables, lo, mid, hi - 1);
    }
  }

  // An absent directory entry leaves all 1024 pages under it unmapped.
  lemma AbsentTable(dir: seq<Pte>, tables: map<int, seq<Pte>>, v: int, w: int)
    requires Walkable(dir, tables) && 0 <= v <= w < 1024 * (PDX(v) + 1) && w < 1024 * 1024
    requires 0 <= PDX(v) < 1024 && dir[PDX(v)].Absent?
    ensures Lookup(dir, tables, w).Absent?
  {
    assert PDX(w) == PDX(v);
  }

  lemma {:induction false} InFrames(dir: seq<Pte>, tables: map<int, seq<Pte>>, lo: int, hi: int, v: int)
    requires Walkable(dir, tables) && 0 <= lo <= v < hi <= 1024 * 1024 && Lookup(dir, tables, v).Map?
    ensures Lookup(dir, tables, v).frame in Frames(dir, tables, lo, hi)
    decreases hi
  {
    if v < hi - 1 {
      InFrames(dir, tables, lo, hi - 1, v);
    }
  }

  lemma {:induction false} OfFrames(dir: seq<Pte>, tables: map<int, seq<Pte>>, lo: int, hi: int, f: int) returns (v: int)
    requires Walkable(dir, tables) && 0 <= lo && hi <= 1024 * 1024 && f in Frames(dir, tables, lo, hi)
    ensures lo <= v < hi && Lookup(dir, tables, v).Map? && Lookup(dir, tables, v).frame == f
    decreases hi
  {
    if Lookup(dir, tables, hi - 1).Map? && Lookup(dir, tables, hi - 1).frame == f {
      v := hi - 1;
    } else {
      v := OfFrames(dir, tables, lo, hi - 1, f);
    }
  }

  lemma {:induction false} PushedHolds(fs: seq<int>, free: seq<int>, f: int)
    ensures f in Pushed(fs, free) <==> f in fs || f in free
    decreases |fs|
  {
    if fs != [] {
      PushedHolds(fs[..|fs| - 1], free, f);
      assert fs == fs[..|fs| - 1] + [fs[|fs| - 1]];
    }
  }

  // ---- What allocuvm needs ----

  ghost predicate SameUse(dir: seq<Pte>, dir': seq<Pte>) {
    |dir| == |dir'| == 1024 && forall d :: 0 <= d < 1024 ==> dir[d].Map? == dir'[d].Map?
  }

  // Physical pages it takes to map pages v to hi - 1, tables included.
  ghost function Need(dir: seq<Pte>, v: int, hi: int): int
    requires |dir| == 1024 && 0 <= v && hi <= USER
    decreases hi - v
  {
    if v >= hi then 0
    else
      Split(v);
      var table := if dir[PDX(v)].Map? then 0 else 1;
      1 + table + Need(dir[PDX(v) := Map(0, true, true)], v + 1, hi)
  }

  lemma {:induction false} NeedSame(dir: seq<Pte>, dir': seq<Pte>, v: int, hi: int)
    requires SameUse(dir, dir') && 0 <= v && hi <= USER
    ensures Need(dir, v, hi) == Need(dir', v, hi)
    decreases hi - v
  {
    if v < hi {
      Split(v);
      NeedSame(dir[PDX(v) := Map(0, true, true)], dir'[PDX(v) := Map(0, true, true)], v + 1, hi);
    }
  }

  lemma {:induction false} NeedAtLeast(dir: seq<Pte>, v: int, hi: int)
    requires |dir| == 1024 && 0 <= v <= hi <= USER
    ensures Need(dir, v, hi) >= hi - v
    decreases hi - v
  {
    if v < hi {
      Split(v);
      NeedAtLeast(dir[PDX(v) := Map(0, true, true)], v + 1, hi);
    }
  }

  // Pages up to sz, rounded up.
  function Up(sz: int): int { (sz + 4095) / 4096 }

  lemma UpLess(v: int, sz: int)
    ensures 4096 * v < sz <==> v < Up(sz)
  {
  }

  // Directory and free list once the tables for k pages from v are in place, as far as the free list lasts.
  ghost function Tabled(dir: seq<Pte>, free: seq<int>, v: int, k: nat): (r: (seq<Pte>, seq<int>))
    requires |dir| == 1024 && 0 <= v && v + k <= 1024 * 1024
    ensures |r.0| == 1024
  {
    if k == 0 then (dir, free)
    else
      var (d, f) := Tabled(dir, free, v, k - 1);
      Split(v + k - 1);
      WithTable(d, f, v + k - 1)
  }

  ghost function WithTable(dir: seq<Pte>, free: seq<int>, v: int): (r: (seq<Pte>, seq<int>))
    requires |dir| == 1024 && 0 <= v < 1024 * 1024
    ensures |r.0| == 1024
  {
    Split(v);
    if dir[PDX(v)].Map? || free == [] then (dir, free) else (dir[PDX(v) := Map(free[0], true, true)], free[1..])
  }

  lemma LooseWithTable(m: Space, m': Space, v: int, f: int)
    requires |m.dir| == 1024 && 0 <= v < 1024 * 1024 && Loose(m, f)
    requires (m'.dir, m'.free) == WithTable(m.dir, m.free, v) && m'.data == m.data
    ensures Loose(m', f)
  {
    Split(v);
  }

  // Consecutive physical pages from f, mapped at consecutive virtual pages from v.
  ghost function AddRun(data: map<int, int>, f: int, v: int, k: nat): map<int, int> {
    if k == 0 then data else AddRun(data, f, v, k - 1)[f + (k - 1) := v + (k - 1)]
  }

  lemma {:induction false} LooseAfterRun(m: Space, m': Space, f: int, v: int, k: nat, x: int)
    requires |m.dir| == 1024 && 0 <= v && v + k <= 1024 * 1024 && Loose(m, x) && !(f <= x < f + k)
    requires (m'.dir, m'.free) == Tabled(m.dir, m.free, v, k) && m'.data == AddRun(m.data, f, v, k)
    ensures Loose(m', x)
    decreases k
  {
    if k > 0 {
      var (d, r) := Tabled(m.dir, m.free, v, k - 1);
      var n := m.(dir := d, free := r, data := AddRun(m.data, f, v, k - 1));
      LooseAfterRun(m, n, f, v, k - 1, x);
      LooseWithTable(n, n.(dir := m'.dir, free := m'.free), v + k - 1, x);
    }
  }

  lemma FramesNone(dir: seq<Pte>, tables: map<int, seq<Pte>>, lo: int, hi: int, free: seq<int>)
    requires Walkable(dir, tables) && 0 <= lo && hi <= lo && hi <= 1024 * 1024
    ensures Frames(dir, tables, lo, hi) == [] && Pushed(Frames(dir, tables, lo, hi), free) == free
  {
  }

  // One more page of the scan.
  lemma FramesStep(dir: seq<Pte>, tables: map<int, seq<Pte>>, lo: int, v: int, free: seq<int>)
    requires Walkable(dir, tables) && 0 <= lo <= v < 1024 * 1024
    ensures var l := Lookup(dir, tables, v); var rest := Pushed(Frames(dir, tables, lo, v), free);
            Pushed(Frames(dir, tables, lo, v + 1), free) == if l.Map? then [l.frame] + rest else rest
  {
    var l, fs := Lookup(dir, tables, v), Frames(dir, tables, lo, v);
    if l.Map? {
      assert (fs + [l.frame])[..|fs|] == fs;
    } else {
      assert fs + [] == fs;
    }
  }

  // The pages under an absent directory entry add nothing to the scan.
  lemma FramesJump(dir: seq<Pte>, tables: map<int, seq<Pte>>, lo: int, v: int, hi: int, free: seq<int>)
    requires Walkable(dir, tables) && 0 <= lo <= v < hi <= USER && 0 <= PDX(v) < 1024 && dir[PDX(v)].Absent?
    ensures var to := if 1024 * (PDX(v) + 1) <= hi then 1024 * (PDX(v) + 1) else hi;
            && v < 1024 * (PDX(v) + 1) && Pushed(Frames(dir, tables, lo, to), free) == Pushed(Frames(dir, tables, lo, v), free)
            && forall w :: v <= w < to ==> Lookup(dir, tables, w).Absent?
  {
    Split(v);
    var to := if 1024 * (PDX(v) + 1) <= hi then 1024 * (PDX(v) + 1) else hi;
    forall w | v <= w < to ensures Lookup(dir, tables, w).Absent? {
      AbsentTable(dir, tables, v, w);
    }
    FramesSkip(dir, tables, lo, v, to);
  }

  lemma WithTableNone(dir: seq<Pte>, v: int)
    requires |dir| == 1024 && 0 <= v < 1024 * 1024
    ensures WithTable(dir, [], v) == (dir, [])
  {
  }

  lemma OneTable(dir: seq<Pte>, free: seq<int>, v: int)
    requires |dir| == 1024 && 0 <= v < 1024 * 1024
    ensures Tabled(dir, free, v, 0) == (dir, free) && Tabled(dir, free, v, 1) == WithTable(dir, free, v)
    ensures 0 <= PDX(v) < 1024 && (dir[PDX(v)].Map? || free == [] ==> WithTable(dir, free, v) == (dir, free))
  {
    assert Tabled(dir, free, v, 0) == (dir, free);
    Split(v);
  }

  // ---- How far allocuvm has got ----

  // The first page of lo to hi - 1 that is mapped already, or hi.
  ghost function FirstMapped(m: Space, lo: int, hi: int): int
    requires Sound(m) && 0 <= lo && hi <= USER
    decreases hi - lo
  {
    if lo >= hi then hi else if At(m, lo).Map? then lo else FirstMapped(m, lo + 1, hi)
  }

  ghost predicate Clear(m: Space, lo: int, hi: int) {
    Sound(m) && 0 <= lo && hi <= USER && forall w :: lo <= w < hi ==> At(m, w).Absent?
  }

  lemma {:induction false} FirstMappedIs(m: Space, lo: int, hi: int)
    requires Sound(m) && 0 <= lo <= hi <= USER
    ensures var w := FirstMapped(m, lo, hi); lo <= w <= hi && Clear(m, lo, w) && (w < hi ==> At(m, w).Map?)
    decreases hi - lo
  {
    hide Walkable, Lookup;
    if lo < hi && At(m, lo).Absent? {
      FirstMappedIs(m, lo + 1, hi);
      var w := FirstMapped(m, lo, hi);
      forall x | lo <= x < w ensures At(m, x).Absent? {
        if x != lo { assert lo + 1 <= x; }
      }
    }
  }

  ghost predicate FreshPage(free0: seq<int>, fill: map<int, int>, pte: Pte) {
    pte.Map? && pte.writable && pte.user && pte.frame in free0 && pte.frame in fill && fill[pte.frame] == 0
  }

  // Pages lo to v - 1 are new, zeroed and writable; all others are mapped as before.
  ghost predicate Grown(m0: Space, m: Space, lo: int, v: int) {
    && Sound(m0) && Sound(m)
    && forall w :: 0 <= w < 1024 * 1024 ==>
         if lo <= w < v then FreshPage(m0.free, m.fill, At(m, w)) else At(m, w) == At(m0, w)
  }

  // Pages lo to hi - 1 are unmapped; all others are mapped as before.
  ghost predicate Unmapped(m0: Space, m: Space, lo: int, hi: int) {
    Sound(m0) && Sound(m) && forall w :: 0 <= w < 1024 * 1024 ==> At(m, w) == if lo <= w < hi then Absent else At(m0, w)
  }

  // The directory only gains tables, taken from the free list.
  ghost predicate Tables(m0: Space, m: Space) {
    && |m0.dir| == |m.dir| == 1024
    && forall d :: 0 <= d < 1024 ==>
         if m0.dir[d].Map? then m.dir[d] == m0.dir[d] else m.dir[d].Map? ==> m.dir[d].frame in m0.free
  }

  // f became a page table.
  ghost predicate NewTable(m0: Space, m: Space, f: int) {
    exists d :: 0 <= d < |m0.dir| && d < |m.dir| && m0.dir[d].Absent? && m.dir[d].Map? && m.dir[d].frame == f
  }

  // Every page taken from the free list is mapped in lo to v - 1, is a table, or is held.
  ghost predicate Accounted(m0: Space, m: Space, lo: int, v: int, held: set<int>) {
    && (forall f :: f in m.free ==> f in m0.free)
    && (forall f :: f in m0.free ==> f in m.free || f in held || NewTable(m0, m, f) || (f in m.data && lo <= m.data[f] < v))
  }

  // Nothing is lost: the pages free before are free again, but for new page tables.
  ghost predicate Kept(m0: Space, m: Space) {
    forall f :: f in m0.free ==> f in m.free || NewTable(m0, m, f)
  }

  // And no other page became free.
  ghost predicate Returned(m0: Space, m: Space) {
    Kept(m0, m) && forall f :: f in m.free ==> f in m0.free
  }

  lemma AccountedTable(m0: Space, m: Space, m': Space, lo: int, v: int, held: set<int>, w: int)
    requires Accounted(m0, m, lo, v, held) && Tables(m0, m) && 0 <= w < 1024 * 1024
    requires (m'.dir, m'.free) == WithTable(m.dir, m.free, w) && m'.data == m.data
    ensures Accounted(m0, m', lo, v, held) && Tables(m0, m')
  {
    Split(w);
    if !m.dir[PDX(w)].Map? && m.free != [] {
      assert NewTable(m0, m', m.free[0]);
      forall f | NewTable(m0, m, f) ensures NewTable(m0, m', f) {
        var d :| 0 <= d < |m0.dir| && d < |m.dir| && m0.dir[d].Absent? && m.dir[d].Map? && m.dir[d].frame == f;
        assert m'.dir[d] == m.dir[d];
      }
    }
  }

  lemma AccountedTake(m0: Space, m: Space, lo: int, v: int)
    requires Accounted(m0, m, lo, v, {}) && |m.free| > 0
    ensures Accounted(m0, m.(free := m.free[1..]), lo, v, {m.free[0]})
  {
    var m' := m.(free := m.free[1..]);
    assert forall f :: NewTable(m0, m, f) ==> NewTable(m0, m', f);
  }

  lemma AccountedMap(m0: Space, m: Space, m': Space, lo: int, v: int, f: int)
    requires Accounted(m0, m, lo, v, {f}) && f !in m.data && lo <= v
    requires m'.dir == m.dir && m'.free == m.free && m'.data == m.data[f := v]
    ensures Accounted(m0, m', lo, v + 1, {})
  {
    assert forall x :: NewTable(m0, m, x) ==> NewTable(m0, m', x);
  }

  // After a table for page v is in place, one page and its table have been paid for.
  lemma NeedStep(dir: seq<Pte>, free: seq<int>, v: int, hi: int)
    requires |dir| == 1024 && 0 <= v < hi <= USER && (free != [] || (0 <= PDX(v) < 1024 && dir[PDX(v)].Map?))
    ensures var (d, r) := WithTable(dir, free, v); Need(dir, v, hi) + |r| == 1 + |free| + Need(d, v + 1, hi)
  {
    Split(v);
    var (d, r) := WithTable(dir, free, v);
    NeedSame(dir[PDX(v) := Map(0, true, true)], d, v + 1, hi);
  }

  lemma NeedTwo(dir: seq<Pte>, v: int, hi: int)
    requires |dir| == 1024 && 0 <= v < hi <= USER && 0 <= PDX(v) < 1024 && dir[PDX(v)].Absent?
    ensures Need(dir, v, hi) >= 2
  {
    NeedAtLeast(dir[PDX(v) := Map(0, true, true)], v + 1, hi);
  }

  lemma GrownStep(m0: Space, m: Space, m': Space, lo: int, v: int, f: int)
    requires Grown(m0, m, lo, v) && 0 <= lo <= v && f in m0.free
    requires OnePage(m, m', v, Map(f, true, true)) && m'.fill == m.fill[f := 0]
    ensures Grown(m0, m', lo, v + 1)
  {
    hide Walkable, Lookup;
    assert forall w :: 0 <= w < 1024 * 1024 ==> At(m', w) == At(m, w) || w == v;
  }

  lemma GrownSame(m0: Space, m: Space, m': Space, lo: int, v: int, f: int)
    requires Grown(m0, m, lo, v) && SameMap(m, m') && m'.fill == m.fill[f := 0]
    ensures Grown(m0, m', lo, v)
  {
    hide Walkable, Lookup;
  }

  // Freeing all pages of the range brings every data page back.
  lemma AllBack(m0: Space, m: Space, lo: int, v: int, hi: int, held: set<int>)
    requires Grown(m0, m, lo, v) && Accounted(m0, m, lo, v, held) && Owned(m) && 0 <= lo <= v <= hi <= USER
    ensures var back := Pushed(Frames(m.dir, m.tables, lo, hi), m.free);
            && (forall f :: f in back ==> f in m.free || f in m.data)
            && (forall f :: f in m0.free ==> f in back || f in held || NewTable(m0, m, f))
            && (Clear(m0, lo, hi) ==> forall f :: f in back ==> f in m0.free)
  {
    hide Walkable, Lookup, Frames, Pushed, NewTable;
    var fs := Frames(m.dir, m.tables, lo, hi);
    var back := Pushed(fs, m.free);
    forall f | f in back ensures (f in m.free || f in m.data) && (Clear(m0, lo, hi) ==> f in m0.free) {
      PushedHolds(fs, m.free, f);
      if f in fs {
        var w := OfFrames(m.dir, m.tables, lo, hi, f);
        assert At(m, w).frame == f;
      }
    }
    forall f | f in m0.free ensures f in back || f in held || NewTable(m0, m, f) {
      PushedHolds(fs, m.free, f);
      if f in m.data && lo <= m.data[f] < v {
        assert At(m, m.data[f]).Map?;
        InFrames(m.dir, m.tables, lo, hi, m.data[f]);
      }
    }
  }

  // Where allocuvm's loop stands at page v, on its way to page hi.
  ghost predicate Progress(m0: Space, m: Space, lo: int, v: int, hi: int) {
    && 0 <= lo <= v <= hi <= USER && Grown(m0, m, lo, v) && Accounted(m0, m, lo, v, {}) && Tables(m0, m)
    && Need(m0.dir, lo, hi) == |m0.free| - |m.free| + Need(m.dir, v, hi)
  }

  lemma ProgressStart(m: Space, lo: int, hi: int)
    requires Sound(m) && 0 <= lo <= hi <= USER
    ensures Progress(m, m, lo, lo, hi)
  {
    hide Lookup;
  }

  lemma ProgressNext(m0: Space, m: Space, m': Space, lo: int, v: int, hi: int)
    requires Progress(m0, m, lo, v, hi) && v < hi && |m.free| > 0
    requires |m.dir| == 1024 && (m'.dir, m'.free) == WithTable(m.dir, m.free[1..], v)
    requires |m.free| > 1 || (0 <= PDX(v) < 1024 && m.dir[PDX(v)].Map?)
    requires m.free[0] !in m.data && m'.data == m.data[m.free[0] := v] && m'.fill == m.fill[m.free[0] := 0]
    requires OnePage(m, m', v, Map(m.free[0], true, true))
    ensures Progress(m0, m', lo, v + 1, hi)
  {
    hide Walkable, Lookup, NewTable, FreshPage, WithTable, Need, Grown, Tables, OnePage;
    GrownStep(m0, m, m', lo, v, m.free[0]);
    AccountedTake(m0, m, lo, v);
    var took := m.(free := m.free[1..]);
    var tabled := m'.(data := m.data);
    TablesSame(m0, m, took);
    AccountedTable(m0, took, tabled, lo, v, {m.free[0]}, v);
    AccountedMap(m0, tabled, m', lo, v, m.free[0]);
    TablesSame(m0, tabled, m');
    NeedStep(m.dir, m.free[1..], v, hi);
  }

  lemma TablesSame(m0: Space, m: Space, m': Space)
    requires Tables(m0, m) && m'.dir == m.dir
    ensures Tables(m0, m')
  {
  }

  // kalloc failed for the page itself.
  lemma ProgressNoPage(m0: Space, m: Space, lo: int, v: int, hi: int)
    requires Progress(m0, m, lo, v, hi) && v < hi && m.free == []
    ensures |m0.dir| == 1024 && Need(m0.dir, lo, hi) > |m0.free|
  {
    NeedAtLeast(m.dir, v, hi);
  }

  // kalloc failed for the page table.
  lemma ProgressNoTable(m0: Space, m: Space, m': Space, lo: int, v: int, hi: int)
    requires Progress(m0, m, lo, v, hi) && v < hi && |m.free| == 1
    requires 0 <= PDX(v) < |m.dir| && m.dir[PDX(v)].Absent? && SameMap(m, m') && m'.dir == m.dir
    requires m'.free == [] && m'.data == m.data && m'.fill == m.fill[m.free[0] := 0]
    ensures |m0.dir| == 1024 && Need(m0.dir, lo, hi) > |m0.free| && m.free[0] in m0.free
    ensures Grown(m0, m', lo, v) && Accounted(m0, m', lo, v, {m.free[0]})
  {
    hide Walkable, Lookup, FreshPage, Need, Grown, SameMap;
    NeedTwo(m.dir, v, hi);
    GrownSame(m0, m, m', lo, v, m.free[0]);
    AccountedTake(m0, m, lo, v);
    var took := m.(free := m.free[1..]);
    assert forall f :: NewTable(m0, took, f) ==> NewTable(m0, m', f);
  }

  // The next page is mapped as it was.
  lemma ProgressAt(m0: Space, m: Space, lo: int, v: int, hi: int)
    requires Progress(m0, m, lo, v, hi) && v < USER
    ensures v <= hi && Sound(m0) && Sound(m) && |m.dir| == |m0.dir| == 1024 && At(m, v) == At(m0, v)
  {
    hide Walkable, Lookup;
  }

  lemma ProgressDone(m0: Space, m: Space, lo: int, hi: int)
    requires Progress(m0, m, lo, hi, hi)
    ensures |m0.dir| == 1024 && |m.free| == |m0.free| - Need(m0.dir, lo, hi)
  {
  }

  lemma NoRoom(dir: seq<Pte>, free: seq<int>, dir': seq<Pte>, free': seq<int>, v: int)
    requires |dir| == 1024 && 0 <= v < 1024 * 1024 && (dir', free') == WithTable(dir, free, v)
    requires 0 <= PDX(v) < 1024 && dir'[PDX(v)].Absent?
    ensures dir' == dir && free == [] && free' == []
  {
  }

  lemma HadRoom(dir: seq<Pte>, free: seq<int>, m': Space, v: int)
    requires |dir| == 1024 && 0 <= v < 1024 * 1024 && (m'.dir, m'.free) == WithTable(dir, free, v)
    requires Sound(m') && At(m', v).Map?
    ensures 0 <= PDX(v) < 1024 && (dir[PDX(v)].Map? || free != [])
  {
    Split(v);
  }

  lemma ProgressParts(m0: Space, m: Space, lo: int, v: int, hi: int)
    requires Progress(m0, m, lo, v, hi)
    ensures Grown(m0, m, lo, v) && Accounted(m0, m, lo, v, {})
  {
  }

  // A mapped page has its table.
  lemma MappedHasTable(m: Space, v: int)
    requires Sound(m) && 0 <= v < 1024 * 1024 && At(m, v).Map?
    ensures 0 <= PDX(v) < |m.dir| && m.dir[PDX(v)].Map?
  {
    Split(v);
  }
}
