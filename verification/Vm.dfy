// walkpgdir, mappages, allocuvm and deallocuvm (vm.c) over the free list of kalloc.c.
module Vm {
  import opened PageTable

  const PHYSTOP: int := 0xE000   // in pages

  // The links through the free pages.
  ghost predicate Chain(head: int, next: map<int, int>, free: seq<int>)
    decreases |free|
  {
    if free == [] then head == 0
    else head == free[0] && head != 0 && head in next && Chain(next[head], next, free[1..])
  }

  lemma {:induction false} ChainFrame(head: int, next: map<int, int>, free: seq<int>, f: int, x: int)
    requires Chain(head, next, free) && f !in free
    ensures Chain(head, next[f := x], free)
    decreases |free|
  {
    if free != [] {
      ChainFrame(next[head], next, free[1..], f, x);
    }
  }

  // Pages kfree accepts.
  ghost predicate Usable(first: int, free: seq<int>, data: map<int, int>) {
    && first > 0
    && (forall i :: 0 <= i < |free| ==> first <= free[i] < PHYSTOP)
    && (forall f :: f in data ==> first <= f < PHYSTOP)
  }

  lemma Sizes(m: Space)
    requires Owned(m)
    ensures |m.dir| == 1024 && Sound(m)
  {
  }

  lemma InData(m: Space, v: int)
    requires Owned(m) && 0 <= v < USER && At(m, v).Map?
    ensures At(m, v).frame in m.data
  {
  }

  lemma EntryIs(m: Space, v: int, t: int)
    requires Sound(m) && 0 <= v < 1024 * 1024 && 0 <= PDX(v) < |m.dir| && m.dir[PDX(v)].Map? && m.dir[PDX(v)].frame == t
    ensures t in m.tables && 0 <= PTX(v) < |m.tables[t]| && At(m, v) == m.tables[t][PTX(v)]
  {
  }

  // How mappages ends: every page mapped, no memory for a table, or a page that was mapped already.
  datatype MapResult = Mapped | NoTable | Remap

  // How allocuvm ends: it returns a size, or the kernel panics on a page that was mapped already.
  datatype Growth = Size(sz: int) | Panic

  // Physical pages f to f + n - 1 can be mapped.
  ghost predicate Spare(first: int, m: Space, f: int, n: int) {
    forall x :: f <= x < f + n ==> Loose(m, x) && first <= x < PHYSTOP
  }

  // Pages lo to lo + n - 1 are mapped to the n physical pages from f on; all others are mapped as before.
  ghost predicate RunMapped(m: Space, m': Space, lo: int, n: int, f: int, writable: bool, user: bool) {
    && Sound(m) && Sound(m')
    && forall w :: 0 <= w < 1024 * 1024 ==>
         At(m', w) == if lo <= w < lo + n then Map(f + (w - lo), writable, user) else At(m, w)
  }

  lemma RunStep(m: Space, m': Space, m'': Space, lo: int, n: int, f: int, writable: bool, user: bool)
    requires RunMapped(m, m', lo, n, f, writable, user) && OnePage(m', m'', lo + n, Map(f + n, writable, user)) && 0 <= lo && 0 <= n
    ensures RunMapped(m, m'', lo, n + 1, f, writable, user)
  {
    hide Walkable, Lookup;
    assert forall w :: 0 <= w < 1024 * 1024 ==> At(m'', w) == At(m', w) || w == lo + n;
  }

  lemma RunSame(m: Space, m': Space, m'': Space, lo: int, n: int, f: int, writable: bool, user: bool)
    requires RunMapped(m, m', lo, n, f, writable, user) && SameMap(m', m'')
    ensures RunMapped(m, m'', lo, n, f, writable, user)
  {
    hide Walkable, Lookup;
  }

  // A run of no page, or of one.
  lemma RunShort(m: Space, m': Space, lo: int, f: int)
    requires 0 <= lo < 1024 * 1024
    ensures RunMapped(m, m', lo, 0, f, true, true) ==> SameMap(m, m')
    ensures RunMapped(m, m', lo, 1, f, true, true) ==> OnePage(m, m', lo, Map(f, true, true)) && At(m', lo).Map?
  {
    hide Walkable, Lookup;
  }

  lemma RunNone(m: Space, lo: int, f: int, writable: bool, user: bool)
    requires Sound(m)
    ensures RunMapped(m, m, lo, 0, f, writable, user)
  {
  }

  // The page after a run is mapped as it was.
  lemma RunAt(m: Space, m': Space, lo: int, n: int, f: int, writable: bool, user: bool)
    requires RunMapped(m, m', lo, n, f, writable, user) && 0 <= lo + n < 1024 * 1024
    ensures At(m', lo + n) == At(m, lo + n)
  {
    hide Walkable, Lookup;
  }

  // Pages lo to hi - 1 unmapped after growing up to v: all that allocuvm did is undone.
  lemma UndoneMap(m0: Space, m: Space, m': Space, lo: int, v: int, hi: int)
    requires Grown(m0, m, lo, v) && Unmapped(m, m', lo, hi) && lo <= v <= hi
    ensures Unmapped(m0, m', lo, hi) && (Clear(m0, lo, hi) ==> SameMap(m0, m'))
  {
    hide Walkable, Lookup;
  }

  lemma UnmappedSame(m0: Space, m: Space, m': Space, lo: int, hi: int)
    requires Unmapped(m0, m, lo, hi) && SameMap(m, m')
    ensures Unmapped(m0, m', lo, hi) && (SameMap(m0, m) ==> SameMap(m0, m'))
  {
    hide Walkable, Lookup;
  }

  lemma ClearNone(m: Space, lo: int)
    requires Sound(m) && 0 <= lo <= USER
    ensures Clear(m, lo, lo)
  {
  }

  lemma ClearStep(m: Space, lo: int, v: int)
    requires Clear(m, lo, v) && 0 <= v < USER && At(m, v).Absent?
    ensures Clear(m, lo, v + 1)
  {
    hide Walkable, Lookup;
  }

  lemma ClearAt(m: Space, lo: int, w: int, v: int)
    requires Clear(m, lo, w) && lo <= v < w
    ensures At(m, v).Absent?
  {
  }

  lemma ClearAll(m: Space, lo: int, w: int, hi: int)
    requires Clear(m, lo, w) && 0 <= lo <= w <= hi <= USER && (w < hi ==> At(m, w).Map?)
    ensures w == hi <==> Clear(m, lo, hi)
  {
    hide Walkable, Lookup;
  }

  lemma OneHere(m: Space, m': Space, v: int, pte: Pte)
    requires OnePage(m, m', v, pte) && 0 <= v < 1024 * 1024
    ensures Sound(m') && At(m', v) == pte
  {
    hide Walkable, Lookup;
  }

  class AddressSpace {
    const first: int                 // first page past the kernel image
    var head: int                    // kmem.freelist
    var next: map<int, int>          // run.next
    var fill: map<int, int>          // the byte a page was last set to
    var dir: seq<Pte>                // pgdir
    var tables: map<int, seq<Pte>>   // the page-table pages
    ghost var free: seq<int>
    ghost var data: map<int, int>

    ghost function S(): Space
      reads this
    {
      Space(dir, tables, free, data, fill)
    }

    ghost predicate Valid()
      reads this
    {
      Chain(head, next, free) && Owned(S()) && Usable(first, free, data)
    }

    constructor (start: int, pages: int, links: map<int, int>, ghost m: Space, top: seq<Pte>, pts: map<int, seq<Pte>>)
      requires Chain(pages, links, m.free) && Owned(m) && Usable(start, m.free, m.data) && top == m.dir && pts == m.tables
      ensures Valid() && S() == m.(fill := map[]) && first == start
    {
      first, head, next, fill, dir, tables := start, pages, links, map[], top, pts;
      free, data := m.free, m.data;
      new;
      FillKeeps(m, map[]);
    }

    method Kalloc() returns (f: int)
      requires Valid()
      modifies this`head, this`free
      ensures Valid() && SameMap(old(S()), S()) && (f == 0 <==> old(free) == []) && (f == 0 ==> free == old(free))
      ensures f != 0 ==> f == old(free)[0] && free == old(free)[1..] && Loose(S(), f) && first <= f < PHYSTOP
    {
      f := head;
      if f != 0 {
        PopFree(S());
        head := next[f];
        free := free[1..];
      }
    }

    // Panics on a page outside the memory the allocator manages.
    method Kfree(f: int) returns (panics: bool)
      requires Valid() && (first <= f < PHYSTOP ==> Loose(S(), f))
      modifies this`head, this`next, this`fill, this`free
      ensures panics <==> !(first <= f < PHYSTOP)
      ensures panics ==> unchanged(this)
      ensures !panics ==> Valid() && SameMap(old(S()), S()) && free == [f] + old(free) && fill == old(fill)[f := 1]
    {
      if f < first || f >= PHYSTOP {
        return true;
      }
      PushFree(S(), f);
      ChainFrame(head, next, free, f, head);
      assert ([f] + free)[1..] == free;
      FillKeeps(S().(free := [f] + free), fill[f := 1]);
      fill := fill[f := 1];
      next := next[f := head];
      head := f;
      free := [f] + free;
      panics := false;
    }

    // The table that holds the entry of page v.
    method Walkpgdir(v: int, alloc: bool) returns (ok: bool, t: int)
      requires Valid() && 0 <= v < 1024 * 1024
      modifies this`head, this`free, this`dir, this`tables
      ensures Valid() && |dir| == 1024 && 0 <= PDX(v) < 1024
      ensures ok == old(dir[v / 1024].Map? || (alloc && free != []))
      ensures ok ==> dir[PDX(v)].Map? && dir[PDX(v)].frame == t && t in tables && |tables[t]| == 1024
      ensures (dir, free) == if alloc then WithTable(old(dir), old(free), v) else (old(dir), old(free))
      ensures SameMap(old(S()), S())
    {
      Split(v);
      t := 0;
      if dir[PDX(v)].Map? {
        return true, dir[PDX(v)].frame;
      }
      if !alloc {
        return false, 0;
      }
      t := Kalloc();
      if t == 0 {
        return false, 0;
      }
      AddTable(S(), PDX(v), t);
      tables := tables[t := Blank()];
      dir := dir[PDX(v) := Map(t, true, true)];
      return true, t;
    }

    // One page of mappages: the table if it is missing, then the entry.
    method MapOne(v: int, pte: Pte) returns (r: MapResult)
      requires Valid() && 0 <= v < USER && pte.Map? && Loose(S(), pte.frame) && first <= pte.frame < PHYSTOP
      modifies this`head, this`free, this`dir, this`tables, this`data
      ensures Valid() && Sound(old(S())) && |dir| == 1024
      ensures r == if old(At(S(), v)).Map? then Remap else if old(dir[v / 1024].Map? || free != []) then Mapped else NoTable
      ensures (dir, free) == WithTable(old(dir), old(free), v)
      ensures data == if r.Mapped? then old(data)[pte.frame := v] else old(data)
      ensures r.Mapped? ==> OnePage(old(S()), S(), v, pte)
      ensures !r.Mapped? ==> SameMap(old(S()), S())
    {
      hide Owned, Walkable, Lookup, Chain, Loose, WithTable, SetPte;
      Sizes(S());
      var found, t := Walkpgdir(v, true);
      Split(v);
      if !found {
        if old(At(S(), v)).Map? { MappedHasTable(old(S()), v); }
        return NoTable;
      }
      Sizes(S());
      EntryIs(S(), v, t);
      if tables[t][PTX(v)].Map? {
        return Remap;
      }
      ghost var m := S();
      LooseWithTable(old(S()), m, v, pte.frame);
      ghost var m' := m.(tables := SetPte(tables, t, PTX(v), pte), data := data[pte.frame := v]);
      MapPage(m, m', v, pte);
      EntryLookup(m, m', v, pte);
      tables := SetPte(tables, t, PTX(v), pte);
      data := data[pte.frame := v];
      return Mapped;
    }

    // Maps the pages of va to va + size - 1 to consecutive physical pages, until a table cannot be had or a
    // page turns out to be mapped.
    method Mappages(va: int, size: int, f: int, writable: bool, user: bool) returns (r: MapResult, ghost done: nat)
      requires Valid() && 0 <= va && 0 < size && va + size <= KERNBASE
      requires Spare(first, S(), f, (va + size - 1) / 4096 - va / 4096 + 1)
      modifies this`head, this`free, this`dir, this`tables, this`data
      ensures Valid() && Sound(old(S())) && |dir| == 1024
      ensures done <= (va + size - 1) / 4096 - va / 4096 + 1 && va / 4096 + done <= USER
      ensures r.Mapped? <==> done == (va + size - 1) / 4096 - va / 4096 + 1
      ensures (dir, free) == Tabled(old(dir), old(free), va / 4096, done)
      ensures data == AddRun(old(data), f, va / 4096, done)
      ensures RunMapped(old(S()), S(), va / 4096, done, f, writable, user)
      ensures Clear(old(S()), va / 4096, va / 4096 + done)
      ensures r.NoTable? ==>
                free == [] && dir[(va / 4096 + done) / 1024].Absent? && At(old(S()), va / 4096 + done).Absent?
      ensures r.Remap? ==> At(old(S()), va / 4096 + done).Map?
    {
      hide Owned, Walkable, Lookup, Chain, Loose, WithTable, Usable, RunMapped, OnePage, SameMap, Clear;
      ghost var lo, n := va / 4096, (va + size - 1) / 4096 - va / 4096 + 1;
      var a := va / 4096 * 4096;
      var last := (va + size - 1) / 4096 * 4096;
      var pa := f;
      done := 0;
      Sizes(S());
      RunNone(S(), lo, f, writable, user);
      ClearNone(S(), lo);
      while true
        invariant Valid() && |dir| == 1024 && 0 <= done < n && lo + n <= USER
        invariant a == 4096 * (lo + done) && last == 4096 * (lo + n - 1) && pa == f + done
        invariant (dir, free) == Tabled(old(dir), old(free), lo, done) && data == AddRun(old(data), f, lo, done)
        invariant RunMapped(old(S()), S(), lo, done, f, writable, user) && Clear(old(S()), lo, lo + done)
        decreases n - done
      {
        ghost var v, m := lo + done, S();
        LooseAfterRun(old(S()), m, f, lo, done, pa);
        RunAt(old(S()), m, lo, done, f, writable, user);
        WithTableNone(dir, v);
        r := MapOne(a / 4096, Map(pa, writable, user));
        if r.Remap? {
          MappedHasTable(m, v);
          OneTable(m.dir, m.free, v);
        }
        if !r.Mapped? {
          RunSame(old(S()), m, S(), lo, done, f, writable, user);
          return;
        }
        RunStep(old(S()), m, S(), lo, done, f, writable, user);
        ClearStep(old(S()), lo, v);
        done := done + 1;
        if a == last {
          return;
        }
        a := a + PGSIZE;
        pa := pa + 1;
      }
    }

    // The present-page branch of deallocuvm.
    method FreePage(v: int, t: int)
      requires Valid() && 0 <= v < USER && Sound(S()) && At(S(), v).Map?
      requires 0 <= PDX(v) < |dir| && dir[PDX(v)].Map? && dir[PDX(v)].frame == t
      modifies this`head, this`next, this`fill, this`free, this`tables, this`data
      ensures Valid() && OnePage(old(S()), S(), v, Absent) && data.Keys <= old(data.Keys)
      ensures free == [At(old(S()), v).frame] + old(free)
    {
      hide Owned, Chain, PDX, PTX, Walkable, Lookup, SetPte, Loose;
      Split(v);
      Sizes(S());
      EntryIs(S(), v, t);
      var f := tables[t][PTX(v)].frame;
      InData(S(), v);
      ghost var m := S();
      ghost var m' := m.(tables := SetPte(tables, t, PTX(v), Absent), data := data - {f});
      UnmapPage(m, m', v);
      EntryLookup(m, m', v, Absent);
      tables := SetPte(tables, t, PTX(v), Absent);
      data := data - {f};
      var panics := Kfree(f);
    }

    // Unmaps the pages from newsz up to oldsz and frees what they were mapped to, skipping absent tables:
    // the free list gets exactly what a scan page by page would give it.
    method Deallocuvm(oldsz: int, newsz: int) returns (sz: int)
      requires Valid() && 0 <= newsz && 0 <= oldsz <= KERNBASE
      modifies this
      ensures dir == old(dir) && Valid() && sz == if newsz >= oldsz then oldsz else newsz
      ensures Unmapped(old(S()), S(), Up(newsz), Up(oldsz)) && data.Keys <= old(data.Keys)
      ensures 0 <= Up(newsz) && Up(oldsz) <= USER
      ensures free == Pushed(old(Frames(dir, tables, Up(newsz), Up(oldsz))), old(free))
    {
      hide Owned, Walkable, Lookup, Chain, Loose, Usable, Frames, Pushed;
      Sizes(S());
      ghost var lo, hi, v := Up(newsz), Up(oldsz), Up(newsz);
      if newsz >= oldsz {
        FramesNone(dir, tables, lo, hi, free);
        return oldsz;
      }
      var a := (newsz + 4095) / 4096 * 4096;
      UpLess(v, oldsz);
      FramesNone(dir, tables, lo, lo, free);
      while a < oldsz
        invariant Valid() && dir == old(dir) && Sound(S()) && a == 4096 * v && (a < oldsz <==> v < hi)
        invariant lo <= v && lo <= hi && data.Keys <= old(data.Keys)
        invariant free == Pushed(Frames(dir, old(tables), lo, if v <= hi then v else hi), old(free))
        invariant Unmapped(old(S()), S(), lo, if v <= hi then v else hi)
      {
        var page := a / 4096;
        var found, t := Walkpgdir(page, false);
        if !found {
          FramesJump(dir, old(tables), lo, v, hi, old(free));
          a := (PDX(page) + 1) * 0x40_0000 - PGSIZE;
          v := 1024 * (PDX(page) + 1) - 1;
        } else {
          FramesStep(dir, old(tables), lo, v, old(free));
          EntryIs(S(), page, t);
          if tables[t][PTX(page)].Map? {
            FreePage(page, t);
          }
        }
        a := a + PGSIZE;
        v := v + 1;
        UpLess(v, oldsz);
      }
      sz := newsz;
    }

    // One turn of allocuvm's loop: a zeroed page from kalloc, mapped at page v.
    method AddPage(a: int, ghost v: int) returns (mem: int, r: MapResult)
      requires Valid() && a == 4096 * v && 0 <= v < USER && Sound(S())
      modifies this
      ensures Valid() && next == old(next) && |dir| == 1024
      ensures mem == 0 <==> old(free) == []
      ensures mem == 0 ==> r.NoTable? && S() == old(S())
      ensures mem != 0 ==> mem == old(free)[0] && fill == old(fill)[mem := 0] && first <= mem < PHYSTOP && mem !in old(data)
      ensures mem != 0 ==> (r.Remap? <==> At(old(S()), v).Map?)
      ensures mem != 0 && !r.Remap? ==> (dir, free) == WithTable(old(dir), old(free)[1..], v)
      ensures mem != 0 && r.NoTable? ==>
                free == [] && dir[v / 1024].Absent? && data == old(data) && Loose(S(), mem) && SameMap(old(S()), S())
      ensures r.Mapped? ==> data == old(data)[mem := v] && OnePage(old(S()), S(), v, Map(mem, true, true))
    {
      hide Owned, Walkable, Lookup, Chain, Usable, WithTable, RunMapped;
      Sizes(S());
      mem := Kalloc();
      if mem == 0 {
        return 0, NoTable;
      }
      FillKeeps(S(), fill[mem := 0]);
      fill := fill[mem := 0];
      ghost var m := S();
      ghost var done;
      r, done := Mappages(a, PGSIZE, mem, true, true);
      assert done <= 1;
      OneTable(m.dir, m.free, v);
      RunShort(m, S(), v, mem);
      if r.Mapped? { ClearAt(m, v, v + 1, v); }
    }

    // The error exits of allocuvm: unmap what was mapped, then free the page that could not be.
    method Undo(newsz: int, oldsz: int, mem: int, ghost m0: Space, ghost v: int)
      requires Valid() && 0 <= oldsz <= newsz < KERNBASE && Up(oldsz) <= v <= Up(newsz)
      requires mem != 0 ==> Loose(S(), mem) && first <= mem < PHYSTOP && mem in m0.free
      requires Grown(m0, S(), Up(oldsz), v) && Accounted(m0, S(), Up(oldsz), v, if mem == 0 then {} else {mem})
      modifies this
      ensures Valid() && Unmapped(m0, S(), Up(oldsz), Up(newsz)) && Kept(m0, S())
      ensures Clear(m0, Up(oldsz), Up(newsz)) ==> SameMap(m0, S()) && Returned(m0, S())
    {
      hide Owned, Walkable, Lookup, Chain, Usable, Frames, Pushed, FreshPage, Grown, Unmapped, Clear, SameMap;
      ghost var lo, hi := Up(oldsz), Up(newsz);
      assert 0 <= lo <= v <= hi <= USER;
      ghost var m := S();
      AllBack(m0, m, lo, v, hi, if mem == 0 then {} else {mem});
      var _ := Deallocuvm(newsz, oldsz);
      assert forall f :: NewTable(m0, m, f) ==> NewTable(m0, S(), f);
      UndoneMap(m0, m, S(), lo, v, hi);
      if mem != 0 {
        ghost var m' := S();
        var panics := Kfree(mem);
        assert forall f :: NewTable(m0, m', f) ==> NewTable(m0, S(), f);
        UnmappedSame(m0, m', S(), lo, hi);
      }
    }

    // Memory gave out: nothing of the range is mapped any more, and no page that was free is lost.  If nothing
    // was mapped there before, all mappings are as they were and the same pages are free.
    ghost predicate Undone(m0: Space, lo: int, hi: int)
      reads this
    {
      && Unmapped(m0, S(), lo, hi) && Kept(m0, S())
      && (Clear(m0, lo, hi) ==> SameMap(m0, S()) && Returned(m0, S()))
    }

    // The body of allocuvm's loop, error exits included.
    method Turn(a: int, newsz: int, oldsz: int, ghost m0: Space, ghost v: int, ghost goal: int) returns (r: MapResult)
      requires Valid() && a == 4096 * v && 0 <= oldsz <= newsz < KERNBASE && Up(oldsz) <= v < Up(newsz) <= USER
      requires Sound(m0) && |m0.dir| == 1024 && goal == FirstMapped(m0, Up(oldsz), Up(newsz))
      requires Progress(m0, S(), Up(oldsz), v, goal)
      modifies this
      ensures r.Mapped? ==> Valid() && v < goal && Progress(m0, S(), Up(oldsz), v + 1, goal)
      ensures r.NoTable? ==> Valid() && Undone(m0, Up(oldsz), Up(newsz))
      ensures r.NoTable? ==> Need(m0.dir, Up(oldsz), goal) + (if goal < Up(newsz) then 1 else 0) > |m0.free|
      ensures r.Remap? ==> goal < Up(newsz) && Need(m0.dir, Up(oldsz), goal) + 1 <= |m0.free|
    {
      hide Owned, Walkable, Lookup, Chain, Usable, Need, WithTable, Progress, Grown, Accounted, Loose, Returned, Kept, Unmapped,
           OnePage, SameMap, FirstMapped, Clear;
      ghost var lo, hi, m := Up(oldsz), Up(newsz), S();
      ProgressAt(m0, m, lo, v, goal);
      FirstMappedIs(m0, lo, hi);
      if v < goal { ClearAt(m0, lo, goal, v); }
      if v == goal { ProgressDone(m0, m, lo, goal); }
      var mem;
      mem, r := AddPage(a, v);
      if mem == 0 {
        if v < goal { ProgressNoPage(m0, m, lo, v, goal); }
        ProgressParts(m0, m, lo, v, goal);
        Undo(newsz, oldsz, 0, m0, v);
      } else if r.NoTable? {
        assert v < goal;
        NoRoom(m.dir, m.free[1..], dir, free, v);
        ProgressNoTable(m0, m, S(), lo, v, goal);
        Undo(newsz, oldsz, mem, m0, v);
      } else if r.Mapped? {
        OneHere(m, S(), v, Map(mem, true, true));
        HadRoom(m.dir, m.free[1..], S(), v);
        ProgressNext(m0, m, S(), lo, v, goal);
      }
    }

    // Grows the process from oldsz to newsz.  It panics exactly when some page of the range is mapped already
    // and the free list lasts up to it.  Otherwise it succeeds exactly when the free list covers the pages and
    // their tables: the new pages are then fresh and zeroed; on failure everything is undone.
    method Allocuvm(oldsz: int, newsz: int) returns (r: Growth)
      requires Valid() && 0 <= oldsz && 0 <= newsz
      modifies this
      ensures r.Size? ==> Valid()
      ensures |old(dir)| == 1024 && old(Sound(S()))
      ensures newsz >= KERNBASE ==> r == Size(0) && unchanged(this)
      ensures newsz < KERNBASE && newsz < oldsz ==> r == Size(oldsz) && unchanged(this)
      ensures oldsz <= newsz < KERNBASE ==> 0 <= Up(oldsz) <= Up(newsz) <= USER
      ensures oldsz <= newsz < KERNBASE ==>
                var lo, hi := Up(oldsz), Up(newsz); var goal := FirstMapped(old(S()), lo, hi);
                && lo <= goal <= hi && (goal == hi <==> Clear(old(S()), lo, hi))
                && (r.Panic? <==> goal < hi && Need(old(dir), lo, goal) + 1 <= |old(free)|)
                && (r.Size? && goal == hi && Need(old(dir), lo, hi) <= |old(free)| ==>
                      && r == Size(newsz) && |free| == |old(free)| - Need(old(dir), lo, hi)
                      && Grown(old(S()), S(), lo, hi) && Accounted(old(S()), S(), lo, hi, {}))
                && (r.Size? && (goal == hi ==> Need(old(dir), lo, hi) > |old(free)|) ==>
                      r == Size(0) && Undone(old(S()), lo, hi))
    {
      hide Owned, Walkable, Lookup, Chain, Usable, Need, WithTable, Progress, Grown, Accounted, Loose, Returned, Undone,
           FirstMapped, Clear;
      Sizes(S());
      if newsz >= KERNBASE {
        return Size(0);
      }
      if newsz < oldsz {
        return Size(oldsz);
      }
      ghost var lo, hi, v, m0 := Up(oldsz), Up(newsz), Up(oldsz), S();
      ghost var goal := FirstMapped(m0, lo, hi);
      FirstMappedIs(m0, lo, hi);
      ClearAll(m0, lo, goal, hi);
      var a := (oldsz + 4095) / 4096 * 4096;
      UpLess(v, newsz);
      ProgressStart(m0, lo, goal);
      while a < newsz
        invariant Valid() && a == 4096 * v && lo <= v <= goal && (a < newsz <==> v < hi)
        invariant Progress(m0, S(), lo, v, goal)
      {
        var t := Turn(a, newsz, oldsz, m0, v, goal);
        if t.Remap? {
          return Panic;
        }
        if t.NoTable? {
          return Size(0);
        }
        a := a + PGSIZE;
        v := v + 1;
        UpLess(v, newsz);
      }
      ProgressDone(m0, S(), lo, hi);
      ProgressParts(m0, S(), lo, hi, hi);
      r := Size(newsz);
    }
  }
}
