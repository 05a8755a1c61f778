// malloc and free of umalloc.c over the headers they update in place.
module Allocator {
  import opened Sequences
  import opened Umalloc

  // Some free block has at least n units.
  ghost predicate HasFit(size: map<int, int>, fl: seq<int>, n: int) {
    exists k :: 0 <= k < |fl| && fl[k] in size && size[fl[k]] >= n
  }

  lemma FitsHere(size: map<int, int>, fl: seq<int>, i: int, n: int)
    requires 0 <= i < |fl| && fl[i] in size && size[fl[i]] >= n
    ensures HasFit(size, fl, n)
  {
  }

  // The blocks in use keep their headers.
  ghost predicate SameSizes(size: map<int, int>, size': map<int, int>, used: set<int>) {
    forall b :: b in used ==> b in size && b in size' && size'[b] == size[b]
  }

  lemma SameToStart(size: map<int, int>, own: map<int, int>, fl: seq<int>, used: set<int>, brk: int)
    requires Blocks(size, own, fl, used, brk)
    ensures SameSizes(size, size, used)
  {
  }

  lemma SameSizesTrans(a: map<int, int>, b: map<int, int>, c: map<int, int>, used: set<int>)
    requires SameSizes(a, b, used) && SameSizes(b, c, used)
    ensures SameSizes(a, c, used)
  {
  }

  // The units morecore asks sbrk for.
  function Core(core: int, nu: int): set<int> {
    Chunk(core, if nu < 4096 then 4096 else nu).Keys
  }

  // sbrk, if it succeeds, supplies the units morecore needs.
  predicate Supplies(core: int, nu: int) {
    core == NULL || nu < 0x1000_0000
  }

  // The nodes malloc has looked at when it is at the i-th, having started after the s-th.
  predicate Visited(s: int, i: int, k: int) {
    if i > s then s < k < i else s < k || k < i
  }

  ghost predicate NoneFits(size: map<int, int>, fl: seq<int>, s: int, i: int, n: int) {
    forall k :: 0 <= k < |fl| && fl[k] in size && Visited(s, i, k) ==> size[fl[k]] < n
  }

  lemma NoneFitsStep(size: map<int, int>, fl: seq<int>, s: int, i: int, n: int)
    requires NoneFits(size, fl, s, i, n) && 0 <= s < |fl| && 0 <= i < |fl| && fl[i] in size && size[fl[i]] < n
    ensures i == s ==> !HasFit(size, fl, n)
    ensures i != s ==> NoneFits(size, fl, s, if i + 1 < |fl| then i + 1 else 0, n)
  {
  }

  lemma NoneYet(size: map<int, int>, fl: seq<int>, s: int, i: int, n: int)
    requires 0 <= s < |fl| && i == if s + 1 < |fl| then s + 1 else 0
    ensures NoneFits(size, fl, s, i, n)
  {
  }

  class Heap {
    var ptr: map<int, int>       // Header.s.ptr
    var size: map<int, int>      // Header.s.size
    var freep: int
    ghost var brk: int           // end of the data segment
    ghost var fl: seq<int>       // the free list, from base
    ghost var used: set<int>     // blocks handed out and not yet freed
    ghost var own: map<int, int> // the block of every unit sbrk supplied

    ghost predicate Started()
      reads this
    {
      Blocks(size, own, fl, used, brk) && Linked(ptr, fl) && freep in fl
    }

    ghost predicate Valid()
      reads this
    {
      if freep == NULL then fl == [] && used == {} && own == map[] && BASE < brk else Started()
    }

    // The blocks, free and in use, add up to the units sbrk has supplied.
    lemma Conserved()
      requires Started()
      ensures forall b :: b in used + Elems(fl) ==> b in size
      ensures SumUnits(size, used + Elems(fl)) == |own.Keys|
    {
      hide Tiles, Spaced, Linked;
      BlocksAt(size, own, fl, used, brk);
      assert forall b :: b in used + Elems(fl) ==> b in size && size[b] >= 0;
      UnitsConserved(size, own, used + Elems(fl));
    }

    constructor (top: int)
      requires BASE < top
      ensures Valid() && used == {} && own == map[] && brk == top
    {
      ptr, size, freep, brk := map[], map[], NULL, top;
      fl, used, own := [], {}, map[];
    }

    // The search loop of free: within one lap it stops at the last node below bp.
    method FindPlace(bp: int) returns (p: int, ghost t: int, ghost steps: nat)
      requires Started() && bp in used
      ensures 0 <= t < |fl| && p == fl[t] && fl[t] < bp && (t + 1 < |fl| ==> bp < fl[t + 1])
      ensures p in fl && p in ptr && p < bp && (bp < ptr[p] || ptr[p] == BASE) && steps < |fl|
    {
      hide Tiles, Spaced, Linked, Blocks, NoDup;
      ghost var n := |fl|;
      BlocksAt(size, own, fl, used, brk);
      t := Place(size, fl, bp);
      p := freep;
      ghost var i :| 0 <= i < n && fl[i] == freep;
      steps := 0;
      StopsOnlyAtPlace(ptr, size, fl, bp, t, i);
      while !(bp > p && bp < ptr[p])
        invariant 0 <= i < n && p == fl[i] && p in ptr && ptr[p] == fl[if i + 1 < n then i + 1 else 0]
        invariant steps + Ahead(n, i, t) < n
        invariant Stop(bp, p, ptr[p]) <==> i == t
        decreases Ahead(n, i, t)
      {
        if p >= ptr[p] && (bp > p || bp < ptr[p]) {
          break;
        }
        p := ptr[p];
        i := if i + 1 < n then i + 1 else 0;
        steps := steps + 1;
        StopsOnlyAtPlace(ptr, size, fl, bp, t, i);
      }
    }

    // Between the two halves of free: linking fl[t] where bp points would close the circle.
    ghost predicate Pending(bp: int, t: int)
      reads this
    {
      && Blocks(size, own, fl, used, brk) && bp in used && 0 <= t < |fl| && fl[t] < bp && bp in ptr
      && Linked(ptr[fl[t] := ptr[bp]], fl) && (t + 1 < |fl| ==> bp + size[bp] < fl[t + 1])
    }

    // The upper half of free's coalescing.
    method MergeAbove(bp: int, p: int, ghost t: int)
      requires Started() && bp in used && 0 <= t < |fl| && p == fl[t]
      requires fl[t] < bp && (t + 1 < |fl| ==> bp < fl[t + 1])
      modifies this`ptr, this`size, this`fl, this`own
      ensures Pending(bp, t) && fl[t] == p
      ensures size[bp] >= old(size[bp]) && own.Keys == old(own.Keys)
      ensures forall b :: b in used && b != bp ==> size[b] == old(size)[b]
    {
      hide Tiles, Spaced, Linked, Blocks, NoDup, Without;
      BlocksAt(size, own, fl, used, brk);
      Neighbours(size, own, fl, used, brk, t, bp);
      LinkedAt(ptr, fl, t);
      if bp + size[bp] == ptr[p] {
        LinkedAt(ptr, fl, t + 1);
        AbsorbAbove(size, own, fl, used, brk, t, bp);
        UnlinkNode(ptr, fl, t);
        if t + 2 < |fl| { SpacedGap(size, fl, t + 1); }
        ghost var next := ptr[p];
        size := size[bp := size[bp] + size[ptr[p]]];
        ptr := ptr[bp := ptr[ptr[p]]];
        own := Relabel(own, next, bp);
        fl := Without(fl, t + 1);
        LinkedFrame(old(ptr)[p := old(ptr)[next]], ptr[fl[t] := ptr[bp]], fl);
      } else {
        ptr := ptr[bp := ptr[p]];
        LinkedFrame(old(ptr), ptr[fl[t] := ptr[bp]], fl);
      }
    }

    // The lower half of free's coalescing.
    method MergeBelow(bp: int, p: int, ghost t: int)
      requires Pending(bp, t) && p == fl[t]
      modifies this
      ensures Started() && freep == p && used == old(used) - {bp} && brk == old(brk) && own.Keys == old(own.Keys)
      ensures forall b :: b in used ==> size[b] == old(size)[b]
      ensures freep in ptr && freep in size && ptr[freep] in size
      ensures size[freep] >= old(size)[bp] || size[ptr[freep]] >= old(size)[bp]
    {
      hide Tiles, Spaced, Linked, Blocks, NoDup, InsertAfter;
      BlocksAt(size, own, fl, used, brk);
      Below(size, own, fl, used, brk, t, bp);
      ghost var closed := ptr[p := ptr[bp]];
      if p + size[p] == bp {
        JoinBelow(size, own, fl, used, brk, t, bp);
        size := size[p := size[p] + size[bp]];
        ptr := ptr[p := ptr[bp]];
        own, used := Relabel(own, bp, p), used - {bp};
      } else {
        ReturnBlock(size, own, fl, used, brk, t, bp);
        LinkNode(closed, fl, t, bp);
        ptr := ptr[p := bp];
        fl, used := InsertAfter(fl, t, bp), used - {bp};
        LinkedFrame(closed[bp := closed[p]][p := bp], ptr, fl);
        InsertKeeps(old(fl), t, bp);
      }
      freep := p;
      LinkedAt(ptr, fl, t);
    }

    // free: the block joins the free list, merged with whatever it touches; no unit is lost or shared.
    method Free(bp: int)
      requires Started() && bp in used
      modifies this
      ensures Started() && used == old(used) - {bp} && brk == old(brk) && own.Keys == old(own.Keys)
      ensures forall b :: b in used ==> size[b] == old(size)[b]
      ensures freep in ptr && freep in size && ptr[freep] in size
      ensures size[freep] >= old(size)[bp] || size[ptr[freep]] >= old(size)[bp]
    {
      var p, t, _ := FindPlace(bp);
      MergeAbove(bp, p, t);
      MergeBelow(bp, p, t);
    }

    // The fitting branch of malloc: all of the block after prevp, or its tail.
    method Take(prevp: int, p: int, n: int, ghost i: int) returns (r: int)
      requires Started() && 0 < i < |fl| && p == fl[i] && prevp == fl[i - 1] && 0 < n && p in size && size[p] >= n
      modifies this
      ensures |fl| >= |old(fl)| - 1
      ensures Started() && r >= p && r !in old(used) && used == old(used) + {r} && r in size && size[r] == n
      ensures brk == old(brk) && own.Keys == old(own.Keys)
      ensures SameSizes(old(size), size, old(used))
    {
      hide Tiles, Spaced, Linked, Blocks, NoDup, Without;
      BlocksAt(size, own, fl, used, brk);
      LinkedAt(ptr, fl, i);
      LinkedAt(ptr, fl, i - 1);
      r := p;
      if size[p] == n {
        TakeWhole(size, own, fl, used, brk, i);
        UnlinkNode(ptr, fl, i - 1);
        WithoutKeeps(fl, i);
        ptr := ptr[prevp := ptr[p]];
        fl, used := Without(fl, i), used + {p};
      } else {
        TakeTail(size, own, fl, used, brk, i, n);
        ghost var q := p + size[p] - n;
        size := size[p := size[p] - n];
        r := r + size[p];
        size := size[r := n];
        own, used := Cut(own, p, q), used + {q};
      }
      freep := prevp;
    }

    // morecore: at least 4096 units from sbrk, freed onto the list; core is what sbrk returns.
    method Morecore(nu: int, core: int) returns (ok: bool)
      requires Started() && 0 < nu && (core == NULL || brk <= core) && Supplies(core, nu)
      modifies this
      ensures Started() && used == old(used) && ok == (core != NULL)
      ensures own.Keys == old(own.Keys) + (if ok then Core(core, nu) else {})
      ensures SameSizes(old(size), size, used)
      ensures ok ==> freep in ptr && freep in size && ptr[freep] in size && (size[freep] >= nu || size[ptr[freep]] >= nu)
      ensures !ok ==> fl == old(fl) && size == old(size)
    {
      hide Tiles, Spaced, Linked, Blocks, NoDup;
      BlocksAt(size, own, fl, used, brk);
      if core == NULL {
        assert own.Keys == own.Keys + {};
        return false;
      }
      var n := if nu < 4096 then 4096 else nu;
      AddCore(size, own, fl, used, brk, core, n);
      size := size[core := n];
      own, used, brk := own + Chunk(core, n), used + {core}, core + n;
      Free(core);
      BlocksAt(size, own, fl, used, brk);
      return true;
    }

    // base as the first, empty, node of the list.
    method Init()
      requires Valid() && freep == NULL
      modifies this
      ensures Started() && used == {} && own == map[] && brk == old(brk) && fl == [BASE] && size[BASE] == 0
    {
      ptr := ptr[BASE := BASE];
      freep := BASE;
      size := size[BASE := 0];
      fl := [BASE];
      assert Linked(ptr, fl);
      assert used + Elems(fl) == {BASE};
      assert freep == fl[0];
    }

    // The search loop of malloc: no more than one call of morecore, and then a block within the next lap;
    // looked counts the nodes tried since the start or since morecore.
    method Search(n: int, core: int) returns (r: int, ghost looked: nat)
      requires Started() && 0 < n && (core == NULL || brk <= core) && (HasFit(size, fl, n) || Supplies(core, n))
      modifies this
      ensures Started() && SameSizes(old(size), size, old(used))
      ensures r == NULL <==> core == NULL && !HasFit(old(size), old(fl), n)
      ensures own.Keys == old(own.Keys) + (if r == NULL || HasFit(old(size), old(fl), n) then {} else Core(core, n))
      ensures r == NULL ==> used == old(used) && fl == old(fl) && size == old(size)
      ensures r != NULL ==> r > BASE && r !in old(used) && used == old(used) + {r} && r in size && size[r] == n
      ensures looked <= |fl| + 1
    {
      hide Tiles, Spaced, Linked, Blocks, NoDup, NoneFits, HasFit, SameSizes;
      ghost var s :| 0 <= s < |fl| && fl[s] == freep;
      LinkedAt(ptr, fl, s);
      NodeAt(size, own, fl, used, brk, s);
      SameToStart(size, own, fl, used, brk);
      var prevp := freep;
      var p := ptr[prevp];
      ghost var i, grown := if s + 1 < |fl| then s + 1 else 0, false;
      looked := 0;
      NoneYet(size, fl, s, i, n);
      while true
        invariant Started() && used == old(used) && SameSizes(old(size), size, used)
        invariant 0 <= s < |fl| && fl[s] == freep && 0 <= i < |fl| && fl[i] == p && (i > 0 ==> prevp == fl[i - 1])
        invariant !grown ==> fl == old(fl) && size == old(size) && own == old(own) && brk == old(brk)
        invariant !grown ==> NoneFits(size, fl, s, i, n)
        invariant grown ==> core != NULL && !HasFit(old(size), old(fl), n) && own.Keys == old(own.Keys) + Core(core, n)
        invariant grown ==> p in size && freep in size && (size[p] >= n || size[freep] >= n)
        invariant looked + Ahead(|fl|, i, s) < |fl|
        decreases !grown, Ahead(|fl|, i, s)
      {
        NodeAt(size, own, fl, used, brk, i);
        looked := looked + 1;
        if size[p] >= n {
          FitsHere(size, fl, i, n);
          ghost var before := size;
          r := Take(prevp, p, n, i);
          SameSizesTrans(old(size), before, size, old(used));
          return;
        }
        if !grown { NoneFitsStep(size, fl, s, i, n); }
        if p == freep {
          SameNode(fl, i, s);
          ghost var before := size;
          var ok := Morecore(n, core);
          SameSizesTrans(old(size), before, size, used);
          if !ok {
            return NULL, looked;
          }
          p := freep;
          grown := true;
          looked := 0;
          s :| 0 <= s < |fl| && fl[s] == freep;
          i := s;
        }
        LinkedAt(ptr, fl, i);
        prevp := p;
        p := ptr[p];
        i := if i + 1 < |fl| then i + 1 else 0;
        NodeAt(size, own, fl, used, brk, i);
      }
    }

    // malloc: null, or a block of NUnits(nbytes) units that overlaps nothing in use.
    method Malloc(nbytes: int, core: int) returns (r: int)
      requires Valid() && 0 <= nbytes < 0x1_0000_0000 && (core == NULL || brk <= core)
      requires HasFit(size, fl, NUnits(nbytes)) || Supplies(core, NUnits(nbytes))
      modifies this
      ensures Valid()
      ensures r == NULL <==> core == NULL && !HasFit(old(size), old(fl), NUnits(nbytes))
      ensures own.Keys == old(own.Keys) + (if r == NULL || HasFit(old(size), old(fl), NUnits(nbytes)) then {}
                                           else Core(core, NUnits(nbytes)))
      ensures r == NULL ==> used == old(used)
      ensures r != NULL ==> (8 * (NUnits(nbytes) - 1) >= nbytes <==> nbytes < 0x1_0000_0000 - 7)
      ensures r != NULL ==> r - 1 !in old(used) && used == old(used) + {r - 1} && r - 1 in size && size[r - 1] == NUnits(nbytes)
      ensures SameSizes(old(size), size, old(used))
    {
      hide Tiles, Spaced, Linked, Blocks, NoDup;
      var nunits := NUnits(nbytes);
      RoomForRequest(nbytes);
      if freep == NULL {
        Init();
      } else {
        BlocksAt(size, own, fl, used, brk);
      }
      var p, _ := Search(nunits, core);
      BlocksAt(size, own, fl, used, brk);
      r := if p == NULL then NULL else p + 1;
    }
  }
}
