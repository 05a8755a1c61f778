// The K&R storage allocator (umalloc.c).  Addresses count Header units.
module Umalloc {
  import opened Sequences

  const BASE: int := 0      // &base, below every address sbrk returns
  const NULL: int := -1

  // ---- The free list ----

  // The circle through ptr is fl.
  ghost predicate Linked(ptr: map<int, int>, fl: seq<int>) {
    forall i {:trigger After(fl, i)} :: 0 <= i < |fl| ==> fl[i] in ptr && ptr[fl[i]] == After(fl, i)
  }

  // base comes first, then the free blocks by address, none touching the next.
  ghost predicate Spaced(size: map<int, int>, fl: seq<int>) {
    && |fl| > 0 && fl[0] == BASE
    && (forall i :: 0 <= i < |fl| ==> fl[i] in size)
    && size[BASE] == 0
    && (forall i :: 0 < i < |fl| ==> size[fl[i]] > 0)
    && (forall i, j :: 0 <= i < j < |fl| ==> fl[i] + size[fl[i]] < fl[j])
  }

  function InsertAfter(fl: seq<int>, t: int, b: int): (r: seq<int>)
    requires 0 <= t < |fl|
    ensures |r| == |fl| + 1
    ensures forall i :: 0 <= i < |r| ==> r[i] == if i <= t then fl[i] else if i == t + 1 then b else fl[i - 1]
  {
    fl[..t + 1] + [b] + fl[t + 1..]
  }

  // Pointing a node past its successor takes the successor off the circle.
  lemma UnlinkNode(ptr: map<int, int>, fl: seq<int>, t: int)
    requires Linked(ptr, fl) && NoDup(fl) && 0 <= t && t + 1 < |fl| && fl[t] in ptr && fl[t + 1] in ptr
    ensures Linked(ptr[fl[t] := ptr[fl[t + 1]]], Without(fl, t + 1))
  {
    var w := Without(fl, t + 1);
    var p := ptr[fl[t] := ptr[fl[t + 1]]];
    forall i | 0 <= i < |w| ensures w[i] in p && p[w[i]] == After(w, i) {
      UnlinkNext(fl, t, i);
      assert ptr[fl[t + 1]] == After(fl, t + 1);
      assert i != t ==> w[i] != fl[t];
    }
  }

  lemma UnlinkNext(fl: seq<int>, t: int, i: int)
    requires 0 <= t && t + 1 < |fl| && 0 <= i < |fl| - 1
    ensures var w := Without(fl, t + 1);
            After(w, i) == After(fl, if i < t then i else i + 1) && w[i] == fl[if i <= t then i else i + 1]
  {
  }

  // Pointing a new node where its predecessor points, and the predecessor at it, puts it on the circle.
  lemma LinkNode(ptr: map<int, int>, fl: seq<int>, t: int, b: int)
    requires Linked(ptr, fl) && NoDup(fl) && 0 <= t < |fl| && b !in fl && fl[t] in ptr
    ensures Linked(ptr[b := ptr[fl[t]]][fl[t] := b], InsertAfter(fl, t, b))
  {
    var w := InsertAfter(fl, t, b);
    var p := ptr[b := ptr[fl[t]]][fl[t] := b];
    forall i | 0 <= i < |w| ensures w[i] in p && p[w[i]] == After(w, i) {
      LinkNext(fl, t, b, i);
      if i == t + 1 {
        assert ptr[fl[t]] == After(fl, t);
      } else if i < t {
        assert w[i] == fl[i] && ptr[fl[i]] == After(fl, i);
      } else if i > t + 1 {
        assert w[i] == fl[i - 1] && ptr[fl[i - 1]] == After(fl, i - 1);
      }
    }
  }

  lemma LinkNext(fl: seq<int>, t: int, b: int, i: int)
    requires 0 <= t < |fl| && 0 <= i < |fl| + 1
    ensures After(InsertAfter(fl, t, b), i) == if i == t then b else After(fl, if i < t then i else i - 1)
  {
  }

  lemma SpacedDistinct(size: map<int, int>, fl: seq<int>)
    requires Spaced(size, fl)
    ensures NoDup(fl)
    ensures forall i, j :: 0 <= i < j < |fl| ==> fl[i] < fl[j]
  {
    forall i, j | 0 <= i < j < |fl| ensures fl[i] < fl[j] {
      assert fl[i] + size[fl[i]] < fl[j];
    }
  }

  lemma SpacedAt(size: map<int, int>, fl: seq<int>)
    requires Spaced(size, fl)
    ensures |fl| > 0 && fl[0] == BASE && BASE in size && size[BASE] == 0
    ensures forall i :: 0 <= i < |fl| ==> fl[i] in size && fl[i] >= BASE && (i > 0 ==> fl[i] > BASE && size[fl[i]] > 0)
  {
    SpacedDistinct(size, fl);
  }

  lemma SpacedGap(size: map<int, int>, fl: seq<int>, t: int)
    requires Spaced(size, fl) && 0 <= t && t + 1 < |fl|
    ensures fl[t] in size && fl[t] + size[fl[t]] < fl[t + 1]
  {
  }

  lemma SpacedWithout(size: map<int, int>, fl: seq<int>, k: int)
    requires Spaced(size, fl) && 0 < k < |fl|
    ensures Spaced(size, Without(fl, k))
  {
  }

  lemma SpacedInsert(size: map<int, int>, fl: seq<int>, t: int, b: int, n: int)
    requires Spaced(size, fl) && 0 <= t < |fl| && n > 0
    requires fl[t] + size[fl[t]] < b && (t + 1 < |fl| ==> b + n < fl[t + 1])
    ensures Spaced(size[b := n], InsertAfter(fl, t, b)) && b !in fl
  {
    var w, s := InsertAfter(fl, t, b), size[b := n];
    forall i | 0 <= i < |fl| ensures fl[i] != b {
      InsertGap(size, fl, t, b, n, i);
    }
    SpacedFrame(size, fl, b, n);
    InsertSpaced(s, fl, t, b);
  }

  lemma InsertSpaced(s: map<int, int>, fl: seq<int>, t: int, b: int)
    requires Spaced(s, fl) && 0 <= t < |fl| && b in s && s[b] > 0
    requires fl[t] + s[fl[t]] < b && (t + 1 < |fl| ==> b + s[b] < fl[t + 1])
    ensures Spaced(s, InsertAfter(fl, t, b))
  {
    var w := InsertAfter(fl, t, b);
    forall i, j | 0 <= i < j < |w| ensures w[i] in s && w[i] + s[w[i]] < w[j] {
      if i == t + 1 {
        InsertGap(s, fl, t, b, s[b], j - 1);
      } else if j == t + 1 {
        InsertGap(s, fl, t, b, s[b], i);
      } else {
        var i', j' := if i <= t then i else i - 1, if j <= t then j else j - 1;
        assert fl[i'] + s[fl[i']] < fl[j'];
      }
    }
  }

  // A block put after the t-th is clear of every block on the list.
  lemma InsertGap(size: map<int, int>, fl: seq<int>, t: int, b: int, n: int, i: int)
    requires Spaced(size, fl) && 0 <= t < |fl| && 0 <= i < |fl| && n > 0
    requires fl[t] + size[fl[t]] < b && (t + 1 < |fl| ==> b + n < fl[t + 1])
    ensures if i <= t then fl[i] + size[fl[i]] < b && fl[i] < b else b + n < fl[i]
  {
    if i < t { assert fl[i] + size[fl[i]] < fl[t]; }
    if i > t + 1 { assert fl[t + 1] + size[fl[t + 1]] < fl[i]; }
  }

  // Growing or shrinking the t-th block so that it still ends before the next one.
  lemma SpacedResize(size: map<int, int>, fl: seq<int>, t: int, n: int)
    requires Spaced(size, fl) && 0 < t < |fl| && n > 0
    requires t + 1 < |fl| ==> fl[t] + n < fl[t + 1]
    ensures Spaced(size[fl[t] := n], fl)
  {
    SpacedDistinct(size, fl);
    var s := size[fl[t] := n];
    forall i, j | 0 <= i < j < |fl| ensures fl[i] + s[fl[i]] < fl[j] {
      if i == t && j > t + 1 { assert fl[t + 1] < fl[j]; }
    }
  }

  // ---- Every unit sbrk supplied is in exactly one block ----

  // own gives the block each supplied unit belongs to: blocks neither overlap nor leave units out.
  ghost predicate Tiles(size: map<int, int>, own: map<int, int>, blocks: set<int>) {
    && (forall b :: b in blocks ==> b in size)
    && (forall b, u :: b in blocks && b <= u < b + size[b] ==> u in own && own[u] == b)
    && (forall u :: u in own ==> own[u] in blocks && own[u] <= u < own[u] + size[own[u]])
  }

  lemma TileAt(size: map<int, int>, own: map<int, int>, blocks: set<int>, b: int, u: int)
    requires Tiles(size, own, blocks) && b in blocks && b <= u < b + size[b]
    ensures u in own && own[u] == b
  {
  }

  lemma TileOf(size: map<int, int>, own: map<int, int>, blocks: set<int>, u: int)
    requires Tiles(size, own, blocks) && u in own
    ensures own[u] in blocks && own[u] in size && own[u] <= u < own[u] + size[own[u]]
  {
  }

  lemma InTiles(size: map<int, int>, own: map<int, int>, blocks: set<int>)
    requires Tiles(size, own, blocks)
    ensures forall b :: b in blocks ==> b in size
  {
  }

  lemma TilesIntro(size: map<int, int>, own: map<int, int>, blocks: set<int>)
    requires forall b :: b in blocks ==> b in size
    requires forall b, u :: b in blocks && b <= u < b + size[b] ==> u in own && own[u] == b
    requires forall u :: u in own ==> own[u] in blocks && own[u] <= u < own[u] + size[own[u]]
    ensures Tiles(size, own, blocks)
  {
  }

  function Relabel(own: map<int, int>, a: int, b: int): map<int, int> {
    map u | u in own :: if own[u] == a then b else own[u]
  }

  lemma MergeTiles(size: map<int, int>, own: map<int, int>, blocks: set<int>, lo: int, hi: int)
    requires Tiles(size, own, blocks) && lo in blocks && hi in blocks && lo + size[lo] == hi
    requires size[lo] > 0 && size[hi] > 0
    ensures Tiles(size[lo := size[lo] + size[hi]], Relabel(own, hi, lo), blocks - {hi})
    ensures Relabel(own, hi, lo).Keys == own.Keys
  {
    hide Tiles;
    InTiles(size, own, blocks);
    var s, o, bs := size[lo := size[lo] + size[hi]], Relabel(own, hi, lo), blocks - {hi};
    forall b, u | b in bs && b <= u < b + s[b] ensures u in o && o[u] == b {
      TileAt(size, own, blocks, if b == lo && u >= hi then hi else b, u);
    }
    forall u | u in o ensures o[u] in bs && o[u] <= u < o[u] + s[o[u]] {
      TileOf(size, own, blocks, u);
    }
    TilesIntro(s, o, bs);
  }

  function Cut(own: map<int, int>, p: int, q: int): map<int, int> {
    map u | u in own :: if own[u] == p && u >= q then q else own[u]
  }

  lemma SplitTiles(size: map<int, int>, own: map<int, int>, blocks: set<int>, p: int, q: int, n: int)
    requires Tiles(size, own, blocks) && p in blocks && 0 < n && p < q && q + n == p + size[p]
    requires forall b :: b in blocks && b > p ==> size[b] > 0
    ensures Tiles(size[p := q - p][q := n], Cut(own, p, q), blocks + {q}) && q !in blocks
    ensures Cut(own, p, q).Keys == own.Keys
  {
    hide Tiles;
    InTiles(size, own, blocks);
    TileAt(size, own, blocks, p, q);
    if q in blocks { TileAt(size, own, blocks, q, q); }
    var s, o, bs := size[p := q - p][q := n], Cut(own, p, q), blocks + {q};
    forall b, u | b in bs && b <= u < b + s[b] ensures u in o && o[u] == b {
      TileAt(size, own, blocks, if b == q then p else b, u);
    }
    forall u | u in o ensures o[u] in bs && o[u] <= u < o[u] + s[o[u]] {
      TileOf(size, own, blocks, u);
    }
    TilesIntro(s, o, bs);
  }

  function Elems(fl: seq<int>): set<int> {
    set b | b in fl
  }

  // The free blocks in fl and the blocks in use partition what sbrk supplied.
  ghost predicate Blocks(size: map<int, int>, own: map<int, int>, fl: seq<int>, used: set<int>, brk: int) {
    && Spaced(size, fl) && Tiles(size, own, used + Elems(fl)) && used !! Elems(fl)
    && (forall b :: b in used ==> b > BASE && b in size && size[b] > 0)
    && BASE < brk && (forall u :: u in own ==> BASE < u < brk)
  }

  lemma BlocksAt(size: map<int, int>, own: map<int, int>, fl: seq<int>, used: set<int>, brk: int)
    requires Blocks(size, own, fl, used, brk)
    ensures Spaced(size, fl) && |fl| > 0 && fl[0] == BASE && NoDup(fl) && BASE in size && size[BASE] == 0
    ensures forall i :: 0 <= i < |fl| ==> fl[i] in size && fl[i] >= BASE && (i > 0 ==> fl[i] > BASE && size[fl[i]] > 0)
    ensures forall b :: b in used ==> b !in fl && b in size && size[b] > 0 && b > BASE
  {
    hide Tiles, Spaced;
    SpacedAt(size, fl);
    SpacedDistinct(size, fl);
    forall b | b in used ensures b !in fl {
      assert b !in Elems(fl);
    }
  }

  lemma NodeAt(size: map<int, int>, own: map<int, int>, fl: seq<int>, used: set<int>, brk: int, i: int)
    requires Blocks(size, own, fl, used, brk) && 0 <= i < |fl|
    ensures NoDup(fl) && fl[i] in size && (size[fl[i]] > 0 ==> i > 0 && fl[i] > BASE)
  {
    BlocksAt(size, own, fl, used, brk);
  }

  // A block in use lies in the gap between the free blocks around it.
  lemma Neighbours(size: map<int, int>, own: map<int, int>, fl: seq<int>, used: set<int>, brk: int, t: int, b: int)
    requires Blocks(size, own, fl, used, brk) && b in used && 0 <= t < |fl|
    requires fl[t] < b && (t + 1 < |fl| ==> b < fl[t + 1])
    ensures fl[t] + size[fl[t]] <= b && (t + 1 < |fl| ==> b + size[b] <= fl[t + 1])
  {
    assert fl[t] in Elems(fl) && own[b] == b;
    if t + 1 < |fl| {
      assert fl[t + 1] in Elems(fl) && own[fl[t + 1]] == fl[t + 1];
    }
  }

  lemma Below(size: map<int, int>, own: map<int, int>, fl: seq<int>, used: set<int>, brk: int, t: int, b: int)
    requires Blocks(size, own, fl, used, brk) && b in used && 0 <= t < |fl| && fl[t] < b
    ensures fl[t] in size && fl[t] + size[fl[t]] <= b
  {
    assert fl[t] in Elems(fl) && own[b] == b;
  }

  // Merging the free block above into a block being freed.
  lemma AbsorbAbove(size: map<int, int>, own: map<int, int>, fl: seq<int>, used: set<int>, brk: int, t: int, b: int)
    requires Blocks(size, own, fl, used, brk) && b in used && 0 <= t && t + 1 < |fl|
    requires b + size[b] == fl[t + 1]
    ensures Blocks(size[b := size[b] + size[fl[t + 1]]], Relabel(own, fl[t + 1], b), Without(fl, t + 1), used, brk)
  {
    hide Tiles, Spaced;
    SpacedAt(size, fl);
    var w := Without(fl, t + 1);
    SpacedDistinct(size, fl);
    SpacedWithout(size, fl, t + 1);
    WithoutElems(fl, t + 1);
    assert b !in fl && forall i :: 0 <= i < |w| ==> w[i] in fl;
    SpacedFrame(size, w, b, size[b] + size[fl[t + 1]]);
    assert fl[t + 1] in Elems(fl) && fl[0] in fl;
    MergeTiles(size, own, used + Elems(fl), b, fl[t + 1]);
    assert used + Elems(w) == used + Elems(fl) - {fl[t + 1]};
  }

  lemma WithoutElems(fl: seq<int>, k: int)
    requires NoDup(fl) && 0 <= k < |fl|
    ensures Elems(Without(fl, k)) == Elems(fl) - {fl[k]}
  {
    var w := Without(fl, k);
    forall x | x in Elems(fl) - {fl[k]} ensures x in Elems(w) {
      var i :| 0 <= i < |fl| && fl[i] == x;
      assert w[if i < k then i else i - 1] == x;
    }
  }

  lemma InsertElems(fl: seq<int>, t: int, b: int)
    requires 0 <= t < |fl|
    ensures Elems(InsertAfter(fl, t, b)) == Elems(fl) + {b}
  {
    var w := InsertAfter(fl, t, b);
    forall x | x in Elems(fl) ensures x in Elems(w) {
      var i :| 0 <= i < |fl| && fl[i] == x;
      assert w[if i <= t then i else i + 1] == x;
    }
    assert w[t + 1] == b;
  }

  lemma SameNode(fl: seq<int>, i: int, j: int)
    requires NoDup(fl) && 0 <= i < |fl| && 0 <= j < |fl| && fl[i] == fl[j]
    ensures i == j
  {
  }

  lemma WithoutKeeps(fl: seq<int>, k: int)
    requires 0 < k < |fl|
    ensures fl[k - 1] in Without(fl, k)
  {
    assert Without(fl, k)[k - 1] == fl[k - 1];
  }

  lemma InsertKeeps(fl: seq<int>, t: int, b: int)
    requires 0 <= t < |fl|
    ensures var w := InsertAfter(fl, t, b); w[t] == fl[t] && w[t] in w && w[t + 1] == b
  {
  }

  lemma SpacedFrame(size: map<int, int>, fl: seq<int>, b: int, n: int)
    requires Spaced(size, fl) && b !in fl
    ensures Spaced(size[b := n], fl)
  {
  }

  // Merging a block being freed into the free block below.
  lemma JoinBelow(size: map<int, int>, own: map<int, int>, fl: seq<int>, used: set<int>, brk: int, t: int, b: int)
    requires Blocks(size, own, fl, used, brk) && b in used && 0 < t < |fl|
    requires fl[t] + size[fl[t]] == b && (t + 1 < |fl| ==> b + size[b] < fl[t + 1])
    ensures Blocks(size[fl[t] := size[fl[t]] + size[b]], Relabel(own, b, fl[t]), fl, used - {b}, brk)
  {
    hide Tiles, Spaced;
    BlocksAt(size, own, fl, used, brk);
    SpacedResize(size, fl, t, size[fl[t]] + size[b]);
    assert fl[t] in Elems(fl);
    MergeTiles(size, own, used + Elems(fl), fl[t], b);
    assert used - {b} + Elems(fl) == used + Elems(fl) - {b};
  }

  // A freed block that touches nothing joins the list.
  lemma ReturnBlock(size: map<int, int>, own: map<int, int>, fl: seq<int>, used: set<int>, brk: int, t: int, b: int)
    requires Blocks(size, own, fl, used, brk) && b in used && 0 <= t < |fl|
    requires fl[t] + size[fl[t]] < b && (t + 1 < |fl| ==> b + size[b] < fl[t + 1])
    ensures Blocks(size, own, InsertAfter(fl, t, b), used - {b}, brk)
  {
    SpacedInsert(size, fl, t, b, size[b]);
    assert size[b := size[b]] == size;
    InsertElems(fl, t, b);
    assert used - {b} + Elems(InsertAfter(fl, t, b)) == used + Elems(fl);
  }

  // malloc hands out a whole free block.
  lemma TakeWhole(size: map<int, int>, own: map<int, int>, fl: seq<int>, used: set<int>, brk: int, t: int)
    requires Blocks(size, own, fl, used, brk) && 0 < t < |fl|
    ensures Blocks(size, own, Without(fl, t), used + {fl[t]}, brk)
  {
    SpacedDistinct(size, fl);
    SpacedWithout(size, fl, t);
    WithoutElems(fl, t);
    assert fl[t] in Elems(fl);
    assert used + {fl[t]} + Elems(Without(fl, t)) == used + Elems(fl);
  }

  // malloc hands out the tail of a free block.
  lemma TakeTail(size: map<int, int>, own: map<int, int>, fl: seq<int>, used: set<int>, brk: int, t: int, n: int)
    requires Blocks(size, own, fl, used, brk) && 0 < t < |fl| && 0 < n < size[fl[t]]
    ensures var p := fl[t]; var q := p + size[p] - n;
            && q !in used && q !in fl
            && Blocks(size[p := size[p] - n][q := n], Cut(own, p, q), fl, used + {q}, brk)
  {
    hide Tiles, Spaced;
    SpacedAt(size, fl);
    var p := fl[t];
    var q := p + size[p] - n;
    SpacedDistinct(size, fl);
    if t + 1 < |fl| { SpacedGap(size, fl, t); }
    SpacedResize(size, fl, t, size[p] - n);
    assert p in Elems(fl);
    SplitTiles(size, own, used + Elems(fl), p, q, n);
    SpacedFrame(size[p := size[p] - n], fl, q, n);
    assert used + {q} + Elems(fl) == used + Elems(fl) + {q};
  }

  // The n units from c, all in block c.
  function Chunk(c: int, n: int): (r: map<int, int>)
    ensures forall u :: u in r <==> c <= u < c + n
    ensures forall u :: u in r ==> r[u] == c
    decreases n
  {
    if n <= 0 then map[] else Chunk(c, n - 1)[c + n - 1 := c]
  }

  lemma AddTiles(size: map<int, int>, own: map<int, int>, blocks: set<int>, c: int, n: int)
    requires Tiles(size, own, blocks) && n > 0 && forall u :: u in own ==> u < c
    requires forall b :: b in blocks ==> size[b] > 0 || b < c
    ensures c !in blocks && Tiles(size[c := n], own + Chunk(c, n), blocks + {c})
  {
    hide Tiles;
    InTiles(size, own, blocks);
    var s, o, bs := size[c := n], own + Chunk(c, n), blocks + {c};
    forall b | b in blocks ensures b < c {
      if size[b] > 0 { TileAt(size, own, blocks, b, b); }
    }
    forall b, u | b in bs && b <= u < b + s[b] ensures u in o && o[u] == b {
      if b != c { TileAt(size, own, blocks, b, u); }
    }
    forall u | u in o ensures o[u] in bs && o[u] <= u < o[u] + s[o[u]] {
      if u < c { TileOf(size, own, blocks, u); }
    }
    TilesIntro(s, o, bs);
  }

  // What sbrk returns is a new block above everything.
  lemma AddCore(size: map<int, int>, own: map<int, int>, fl: seq<int>, used: set<int>, brk: int, c: int, n: int)
    requires Blocks(size, own, fl, used, brk) && brk <= c && 0 < n
    ensures c !in used && c !in fl
    ensures Blocks(size[c := n], own + Chunk(c, n), fl, used + {c}, c + n)
  {
    hide Tiles, Spaced;
    BlocksAt(size, own, fl, used, brk);
    assert forall b :: b in used + Elems(fl) ==> b in size && (size[b] > 0 || b < c);
    AddTiles(size, own, used + Elems(fl), c, n);
    assert c !in Elems(fl);
    SpacedFrame(size, fl, c, n);
    assert used + {c} + Elems(fl) == used + Elems(fl) + {c};
  }

  // ---- What the partition says ----

  // No two blocks share a unit.
  lemma BlocksApart(size: map<int, int>, own: map<int, int>, fl: seq<int>, used: set<int>, brk: int, a: int, b: int)
    requires Blocks(size, own, fl, used, brk) && a in used + Elems(fl) && b in used + Elems(fl) && a < b
    ensures a in size && a + size[a] <= b
  {
    hide Spaced;
    BlocksAt(size, own, fl, used, brk);
    if a + size[a] > b {
      TileAt(size, own, used + Elems(fl), a, b);
      TileAt(size, own, used + Elems(fl), b, b);
    }
  }

  ghost function Pick(s: set<int>): (x: int)
    requires s != {}
    ensures x in s
  {
    NonEmpty(s);
    var x :| x in s; x
  }

  lemma NonEmpty(s: set<int>)
    requires s != {}
    ensures exists x :: x in s
  {
    assert (forall x :: x !in s) ==> s == {};
  }

  ghost function SumUnits(size: map<int, int>, blocks: set<int>): int
    requires forall b :: b in blocks ==> b in size
    decreases |blocks|
  {
    if blocks == {} then 0 else size[Pick(blocks)] + SumUnits(size, blocks - {Pick(blocks)})
  }

  lemma {:induction false} ChunkCount(c: int, n: nat)
    ensures |Chunk(c, n).Keys| == n
  {
    if n > 0 {
      ChunkCount(c, n - 1);
      assert Chunk(c, n).Keys == Chunk(c, n - 1).Keys + {c + n - 1};
    }
  }

  // The sizes of the blocks, free and in use, add up to the units sbrk supplied.
  lemma {:induction false} UnitsConserved(size: map<int, int>, own: map<int, int>, blocks: set<int>)
    requires Tiles(size, own, blocks) && forall b :: b in blocks ==> b in size && size[b] >= 0
    ensures SumUnits(size, blocks) == |own.Keys|
    decreases |blocks|
  {
    hide Tiles;
    if blocks == {} {
      forall u | u in own ensures false {
        TileOf(size, own, blocks, u);
      }
      assert own.Keys == {};
    } else {
      var b := Pick(blocks);
      var rest := map u | u in own && own[u] != b :: own[u];
      DropTile(size, own, blocks, b, rest);
      UnitsConserved(size, rest, blocks - {b});
      ChunkCount(b, size[b]);
      assert own.Keys == rest.Keys + Chunk(b, size[b]).Keys;
    }
  }

  lemma DropTile(size: map<int, int>, own: map<int, int>, blocks: set<int>, b: int, rest: map<int, int>)
    requires Tiles(size, own, blocks) && b in blocks
    requires rest == map u | u in own && own[u] != b :: own[u]
    ensures Tiles(size, rest, blocks - {b})
    ensures own.Keys == rest.Keys + Chunk(b, size[b]).Keys && rest.Keys !! Chunk(b, size[b]).Keys
  {
    hide Tiles;
    InTiles(size, own, blocks);
    forall a, u | a in blocks - {b} && a <= u < a + size[a] ensures u in rest && rest[u] == a {
      TileAt(size, own, blocks, a, u);
    }
    forall u | u in rest ensures rest[u] in blocks - {b} && rest[u] <= u < rest[u] + size[rest[u]] {
      TileOf(size, own, blocks, u);
    }
    TilesIntro(size, rest, blocks - {b});
    forall u | u in own ensures u in rest || u in Chunk(b, size[b]) {
      TileOf(size, own, blocks, u);
    }
    forall u | u in Chunk(b, size[b]) ensures u in own && u !in rest {
      TileAt(size, own, blocks, b, u);
    }
  }

  // ---- The circle as free and malloc walk it ----

  lemma LinkedAt(ptr: map<int, int>, fl: seq<int>, i: int)
    requires Linked(ptr, fl) && 0 <= i < |fl|
    ensures fl[i] in ptr && ptr[fl[i]] == if i + 1 < |fl| then fl[i + 1] else fl[0]
  {
    assert ptr[fl[i]] == After(fl, i);
  }

  lemma LinkedFrame(ptr: map<int, int>, ptr': map<int, int>, fl: seq<int>)
    requires Linked(ptr, fl) && forall i :: 0 <= i < |fl| && fl[i] in ptr ==> fl[i] in ptr' && ptr'[fl[i]] == ptr[fl[i]]
    ensures Linked(ptr', fl)
  {
    forall i | 0 <= i < |fl| ensures fl[i] in ptr' && ptr'[fl[i]] == After(fl, i) {
      LinkedAt(ptr, fl, i);
    }
  }

  // Steps from the i-th node to the t-th.
  function Ahead(n: int, i: int, t: int): int {
    if i <= t then t - i else n - i + t
  }

  // The last node below b.
  lemma Place(size: map<int, int>, fl: seq<int>, b: int) returns (t: int)
    requires Spaced(size, fl) && b > BASE && b !in fl
    ensures 0 <= t < |fl| && fl[t] < b && (t + 1 < |fl| ==> b < fl[t + 1])
  {
    t := 0;
    while t + 1 < |fl| && fl[t + 1] < b
      invariant 0 <= t < |fl| && fl[t] < b
    {
      t := t + 1;
    }
  }

  // The tests that end free's search.
  predicate Stop(b: int, p: int, next: int) {
    (b > p && b < next) || (p >= next && (b > p || b < next))
  }

  // They hold at the last node below b and nowhere else.
  lemma StopsOnlyAtPlace(ptr: map<int, int>, size: map<int, int>, fl: seq<int>, b: int, t: int, i: int)
    requires Linked(ptr, fl) && Spaced(size, fl) && b > BASE && 0 <= i < |fl|
    requires 0 <= t < |fl| && fl[t] < b && (t + 1 < |fl| ==> b < fl[t + 1])
    ensures fl[i] in ptr && ptr[fl[i]] == fl[if i + 1 < |fl| then i + 1 else 0]
    ensures Stop(b, fl[i], ptr[fl[i]]) <==> i == t
  {
    LinkedAt(ptr, fl, i);
    SpacedDistinct(size, fl);
    assert i < t ==> fl[i + 1] <= fl[t];
    assert i > t ==> fl[t + 1] <= fl[i];
  }

  // ---- Request sizes ----

  // nunits of malloc, in 32-bit unsigned arithmetic.
  function NUnits(nbytes: int): int {
    (nbytes + 7) % 0x1_0000_0000 / 8 + 1
  }

  // The block has room for the request, and not a unit too many, exactly when nbytes + 7 does not wrap.
  lemma RoomForRequest(nbytes: int)
    requires 0 <= nbytes < 0x1_0000_0000
    ensures nbytes < 0x1_0000_0000 - 7 <==> 8 * (NUnits(nbytes) - 1) >= nbytes
    ensures nbytes < 0x1_0000_0000 - 7 ==> 8 * (NUnits(nbytes) - 1) < nbytes + 8
    ensures nbytes >= 0x1_0000_0000 - 7 ==> NUnits(nbytes) == 1
  {
    var wrapped := if nbytes < 0x1_0000_0000 - 7 then nbytes + 7 else nbytes + 7 - 0x1_0000_0000;
    WrappedOnce(nbytes + 7, wrapped);
    var q := NUnits(nbytes) - 1;
    assert 8 * q <= wrapped < 8 * q + 8;
  }

  lemma WrappedOnce(x: int, y: int)
    requires 0 <= y < 0x1_0000_0000 && (x == y || x == y + 0x1_0000_0000)
    ensures x % 0x1_0000_0000 == y
  {
  }

  // What sbrk is asked for: nu headers' worth of bytes, as a 32-bit int.
  function SbrkBytes(nu: int): int {
    var w := 8 * nu % 0x1_0000_0000;
    if w < 0x8000_0000 then w else w - 0x1_0000_0000
  }

  // morecore asks for the bytes it needs exactly when they fit an int; otherwise it asks for none, or to shrink.
  lemma SbrkAsksEnough(nu: int)
    requires 0 < nu <= 0x2000_0000
    ensures SbrkBytes(nu) == 8 * nu <==> nu < 0x1000_0000
    ensures nu >= 0x1000_0000 ==> SbrkBytes(nu) <= 0
  {
    if nu < 0x2000_0000 {
      WrappedOnce(8 * nu, 8 * nu);
    } else {
      WrappedOnce(8 * nu, 0);
    }
  }
}
