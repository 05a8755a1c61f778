// Directories (fs.c): a file of 16-byte entries read and written through readi and writei, and
// the finite map from names to inode numbers that it stands for.
module Directory {
  import opened Volume
  import opened FreeSpace
  import opened Files

  const DIRSIZ: int := 14
  const DESIZE: int := 16
  const T_DIR: int := 1

  // struct dirent
  datatype Dirent = Dirent(inum: int, name: seq<byte>)

  predicate WfEntry(e: Dirent) {
    0 <= e.inum < 0x1_0000 && |e.name| == DIRSIZ
  }

  function Encode(e: Dirent): (b: seq<byte>)
    requires WfEntry(e)
    ensures |b| == DESIZE && b[0] as int + 0x100 * (b[1] as int) == e.inum && b[2..] == e.name
  {
    [e.inum % 0x100, e.inum / 0x100] + e.name
  }

  function Decode(b: seq<byte>): (e: Dirent)
    requires |b| == DESIZE
    ensures WfEntry(e)
  {
    Dirent(b[0] as int + 0x100 * (b[1] as int), b[2..])
  }

  lemma EncodeDecode(e: Dirent)
    requires WfEntry(e)
    ensures Decode(Encode(e)) == e
  {
    assert Encode(e)[2..] == e.name;
  }

  // ---- C strings (string.c) ----

  // The character at k of a string that ends with a NUL.
  function At(s: seq<byte>, k: int): byte
    requires 0 <= k
  {
    if k < |s| then s[k] else 0
  }

  // The string as strncmp and strncpy with bound n see it: up to the first NUL, n at most.
  function Cut(s: seq<byte>, n: int): (r: seq<byte>)
    requires 0 <= n
    ensures |r| <= n && r <= s
    ensures forall k :: 0 <= k < |r| ==> r[k] != 0
    ensures |r| < n ==> At(s, |r|) == 0
  {
    if n == 0 || s == [] || s[0] == 0 then [] else [s[0]] + Cut(s[1..], n - 1)
  }

  // Two cuts of the same bound that agree on a prefix and at its end agree.
  lemma {:induction false} CutIs(s: seq<byte>, n: int, r: seq<byte>)
    requires 0 <= n && |r| <= n && r <= s && (forall k :: 0 <= k < |r| ==> r[k] != 0)
    requires |r| < n ==> At(s, |r|) == 0
    ensures Cut(s, n) == r
  {
    if r != [] {
      assert r[1..] <= s[1..] && (|r| < n ==> At(s[1..], |r| - 1) == At(s, |r|));
      CutIs(s[1..], n - 1, r[1..]);
    }
  }

  // strncmp: zero exactly when the two strings agree up to a NUL or n characters.
  method Strncmp(p: seq<byte>, q: seq<byte>, n: int) returns (r: int)
    requires 0 <= n
    ensures r == 0 <==> Cut(p, n) == Cut(q, n)
  {
    var k := 0;
    while k < n && At(p, k) != 0 && At(p, k) == At(q, k)
      invariant 0 <= k <= n && k <= |p| && k <= |q|
      invariant p[..k] == q[..k] && forall j :: 0 <= j < k ==> p[j] != 0
    {
      k := k + 1;
    }
    if k == n {
      CutIs(p, n, p[..k]);
      CutIs(q, n, q[..k]);
      return 0;
    }
    r := At(p, k) as int - At(q, k) as int;
    if r == 0 {
      CutIs(p, n, p[..k]);
      CutIs(q, n, q[..k]);
    } else {
      DifferAt(p, q, n, k);
    }
  }

  lemma {:induction false} DifferAt(p: seq<byte>, q: seq<byte>, n: int, k: int)
    requires 0 <= k < n && k <= |p| && k <= |q| && p[..k] == q[..k] && At(p, k) != At(q, k)
    requires forall j :: 0 <= j < k ==> p[j] != 0
    ensures Cut(p, n) != Cut(q, n)
  {
    if k > 0 {
      assert p[0] == p[..k][0] == q[..k][0] == q[0];
      assert p[1..][..k - 1] == p[..k][1..] && q[1..][..k - 1] == q[..k][1..];
      DifferAt(p[1..], q[1..], n - 1, k - 1);
      assert Cut(p, n)[1..] == Cut(p[1..], n - 1) && Cut(q, n)[1..] == Cut(q[1..], n - 1);
    }
  }

  // strncpy into a field of n bytes: the cut string, padded with zeros.
  method Strncpy(t: seq<byte>, n: int) returns (s: seq<byte>)
    requires 0 <= n
    ensures |s| == n && Cut(s, n) == Cut(t, n)
    ensures forall k :: |Cut(t, n)| <= k < n ==> s[k] == 0
  {
    s := [];
    while |s| < n && At(t, |s|) != 0
      invariant |s| <= n && s <= t && forall k :: 0 <= k < |s| ==> s[k] != 0
    {
      s := s + [At(t, |s|)];
    }
    ghost var c := s;
    CutIs(t, n, c);
    while |s| < n
      invariant |c| <= |s| <= n && c <= s && forall k :: |c| <= k < |s| ==> s[k] == 0
    {
      s := s + [0];
    }
    CutIs(s, n, c);
  }

  // ---- The directory as a map ----

  function NameOf(e: Dirent): seq<byte> {
    Cut(e.name, DIRSIZ)
  }

  predicate Live(e: Dirent) { e.inum != 0 }

  // No two live entries have the same name.
  ghost predicate UniqueNames(es: seq<Dirent>) {
    forall j, k :: 0 <= j < k < |es| && Live(es[j]) && Live(es[k]) ==> NameOf(es[j]) != NameOf(es[k])
  }

  function MapOf(es: seq<Dirent>): map<seq<byte>, int> {
    if es == [] then map[]
    else
      var m, e := MapOf(es[..|es| - 1]), es[|es| - 1];
      if Live(e) then m[NameOf(e) := e.inum] else m
  }

  // A name is bound exactly when a live entry carries it, and to that entry's inode.
  lemma {:induction false} MapAt(es: seq<Dirent>, name: seq<byte>)
    requires UniqueNames(es)
    ensures forall k :: 0 <= k < |es| && Live(es[k]) && NameOf(es[k]) == name ==> name in MapOf(es) && MapOf(es)[name] == es[k].inum
    ensures name in MapOf(es) ==> exists k :: 0 <= k < |es| && Live(es[k]) && NameOf(es[k]) == name
  {
    if es != [] {
      var front := es[..|es| - 1];
      MapAt(front, name);
      if name in MapOf(front) {
        var k :| 0 <= k < |front| && Live(front[k]) && NameOf(front[k]) == name;
        assert es[k] == front[k];
      }
    }
  }

  // Filling a free slot (or the slot past the end) with a new name adds exactly that binding;
  // an entry whose inode number is zero adds none.
  lemma MapOfAdd(es: seq<Dirent>, k: int, e: Dirent)
    requires UniqueNames(es) && 0 <= k <= |es| && (k < |es| ==> !Live(es[k]))
    requires forall j :: 0 <= j < |es| && Live(es[j]) ==> NameOf(es[j]) != NameOf(e)
    ensures var fs := if k < |es| then es[k := e] else es + [e];
      UniqueNames(fs) && MapOf(fs) == if Live(e) then MapOf(es)[NameOf(e) := e.inum] else MapOf(es)
  {
    var fs := if k < |es| then es[k := e] else es + [e];
    var m := if Live(e) then MapOf(es)[NameOf(e) := e.inum] else MapOf(es);
    forall name ensures (name in MapOf(fs) <==> name in m) && (name in m ==> MapOf(fs)[name] == m[name]) {
      MapAt(es, name);
      MapAt(fs, name);
      AddedEntries(es, k, e, name);
    }
  }

  lemma AddedEntries(es: seq<Dirent>, k: int, e: Dirent, name: seq<byte>)
    requires 0 <= k <= |es| && (k < |es| ==> !Live(es[k]))
    ensures var fs := if k < |es| then es[k := e] else es + [e];
      (exists j :: 0 <= j < |fs| && Live(fs[j]) && NameOf(fs[j]) == name) <==>
      (Live(e) && NameOf(e) == name) || (exists j :: 0 <= j < |es| && Live(es[j]) && NameOf(es[j]) == name)
  {
    var fs := if k < |es| then es[k := e] else es + [e];
    assert fs[k] == e;
    if j :| 0 <= j < |es| && Live(es[j]) && NameOf(es[j]) == name { assert fs[j] == es[j]; }
  }

  // Clearing a live entry removes exactly its binding.
  lemma MapOfClear(es: seq<Dirent>, k: int, e: Dirent)
    requires UniqueNames(es) && 0 <= k < |es| && Live(es[k]) && !Live(e)
    ensures UniqueNames(es[k := e]) && MapOf(es[k := e]) == MapOf(es) - {NameOf(es[k])}
  {
    var fs, m := es[k := e], MapOf(es) - {NameOf(es[k])};
    forall name ensures (name in MapOf(fs) <==> name in m) && (name in m ==> MapOf(fs)[name] == m[name]) {
      MapAt(es, name);
      MapAt(fs, name);
      if name in m {
        var j :| 0 <= j < |es| && Live(es[j]) && NameOf(es[j]) == name;
        assert fs[j] == es[j];
      }
    }
  }

  // ---- The entries in the file ----

  function EntryAt(c: seq<byte>, k: int): Dirent
    requires 0 <= k && DESIZE * (k + 1) <= |c|
  {
    Decode(c[DESIZE * k..DESIZE * k + DESIZE])
  }

  function Entries(c: seq<byte>): (es: seq<Dirent>)
    ensures |es| == |c| / DESIZE
    ensures forall k :: 0 <= k < |es| ==> es[k] == EntryAt(c, k)
  {
    seq(|c| / DESIZE, k requires 0 <= k < |c| / DESIZE => EntryAt(c, k))
  }

  lemma SplicedAt(c: seq<byte>, o: int, b: seq<byte>, i: int)
    requires 0 <= o <= |c| && 0 <= i < |Spliced(c, o, b)|
    ensures Spliced(c, o, b)[i] == if o <= i < o + |b| then b[i - o] else c[i]
  {
  }

  // The 16 bytes at lo after 16 bytes were written at o.
  lemma SplicedSlice(c: seq<byte>, o: int, b: seq<byte>, lo: int)
    requires 0 <= o <= |c| && |b| == DESIZE && 0 <= lo && lo + DESIZE <= |Spliced(c, o, b)|
    requires lo == o || lo + DESIZE <= o || o + DESIZE <= lo
    ensures lo != o ==> lo + DESIZE <= |c|
    ensures Spliced(c, o, b)[lo..lo + DESIZE] == if lo == o then b else c[lo..lo + DESIZE]
  {
    hide Spliced;
    var d := Spliced(c, o, b);
    var want := if lo == o then b else c[lo..lo + DESIZE];
    forall i | 0 <= i < DESIZE ensures d[lo..lo + DESIZE][i] == want[i] {
      SplicedAt(c, o, b, lo + i);
    }
  }

  // Writing one entry's bytes changes that entry, or appends one.
  lemma EntriesSpliced(c: seq<byte>, k: int, b: seq<byte>)
    requires |c| % DESIZE == 0 && 0 <= k <= |c| / DESIZE && |b| == DESIZE
    ensures var d := Spliced(c, DESIZE * k, b);
      && |d| % DESIZE == 0
      && Entries(d) == if k < |c| / DESIZE then Entries(c)[k := Decode(b)] else Entries(c) + [Decode(b)]
  {
    hide Spliced, Decode;
    var d := Spliced(c, DESIZE * k, b);
    assert |d| / DESIZE == if k < |c| / DESIZE then |c| / DESIZE else k + 1;
    forall j | 0 <= j < |d| / DESIZE
      ensures EntryAt(d, j) == if j == k then Decode(b) else EntryAt(c, j)
    {
      SplicedSlice(c, DESIZE * k, b, DESIZE * j);
    }
  }

  datatype LookupResult = Found(inum: int, off: int) | NotFound | NotDir
  datatype LinkResult = Linked | Exists | LinkPanic

  ghost predicate DirOk(fs: FileSystem, dp: int)
    reads fs
  {
    && fs.Valid() && 0 <= dp < |fs.inodes|
    && fs.inodes[dp].size % DESIZE == 0
    && UniqueNames(Entries(Contents(fs.g, fs.V(), dp)))
  }

  ghost function EntriesOf(fs: FileSystem, dp: int): seq<Dirent>
    requires DirOk(fs, dp)
    reads fs
  {
    Entries(Contents(fs.g, fs.V(), dp))
  }

  // One more entry fits the largest file, and the blocks it takes are free.
  ghost predicate RoomToGrow(g: Layout, v: Vol, dp: int)
    requires Shape(g, v) && 0 <= dp < |v.inodes|
  {
    var size := v.inodes[dp].size;
    size + DESIZE <= MAXFILE * BSIZE && FreeCount(v.bmap, g.size) >= NeedFor(g, v, dp, size, DESIZE)
  }

  // Rewriting an entry takes no block.
  lemma EntryInside(g: Layout, v: Vol, i: int, off: int)
    requires NoHoles(g, v) && 0 <= i < |v.inodes| && 0 <= off && off + DESIZE <= v.inodes[i].size
    ensures NeedFor(g, v, i, off, DESIZE) == 0
  {
    hide Need, Slot;
    forall bn | off / BSIZE <= bn <= (off + DESIZE - 1) / BSIZE ensures MappedBlock(g, v, i, bn) {
      assert bn * BSIZE < v.inodes[i].size;
    }
    NeedNone(g, v, i, off / BSIZE, (off + DESIZE - 1) / BSIZE);
  }

  // The directory's finite map.
  ghost function Names(fs: FileSystem, dp: int): map<seq<byte>, int>
    requires DirOk(fs, dp)
    reads fs
  {
    MapOf(EntriesOf(fs, dp))
  }

  // readi of one whole entry.
  method ReadEntry(fs: FileSystem, dp: int, k: int) returns (e: Dirent)
    requires DirOk(fs, dp) && fs.inodes[dp].typ == T_DIR && 0 <= k && DESIZE * (k + 1) <= fs.inodes[dp].size
    modifies fs
    ensures fs.V() == old(fs.V()) && DirOk(fs, dp)
    ensures e == EntriesOf(fs, dp)[k]
  {
    var r, dst := fs.Readi(dp, DESIZE * k, DESIZE);
    e := Decode(dst);
  }

  // dirlookup: the first live entry whose name agrees on 14 bytes.
  method Dirlookup(fs: FileSystem, dp: int, name: seq<byte>) returns (r: LookupResult)
    requires DirOk(fs, dp)
    modifies fs
    ensures fs.V() == old(fs.V()) && DirOk(fs, dp)
    ensures r.NotDir? <==> fs.inodes[dp].typ != T_DIR
    ensures r.Found? ==> Cut(name, DIRSIZ) in Names(fs, dp) && Names(fs, dp)[Cut(name, DIRSIZ)] == r.inum
    ensures r.Found? ==>
      && 0 <= r.off < fs.inodes[dp].size && r.off % DESIZE == 0
      && Live(EntriesOf(fs, dp)[r.off / DESIZE]) && NameOf(EntriesOf(fs, dp)[r.off / DESIZE]) == Cut(name, DIRSIZ)
    ensures r.NotFound? ==> Cut(name, DIRSIZ) !in Names(fs, dp)
  {
    hide Owned, NoHoles, UniqueNames, Contents, MapOf, Cut;
    if fs.inodes[dp].typ != T_DIR { return NotDir; }
    ghost var es := EntriesOf(fs, dp);
    MapAt(es, Cut(name, DIRSIZ));
    var k := 0;
    while DESIZE * k < fs.inodes[dp].size
      invariant 0 <= k <= |es| && fs.V() == old(fs.V()) && DirOk(fs, dp)
      invariant forall j :: 0 <= j < k && Live(es[j]) ==> NameOf(es[j]) != Cut(name, DIRSIZ)
      decreases fs.inodes[dp].size - DESIZE * k
    {
      var de := ReadEntry(fs, dp, k);
      if de.inum != 0 {
        var cmp := Strncmp(name, de.name, DIRSIZ);
        if cmp == 0 {
          return Found(de.inum, DESIZE * k);
        }
      }
      k := k + 1;
    }
    return NotFound;
  }

  // dirlink's search for an empty dirent: the first one, or the end of the directory.
  method FindFree(fs: FileSystem, dp: int) returns (k: int)
    requires DirOk(fs, dp) && fs.inodes[dp].typ == T_DIR
    modifies fs
    ensures fs.V() == old(fs.V()) && DirOk(fs, dp)
    ensures 0 <= k <= |EntriesOf(fs, dp)| && (k < |EntriesOf(fs, dp)| ==> !Live(EntriesOf(fs, dp)[k]))
    ensures forall j :: 0 <= j < k ==> Live(EntriesOf(fs, dp)[j])
  {
    ghost var es := EntriesOf(fs, dp);
    k := 0;
    while DESIZE * k < fs.inodes[dp].size
      invariant 0 <= k <= |es| && fs.V() == old(fs.V()) && DirOk(fs, dp)
      invariant forall j :: 0 <= j < k ==> Live(es[j])
      decreases fs.inodes[dp].size - DESIZE * k
    {
      var de := ReadEntry(fs, dp, k);
      if de.inum == 0 { return; }
      k := k + 1;
    }
  }

  // Writing entry e over slot k of the directory, or past its end.
  method WriteEntry(fs: FileSystem, dp: int, k: int, e: Dirent) returns (ok: bool)
    requires DirOk(fs, dp) && fs.inodes[dp].typ == T_DIR && 0 <= k <= |EntriesOf(fs, dp)| && WfEntry(e)
    modifies fs
    ensures ok ==>
      && fs.Valid() && |fs.inodes| == |old(fs.inodes)| && fs.inodes[dp].size % DESIZE == 0
      && SplicedFile(fs.g, old(fs.V()), fs.V(), dp, DESIZE * k, Encode(e))
      && fs.Logs(old(fs.V()), old(fs.dinodes))
      && Entries(Contents(fs.g, fs.V(), dp)) ==
           if k < |old(EntriesOf(fs, dp))| then old(EntriesOf(fs, dp))[k := e] else old(EntriesOf(fs, dp)) + [e]
    ensures k < |old(EntriesOf(fs, dp))| ==> ok
    ensures k == |old(EntriesOf(fs, dp))| ==> (ok <==> RoomToGrow(fs.g, old(fs.V()), dp))
  {
    hide LogsBlocks, LogsInodes;
    if k < |EntriesOf(fs, dp)| { EntryInside(fs.g, fs.V(), dp, DESIZE * k); }
    ghost var c := Contents(fs.g, fs.V(), dp);
    EntriesSpliced(c, k, Encode(e));
    EncodeDecode(e);
    var b := Encode(e);
    assert b[..DESIZE] == b;
    var r := fs.Writei(dp, b, DESIZE * k, DESIZE);
    ok := r == Done(DESIZE);
  }

  ghost predicate FullOfLive(fs: FileSystem, dp: int)
    requires DirOk(fs, dp)
    reads fs
  {
    forall e :: e in EntriesOf(fs, dp) ==> Live(e)
  }

  // dirlink: refuse a name that is present; otherwise add exactly one binding.  The inode number
  // is stored in 16 bits, so a number that is zero modulo 65536 binds nothing.
  method Dirlink(fs: FileSystem, dp: int, name: seq<byte>, inum: int) returns (r: LinkResult)
    requires DirOk(fs, dp) && 0 <= inum < UINT
    modifies fs
    ensures r == (if old(fs.inodes)[dp].typ != T_DIR then LinkPanic
                  else if Cut(name, DIRSIZ) in old(Names(fs, dp)) then Exists
                  else if old(FullOfLive(fs, dp)) && !RoomToGrow(fs.g, old(fs.V()), dp) then LinkPanic
                  else Linked)
    ensures r.Exists? ==> fs.V() == old(fs.V()) && DirOk(fs, dp)
    ensures r.Linked? ==>
      && DirOk(fs, dp)
      && Names(fs, dp) == (if inum % 0x1_0000 == 0 then old(Names(fs, dp))
                           else old(Names(fs, dp))[Cut(name, DIRSIZ) := inum % 0x1_0000])
      && |fs.inodes| == |old(fs.inodes)|
      && (forall j :: 0 <= j < |fs.inodes| && j != dp ==> Contents(fs.g, fs.V(), j) == Contents(fs.g, old(fs.V()), j))
      && fs.Logs(old(fs.V()), old(fs.dinodes))
  {
    hide Owned, NoHoles, UniqueNames, Contents, MapOf, Cut, RoomToGrow, LogsBlocks, LogsInodes;
    var found := Dirlookup(fs, dp, name);
    if found.NotDir? { return LinkPanic; }
    if found.Found? { return Exists; }
    var k := FindFree(fs, dp);
    ghost var es := EntriesOf(fs, dp);
    var nm := Strncpy(name, DIRSIZ);
    var de := Dirent(inum % 0x1_0000, nm);
    NotBound(es, Cut(name, DIRSIZ));
    MapOfAdd(es, k, de);
    var ok := WriteEntry(fs, dp, k, de);
    r := if ok then Linked else LinkPanic;
  }

  lemma NotBound(es: seq<Dirent>, name: seq<byte>)
    requires UniqueNames(es) && name !in MapOf(es)
    ensures forall j :: 0 <= j < |es| && Live(es[j]) ==> NameOf(es[j]) != name
  {
    MapAt(es, name);
  }

  // sys_unlink's clearing of a live entry: exactly that binding goes.
  method ClearEntry(fs: FileSystem, dp: int, off: int)
    requires DirOk(fs, dp) && fs.inodes[dp].typ == T_DIR && 0 <= off < fs.inodes[dp].size && off % DESIZE == 0
    requires Live(EntriesOf(fs, dp)[off / DESIZE])
    modifies fs
    ensures
      && DirOk(fs, dp)
      && Names(fs, dp) == old(Names(fs, dp)) - {old(NameOf(EntriesOf(fs, dp)[off / DESIZE]))}
      && |fs.inodes| == |old(fs.inodes)|
      && (forall j :: 0 <= j < |fs.inodes| && j != dp ==> Contents(fs.g, fs.V(), j) == Contents(fs.g, old(fs.V()), j))
      && fs.Logs(old(fs.V()), old(fs.dinodes))
  {
    hide LogsBlocks, LogsInodes;
    var e := Dirent(0, Zeros(DIRSIZ));
    MapOfClear(EntriesOf(fs, dp), off / DESIZE, e);
    var ok := WriteEntry(fs, dp, off / DESIZE, e);
    assert ok;
  }
}
