// The loops of pipewrite and piperead over the ring buffer (pipe.c).
module PipeBuffer {
  import opened Pipe

  const WORD: int := 0x1_0000_0000

  // The unread bytes are where their position says, modulo the size of the buffer.
  ghost predicate InRing(buf: seq<Byte>, stored: seq<Byte>, taken: int) {
    && |buf| == 512 && 0 <= taken <= |stored|
    && forall k {:trigger stored[k]} :: taken <= k < |stored| ==> buf[k % 512] == stored[k]
  }

  lemma SlotsApart(a: int, b: int)
    requires 0 <= a < b < a + 512
    ensures a % 512 != b % 512
  {
  }

  // 512 divides 2^32, so wrapping a counter keeps its slot.
  lemma WrappedSlot(k: int)
    requires 0 <= k
    ensures 0 <= k % WORD < WORD && k % WORD % 512 == k % 512 && 0 <= k % 512 < 512
  {
    var q := k / WORD;
    assert k == WORD * q + k % WORD;
    assert k == 512 * (0x80_0000 * q) + k % WORD;
  }

  lemma WrapStep(k: int)
    requires 0 <= k
    ensures (k % WORD + 1) % WORD == (k + 1) % WORD
  {
  }

  // The tests on the wrapped counters are exact while at most 512 bytes are unread.
  lemma WrappedTests(w: int, r: int)
    requires 0 <= r <= w <= r + 512
    ensures w % WORD == r % WORD <==> w == r
    ensures w % WORD == (r % WORD + 512) % WORD <==> w == r + 512
  {
    Wraps(r, w - r);
    Wraps(r, 512);
  }

  // Adding less than 2^32 to a counter wraps at most once.
  lemma Wraps(r: int, d: int)
    requires 0 <= r && 0 <= d < WORD
    ensures (r + d) % WORD == (if r % WORD + d < WORD then r % WORD + d else r % WORD + d - WORD)
    ensures (r % WORD + d) % WORD == (r + d) % WORD
  {
    var q := r / WORD;
    assert r == WORD * q + r % WORD;
    var m := r % WORD + d;
    if m < WORD {
      QuotientIs(r + d, q, m);
    } else {
      QuotientIs(r + d, q + 1, m - WORD);
    }
  }

  lemma QuotientIs(x: int, q: int, m: int)
    requires x == WORD * q + m && 0 <= m < WORD && 0 <= q
    ensures x % WORD == m
  {
  }

  lemma Stored(buf: seq<Byte>, stored: seq<Byte>, taken: int, b: Byte)
    requires InRing(buf, stored, taken) && |stored| < taken + 512
    ensures InRing(buf[|stored| % 512 := b], stored + [b], taken)
  {
    var n := |stored|;
    var buf' := buf[n % 512 := b];
    forall k {:trigger (stored + [b])[k]} | taken <= k < n + 1 ensures buf'[k % 512] == (stored + [b])[k] {
      if k < n { SlotsApart(k, n); }
    }
  }

  lemma Taken(buf: seq<Byte>, stored: seq<Byte>, taken: int)
    requires InRing(buf, stored, taken) && taken < |stored|
    ensures InRing(buf, stored, taken + 1) && buf[taken % 512] == stored[taken]
  {
  }

  class Ring {
    const data: array<Byte>
    var nread: int            // wraps at 2^32
    var nwrite: int           // wraps at 2^32
    var readopen: bool
    var writeopen: bool
    var writers: set<int>     // asleep on &p->nwrite
    var readers: set<int>     // asleep on &p->nread
    ghost var stored: seq<Byte>
    ghost var taken: int
    ghost var got: seq<Byte>

    ghost function Abs(): State
      reads this
    {
      State(stored, taken, got, readopen, writeopen, writers, readers)
    }

    ghost predicate Valid()
      reads this, data
    {
      && data.Length == 512 && Ok(Abs()) && InRing(data[..], stored, taken)
      && nread == taken % WORD && nwrite == |stored| % WORD
    }

    constructor ()
      ensures Valid() && Abs() == Start() && fresh(data)
    {
      data := new Byte[512];
      nread, nwrite, readopen, writeopen, writers, readers := 0, 0, true, true, {}, {};
      stored, taken, got := [], 0, [];
    }

    method StoreByte(b: Byte)
      requires Valid() && Unread(Abs()) < 512
      modifies data, this`nwrite, this`stored
      ensures Valid() && stored == old(stored) + [b]
    {
      hide InRing;
      WrappedSlot(|stored|);
      WrapStep(|stored|);
      Stored(data[..], stored, taken, b);
      data[nwrite % PIPESIZE] := b;
      nwrite := (nwrite + 1) % WORD;
      assert data[..] == old(data[..])[|stored| % 512 := b];
      stored := stored + [b];
    }

    // pipewrite's loop from byte first on, until it ends or has to sleep.
    method Pipewrite(p: int, addr: seq<Byte>, first: int, killed: bool) returns (i: int, out: Outcome)
      requires Valid() && 0 <= first <= |addr|
      modifies data, this`nwrite, this`stored, this`writers, this`readers
      ensures Valid() && (Abs(), out) == Write(old(Abs()), p, addr[first..], killed)
      ensures first <= i <= |addr| && stored == old(stored) + addr[first..i]
      ensures out == Done <==> i == |addr|
      ensures out != Done ==> |stored| == taken + 512 && out == if !readopen || killed then Failed else Slept
    {
      hide InRing;
      i := first;
      assert stored == stored + addr[first..i];
      while i < |addr|
        invariant Valid() && first <= i <= |addr| && i - first <= Room(old(Abs()))
        invariant stored == old(stored) + addr[first..i] && writers == old(writers) && readers == old(readers)
      {
        WrappedTests(|stored|, taken);
        if nwrite == (nread + PIPESIZE) % WORD {
          assert addr[first..][..Fits(old(Abs()), addr[first..])] == addr[first..i];
          if !readopen || killed {
            return i, Failed;
          }
          readers := {};
          writers := writers + {p};
          return i, Slept;
        }
        StoreByte(addr[i]);
        assert addr[first..i + 1] == addr[first..i] + [addr[i]];
        i := i + 1;
      }
      assert addr[first..][..Fits(old(Abs()), addr[first..])] == addr[first..i];
      readers := {};
      out := Done;
    }

    method TakeByte() returns (b: Byte)
      requires Valid() && Unread(Abs()) > 0
      modifies this`nread, this`taken, this`got
      ensures Valid() && b == stored[old(taken)] && taken == old(taken) + 1 && got == old(got) + [b]
    {
      hide InRing;
      WrappedSlot(taken);
      WrapStep(taken);
      Taken(data[..], stored, taken);
      b := data[nread % PIPESIZE];
      nread := (nread + 1) % WORD;
      assert stored[..taken] + [b] == stored[..taken + 1];
      taken, got := taken + 1, got + [b];
    }

    // piperead's copying loop.
    method CopyOut(n: int) returns (bytes: seq<Byte>)
      requires Valid()
      modifies this`nread, this`taken, this`got
      ensures Valid() && bytes == Front(old(Abs()), Amount(old(Abs()), n))
      ensures taken == old(taken) + Amount(old(Abs()), n) && got == old(got) + bytes
    {
      hide InRing;
      bytes := [];
      var i := 0;
      while i < n
        invariant Valid() && 0 <= i <= Amount(old(Abs()), n) && taken == old(taken) + i
        invariant bytes == Front(old(Abs()), i) && got == old(got) + bytes
      {
        WrappedTests(|stored|, taken);
        if nread == nwrite {
          break;
        }
        var b := TakeByte();
        bytes := bytes + [b];
        i := i + 1;
        assert bytes == Front(old(Abs()), i);
      }
    }

    // piperead, until it returns or has to sleep.
    method Piperead(p: int, n: int, killed: bool) returns (bytes: seq<Byte>, out: Outcome)
      requires Valid()
      modifies this`nread, this`taken, this`got, this`writers, this`readers
      ensures Valid() && (Abs(), out) == Read(old(Abs()), p, n, killed)
      ensures out == Done <==> old(taken < |stored| || !writeopen)
      ensures |bytes| == if out != Done || n <= 0 then 0 else if n <= old(|stored| - taken) then n else old(|stored| - taken)
      ensures bytes == old(stored)[old(taken)..old(taken) + |bytes|] && taken == old(taken) + |bytes|
    {
      hide InRing;
      WrappedTests(|stored|, taken);
      if nread == nwrite && writeopen {
        if killed {
          return [], Failed;
        }
        readers := readers + {p};
        return [], Slept;
      }
      bytes := CopyOut(n);
      writers := {};
      out := Done;
    }

    // pipeclose: gone says the page goes back to kfree.
    method Pipeclose(writable: bool) returns (gone: bool)
      requires Valid()
      modifies this`readopen, this`writeopen, this`writers, this`readers
      ensures Valid() && Abs() == Close(old(Abs()), writable) && gone == (!readopen && !writeopen)
      ensures writeopen == (old(writeopen) && !writable) && readopen == (old(readopen) && writable)
      ensures if writable then readers == {} else writers == {}
    {
      if writable {
        writeopen := false;
        readers := {};
      } else {
        readopen := false;
        writers := {};
      }
      gone := !readopen && !writeopen;
    }
  }
}
