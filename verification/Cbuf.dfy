/** Reading a section of a file as a ring, through a buffer, whatever the lengths the system's reads return. */
module Cbuf {
  import opened Bytes

  const BUFSIZE := 4096

  /** An open file: its content and the offset of the next read or write. */
  class File {
    var data: seq<Byte>
    var pos: nat

    constructor (data: seq<Byte>)
      ensures this.data == data && pos == 0
    {
      this.data, this.pos := data, 0;
    }

    method Seek(p: nat)
      modifies this`pos
      ensures pos == p
    {
      pos := p;
    }

    method Write(b: seq<Byte>)
      modifies this
      ensures data == Patched(old(data), old(pos), b) && pos == old(pos) + |b|
    {
      data := Patched(data, pos, b);
      pos := pos + |b|;
    }

    method Truncate()
      modifies this
      ensures data == [] && pos == 0
    {
      data, pos := [], 0;
    }

    /** The system's read: between one byte and all that was asked for; nothing at the end of the file. */
    method Read(buf: array<Byte>, n: nat) returns (r: nat)
      requires 0 < n <= buf.Length
      modifies this`pos, buf
      ensures r <= n && pos == old(pos) + r
      ensures r == 0 <==> old(pos) >= |data|
      ensures r > 0 ==> old(pos) + r <= |data| && buf[..r] == data[old(pos)..old(pos) + r]
    {
      if pos >= |data| {
        return 0;
      }
      r :| 1 <= r <= n && r <= |data| - pos;
      forall i | 0 <= i < r {
        buf[i] := data[pos + i];
      }
      assert buf[..r] == data[pos..pos + r];
      pos := pos + r;
    }
  }

  /** How much to ask for: up to the end of the section, at most a buffer, and not across a block boundary. */
  function Ask(sectsize: nat, sectpos: nat): (rlen: nat)
    requires sectpos < sectsize
    ensures 0 < rlen <= BUFSIZE && sectpos + rlen <= sectsize
    ensures sectpos / BUFSIZE == (sectpos + rlen - 1) / BUFSIZE
  {
    var rlen := if sectsize - sectpos > BUFSIZE then BUFSIZE else sectsize - sectpos;
    if sectpos - sectpos % BUFSIZE != sectpos + rlen - (sectpos + rlen) % BUFSIZE
    then rlen - (sectpos + rlen) % BUFSIZE
    else rlen
  }

  /** It is all there is up to the end of the section, or up to a block boundary. */
  lemma AskMost(sectsize: nat, sectpos: nat)
    requires sectpos < sectsize
    ensures sectpos + Ask(sectsize, sectpos) == sectsize || (sectpos + Ask(sectsize, sectpos)) % 4096 == 0
  {
  }

  /** Where `k` steps from `start` lead in a section of `size` bytes whose end is followed by its beginning. */
  ghost function Spot(start: nat, k: nat, size: nat): (p: nat)
    requires start < size
    ensures p < size
  {
    if k == 0 then start
    else
      var p := Spot(start, k - 1, size);
      if p + 1 == size then 0 else p + 1
  }

  /** Walking is adding, modulo the size. */
  lemma {:induction false} SpotIsModulo(start: nat, k: nat, size: nat)
    requires start < size
    ensures Spot(start, k, size) == (start + k) % size
  {
    if k > 0 {
      SpotIsModulo(start, k - 1, size);
      ModStep(start + k - 1, size);
    }
  }

  lemma {:induction false} SpotAhead(start: nat, n: nat, k: nat, size: nat)
    requires start < size && Spot(start, n, size) + k <= size
    ensures Spot(start, n + k, size) == if Spot(start, n, size) + k == size then 0 else Spot(start, n, size) + k
  {
    if k > 0 {
      SpotAhead(start, n, k - 1, size);
    }
  }

  ghost predicate HoldsAt(data: seq<Byte>, off: nat, size: nat, start: nat, k: nat, b: Byte)
    requires start < size
  {
    off + Spot(start, k, size) < |data| && b == data[off + Spot(start, k, size)]
  }

  /** `out` is what the section holds from `start` on, going round, and the file has all of it. */
  ghost predicate Ringed(data: seq<Byte>, off: nat, size: nat, start: nat, out: seq<Byte>)
    requires start < size
  {
    forall k :: 0 <= k < |out| ==> HoldsAt(data, off, size, start, k, out[k])
  }

  /** The file has `b` at `at`. */
  ghost predicate Holds(data: seq<Byte>, at: nat, b: seq<Byte>) {
    at + |b| <= |data| && data[at..at + |b|] == b
  }

  lemma RingedMore(data: seq<Byte>, off: nat, size: nat, start: nat, out: seq<Byte>, more: seq<Byte>)
    requires start < size && Ringed(data, off, size, start, out)
    requires Spot(start, |out|, size) + |more| <= size && Holds(data, off + Spot(start, |out|, size), more)
    ensures Ringed(data, off, size, start, out + more)
    ensures Spot(start, |out + more|, size)
         == if Spot(start, |out|, size) + |more| == size then 0 else Spot(start, |out|, size) + |more|
  {
    var p := Spot(start, |out|, size);
    SpotAhead(start, |out|, |more|, size);
    forall k | 0 <= k < |out + more| ensures HoldsAt(data, off, size, start, k, (out + more)[k]) {
      if k >= |out| {
        SpotAhead(start, |out|, k - |out|, size);
        assert more[k - |out|] == data[off + p..off + p + |more|][k - |out|];
      }
    }
  }

  lemma Front(b: seq<Byte>, len: nat, data: seq<Byte>, at: nat)
    requires len <= |b| && Holds(data, at, b)
    ensures Holds(data, at, b[..len]) && Holds(data, at + len, b[len..])
  {
  }

  class CbufReader {
    const f: File
    const buf: array<Byte>
    const sectoff: nat
    const sectsize: nat
    var sectpos: nat
    var bpos: nat
    var bend: nat

    constructor (f: File, start: nat, size: nat)
      requires size > 0
      ensures this.f == f && sectoff == start && sectsize == size && fresh(buf)
      ensures buf.Length == BUFSIZE && bpos == bend == 0
    {
      this.f, this.sectoff, this.sectsize := f, start, size;
      buf := new Byte[BUFSIZE](_ => 0);
      sectpos, bpos, bend := 0, 0, 0;
    }

    /** The section offset of the next byte to deliver: the bytes in the buffer end where the file stands. */
    ghost function Next(): int
      reads this
    {
      (if bpos < bend && sectpos == 0 then sectsize else sectpos) - (bend - bpos)
    }

    ghost predicate Valid()
      reads this, f, buf
    {
      && buf.Length == BUFSIZE && bpos <= bend <= BUFSIZE
      && sectpos < sectsize && f.pos == sectoff + sectpos && 0 <= Next()
      && (bpos < bend ==> Holds(f.data, sectoff + Next(), buf[bpos..bend]))
    }

    /** Move to a place in the section. What is buffered stays and is delivered first. */
    method Seek(pos: nat)
      modifies this`sectpos, f`pos
      ensures sectpos == pos && f.pos == sectoff + pos && f.data == old(f.data)
      ensures buf.Length == BUFSIZE && bpos == bend <= BUFSIZE && pos < sectsize ==> Valid() && Next() == pos
    {
      sectpos := pos;
      f.Seek(sectpos + sectoff);
    }

    /** Fill `p` with the bytes that come next, going round at the end of the section. It stops early,
        with an error, only at a byte that the file does not have. */
    method Read(p: array<Byte>) returns (nr: nat, ok: bool)
      requires Valid() && p != buf
      modifies this`sectpos, this`bpos, this`bend, f`pos, buf, p
      ensures Valid() && old(Next()) < sectsize
      ensures nr <= p.Length && (ok <==> nr == p.Length)
      ensures Ringed(f.data, sectoff, sectsize, old(Next()), p[..nr])
      ensures !ok ==> sectoff + Spot(old(Next()), nr, sectsize) >= |f.data|
      ensures Next() == Spot(old(Next()), nr, sectsize)
    {
      nr := 0;
      ghost var start := Next();
      while true
        invariant Valid() && nr <= p.Length && start < sectsize
        invariant Next() == Spot(start, nr, sectsize)
        invariant Ringed(f.data, sectoff, sectsize, start, p[..nr])
        decreases p.Length - nr - (bend - bpos)
      {
        var n := p.Length - nr;
        if n <= bend - bpos {
          Deliver(p, nr, n, start);
          nr := nr + n;
          return nr, true;
        }
        if bend != bpos {
          var len := bend - bpos;
          Deliver(p, nr, len, start);
          nr := nr + len;
        }
        Refill();
        if bend == 0 {
          return nr, false;
        }
      }
    }

    /** Copy the next `len` buffered bytes to `p` from `nr` on. */
    method Copy(p: array<Byte>, nr: nat, len: nat)
      requires p != buf && nr + len <= p.Length && bpos + len <= bend <= buf.Length
      modifies p
      ensures p[..nr + len] == old(p[..nr]) + buf[bpos..bend][..len]
    {
      forall k | 0 <= k < len {
        p[nr + k] := buf[bpos + k];
      }
    }

    /** Take `len` bytes off the front of the buffer. */
    method Skip(len: nat)
      requires Valid() && 0 < len <= bend - bpos
      modifies this`bpos
      ensures Valid() && bpos == old(bpos) + len
      ensures old(Next()) + len <= sectsize
      ensures Next() == if old(Next()) + len == sectsize then 0 else old(Next()) + len
    {
      ghost var held := buf[bpos..bend];
      Front(held, len, f.data, sectoff + Next());
      assert held[len..] == buf[bpos + len..bend];
      bpos := bpos + len;
    }

    method Deliver(p: array<Byte>, nr: nat, len: nat, ghost start: nat)
      requires Valid() && p != buf && nr + len <= p.Length && len <= bend - bpos
      requires start < sectsize && Next() == Spot(start, nr, sectsize)
      requires Ringed(f.data, sectoff, sectsize, start, p[..nr])
      modifies this`bpos, p
      ensures Valid() && bpos == old(bpos) + len
      ensures Next() == Spot(start, nr + len, sectsize)
      ensures Ringed(f.data, sectoff, sectsize, start, p[..nr + len])
    {
      if len > 0 {
        ghost var out, more := p[..nr], buf[bpos..bend][..len];
        Front(buf[bpos..bend], len, f.data, sectoff + Next());
        Copy(p, nr, len);
        Skip(len);
        RingedMore(f.data, sectoff, sectsize, start, out, more);
      }
    }

    /** Read more into the empty buffer; it stays empty at the end of the file. */
    method Refill()
      requires Valid() && bpos == bend
      modifies this`sectpos, this`bpos, this`bend, f`pos, buf
      ensures Valid() && Next() == old(Next()) && bpos == 0
      ensures bend == 0 <==> sectoff + Next() >= |f.data|
    {
      bpos, bend := 0, 0;
      var rlen := Ask(sectsize, sectpos);
      var r := f.Read(buf, rlen);
      if r == 0 {
        return;
      }
      bend := r;
      sectpos := sectpos + r;
      if sectpos >= sectsize {
        Seek(0);
      }
    }
  }

  // ---- counting modulo the size ----

  lemma ModStep(x: nat, size: nat)
    requires size > 0
    ensures (x + 1) % size == if x % size + 1 == size then 0 else x % size + 1
  {
    var q, r := x / size, x % size;
    assert x == q * size + r;
    if r + 1 == size {
      assert x + 1 == (q + 1) * size;
      ModIs(x + 1, q + 1, 0, size);
    } else {
      ModIs(x + 1, q, r + 1, size);
    }
  }

  lemma ModIs(x: nat, q: nat, r: nat, size: nat)
    requires r < size && x == q * size + r
    ensures x % size == r
  {
    var q', r' := x / size, x % size;
    SameRemainder(q, r, q', r', size);
  }

  lemma SameRemainder(q: nat, r: nat, q': nat, r': nat, size: nat)
    requires r < size && r' < size && q * size + r == q' * size + r'
    ensures r == r'
  {
    if q > q' {
      OneMoreTime(q, q', size);
    } else if q' > q {
      OneMoreTime(q', q, size);
    }
  }

  lemma OneMoreTime(a: nat, b: nat, size: nat)
    requires a > b
    ensures a * size >= b * size + size
  {
    assert a * size == (a - b) * size + b * size;
    assert (a - b) * size == (a - b - 1) * size + size;
  }
}
