/** Big-endian 32-bit words in byte sequences. */
module Bytes {
  type Byte = b: int | 0 <= b < 256
  type U32 = n: int | 0 <= n < 0x1_0000_0000

  function Enc32(n: U32): (b: seq<Byte>)
    ensures |b| == 4
  {
    [n / 0x100_0000, n / 0x1_0000 % 256, n / 256 % 256, n % 256]
  }

  function Dec32(b: seq<Byte>): U32
    requires |b| == 4
  {
    (b[0] as int) * 0x100_0000 + (b[1] as int) * 0x1_0000 + (b[2] as int) * 256 + (b[3] as int)
  }

  lemma Dec32Enc32(n: U32)
    ensures Dec32(Enc32(n)) == n
  {
    assert n == 256 * (n / 256) + n % 256;
    assert n / 256 == 256 * (n / 0x1_0000) + n / 256 % 256;
    assert n / 0x1_0000 == 256 * (n / 0x100_0000) + n / 0x1_0000 % 256;
  }

  function EncWords(ws: seq<U32>): (b: seq<Byte>)
    ensures |b| == 4 * |ws|
  {
    if ws == [] then [] else Enc32(ws[0]) + EncWords(ws[1..])
  }

  function DecWords(b: seq<Byte>): (ws: seq<U32>)
    requires |b| % 4 == 0
    ensures 4 * |ws| == |b|
  {
    if b == [] then [] else [Dec32(b[..4])] + DecWords(b[4..])
  }

  lemma {:induction false} DecWordsEncWords(ws: seq<U32>)
    ensures DecWords(EncWords(ws)) == ws
  {
    if ws != [] {
      assert EncWords(ws)[..4] == Enc32(ws[0]);
      assert EncWords(ws)[4..] == EncWords(ws[1..]);
      Dec32Enc32(ws[0]);
      DecWordsEncWords(ws[1..]);
    }
  }

  function Zeros(n: nat): (z: seq<Byte>)
    ensures |z| == n
  {
    seq(n, _ => 0)
  }

  /** A file's content after `b` is written at `pos`; a gap before `pos` reads as zeros. */
  function Patched(data: seq<Byte>, pos: nat, b: seq<Byte>): (d: seq<Byte>)
    ensures |d| == if pos + |b| > |data| then pos + |b| else |data|
    ensures d[pos..pos + |b|] == b
    ensures forall i :: 0 <= i < |data| && !(pos <= i < pos + |b|) ==> d[i] == data[i]
  {
    if pos >= |data| then data + Zeros(pos - |data|) + b
    else data[..pos] + b + if pos + |b| < |data| then data[pos + |b|..] else []
  }

  /** A stretch of the file that a write elsewhere leaves alone. */
  lemma PatchedElsewhere(data: seq<Byte>, pos: nat, b: seq<Byte>, at: nat, len: nat)
    requires at + len <= |data| && (at + len <= pos || pos + |b| <= at)
    ensures Patched(data, pos, b)[at..at + len] == data[at..at + len]
  {
  }

  /** Nothing was ever written here: what the file has of it is zeros. */
  ghost predicate Vacant(data: seq<Byte>, from: nat, to: nat) {
    forall i :: from <= i < to && i < |data| ==> data[i] == 0
  }

  lemma VacantElsewhere(data: seq<Byte>, pos: nat, b: seq<Byte>, from: nat, to: nat)
    requires Vacant(data, from, to) && (pos + |b| <= from || to <= pos)
    ensures Vacant(Patched(data, pos, b), from, to)
  {
  }
}
