/** Bytes, and the little-endian integer fields of a GPT header
    (GET_4_BYTES, GET_8_BYTES and PUT_4_BYTES of recovery/gpt-utils). */
module Bytes {
  type Byte = x: int | 0 <= x < 0x100
  type U32 = x: int | 0 <= x < 0x1_0000_0000
  type U64 = x: int | 0 <= x < 0x1_0000_0000_0000_0000

  /** The size of k things of z bytes, and where thing number k starts. Proofs that only
      compare such products hide the multiplication. */
  function Times(k: nat, z: nat): nat {
    k * z
  }

  function Get4(s: seq<Byte>, o: nat): U32
    requires o + 4 <= |s|
  {
    var b0: int, b1: int, b2: int, b3: int := s[o], s[o + 1], s[o + 2], s[o + 3];
    b0 + 0x100 * b1 + 0x1_0000 * b2 + 0x100_0000 * b3
  }

  function Get8(s: seq<Byte>, o: nat): U64
    requires o + 8 <= |s|
  {
    var lo: int, hi: int := Get4(s, o), Get4(s, o + 4);
    lo + 0x1_0000_0000 * hi
  }

  /** Byte number i of a 32-bit value: shift and mask. */
  function Octet(y: U32, i: nat): Byte
    requires i < 4
  {
    if i == 0 then y % 0x100
    else if i == 1 then y / 0x100 % 0x100
    else if i == 2 then y / 0x1_0000 % 0x100
    else y / 0x100_0000
  }

  function Put4(s: seq<Byte>, o: nat, y: U32): (r: seq<Byte>)
    requires o + 4 <= |s|
    ensures |r| == |s|
  {
    s[o := Octet(y, 0)][o + 1 := Octet(y, 1)][o + 2 := Octet(y, 2)][o + 3 := Octet(y, 3)]
  }

  /** Reading back what was written gives the value, for every 32-bit value, and the bytes
      around the field stay. */
  lemma GetAfterPut(s: seq<Byte>, o: nat, y: U32)
    requires o + 4 <= |s|
    ensures Get4(Put4(s, o, y), o) == y
    ensures forall i {:trigger Put4(s, o, y)[i]} :: 0 <= i < |s| && !(o <= i < o + 4) ==> Put4(s, o, y)[i] == s[i]
  {
    Octets(y);
    hide Octet;
    var r := Put4(s, o, y);
    assert r[o] == Octet(y, 0) && r[o + 1] == Octet(y, 1) && r[o + 2] == Octet(y, 2) && r[o + 3] == Octet(y, 3);
  }

  lemma Octets(y: U32)
    ensures var a: int, b: int, c: int, d: int := Octet(y, 0), Octet(y, 1), Octet(y, 2), Octet(y, 3);
            a + 0x100 * b + 0x1_0000 * c + 0x100_0000 * d == y
  {
    hide Octet;
    var q1, r0 := y / 0x100, y % 0x100;
    var q2, r1 := q1 / 0x100, q1 % 0x100;
    var q3, r2 := q2 / 0x100, q2 % 0x100;
    Digits(r0, r1, r2, q3);
  }

  /** Writing back what was read changes nothing. */
  lemma PutOfGet(s: seq<Byte>, o: nat)
    requires o + 4 <= |s|
    ensures Put4(s, o, Get4(s, o)) == s
  {
    Digits(s[o], s[o + 1], s[o + 2], s[o + 3]);
    hide Octet;
  }

  lemma Quotient(x: int, q: int, r: int, d: int)
    requires d in {0x100, 0x1_0000, 0x100_0000} && x == q * d + r && 0 <= r < d
    ensures x / d == q && x % d == r
  {
  }

  lemma Digits(b0: Byte, b1: Byte, b2: Byte, b3: Byte)
    ensures var x: int, y: int, z: int, w: int := b0, b1, b2, b3;
            var v := x + 0x100 * y + 0x1_0000 * z + 0x100_0000 * w;
            && 0 <= v < 0x1_0000_0000
            && Octet(v, 0) == b0 && Octet(v, 1) == b1 && Octet(v, 2) == b2 && Octet(v, 3) == b3
  {
    var x: int, y: int, z: int, w: int := b0, b1, b2, b3;
    var v := x + 0x100 * y + 0x1_0000 * z + 0x100_0000 * w;
    Quotient(v, y + 0x100 * z + 0x1_0000 * w, x, 0x100);
    Quotient(y + 0x100 * z + 0x1_0000 * w, z + 0x100 * w, y, 0x100);
    Quotient(v, z + 0x100 * w, x + 0x100 * y, 0x1_0000);
    Quotient(z + 0x100 * w, w, z, 0x100);
    Quotient(v, w, x + 0x100 * y + 0x1_0000 * z, 0x100_0000);
  }

  /** Writes to the same field: the last one wins. */
  lemma PutPut(s: seq<Byte>, o: nat, x: U32, y: U32)
    requires o + 4 <= |s|
    ensures Put4(Put4(s, o, x), o, y) == Put4(s, o, y)
  {
  }

  /** The macro PUT_4_BYTES on a buffer in memory. */
  method PutInto(a: array<Byte>, o: nat, y: U32)
    requires o + 4 <= a.Length
    modifies a
    ensures a[..] == Put4(old(a[..]), o, y)
  {
    a[o] := Octet(y, 0);
    a[o + 1] := Octet(y, 1);
    a[o + 2] := Octet(y, 2);
    a[o + 3] := Octet(y, 3);
  }
}
