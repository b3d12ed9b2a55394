/** The byte buffer of a block (src/file/Page.cpp): 32-bit integers are stored least significant byte
    first in two's complement, as memcpy leaves them on the machines the engine runs on. */
module Pages {

  type byte = n: int | 0 <= n < 256
  type int32 = n: int | -0x8000_0000 <= n < 0x8000_0000

  type Bytes = seq<byte>

  /** The bytes of an integer. */
  function IntBytes(n: int32): (b: Bytes)
    ensures |b| == 4
  {
    var u := if n < 0 then n + 0x1_0000_0000 else n;
    [u % 256, u / 256 % 256, u / 65536 % 256, u / 16777216]
  }

  function Unsigned(b: Bytes): (u: int)
    requires |b| == 4
    ensures 0 <= u < 0x1_0000_0000
  {
    var b0: int, b1: int, b2: int, b3: int := b[0], b[1], b[2], b[3];
    b0 + 256 * b1 + 65536 * b2 + 16777216 * b3
  }

  function BytesInt(b: Bytes): (n: int32)
    requires |b| == 4
  {
    var u := Unsigned(b);
    if u >= 0x8000_0000 then u - 0x1_0000_0000 else u
  }

  lemma IntRoundTrip(n: int32)
    ensures BytesInt(IntBytes(n)) == n
  {
    var u := if n < 0 then n + 0x1_0000_0000 else n;
    assert u == u / 256 * 256 + u % 256;
    assert u / 65536 == u / 256 / 256;
    assert u / 16777216 == u / 65536 / 256;
  }

  /** The least significant byte comes first, and the sign is in the last. */
  lemma ByteOrder(n: nat, m: int32)
    requires n < 128
    ensures IntBytes(n) == [n, 0, 0, 0] && IntBytes(256 * n) == [0, n, 0, 0]
    ensures IntBytes(65536 * n) == [0, 0, n, 0] && IntBytes(16777216 * n) == [0, 0, 0, n]
    ensures m < 0 <==> IntBytes(m)[3] >= 128
  {
    assert 65536 * n / 256 == 256 * n;
    assert 16777216 * n / 256 == 65536 * n && 16777216 * n / 65536 == 256 * n;
  }

  lemma Digits(b0: byte, b1: byte, b2: byte, b3: byte)
    ensures var u := b0 + 256 * b1 + 65536 * b2 + 16777216 * b3;
      u % 256 == b0 && u / 256 % 256 == b1 && u / 65536 % 256 == b2 && u / 16777216 == b3
  {
    var u := b0 + 256 * b1 + 65536 * b2 + 16777216 * b3;
    assert u / 256 == b1 + 256 * b2 + 65536 * b3;
    assert u / 65536 == b2 + 256 * b3;
  }

  lemma BytesRoundTrip(b: Bytes)
    requires |b| == 4
    ensures IntBytes(BytesInt(b)) == b
  {
    Digits(b[0], b[1], b[2], b[3]);
  }

  /** The bounds test of getInt and setInt; outside it the source exits. */
  predicate Fits(p: Bytes, offset: int) {
    0 <= offset && offset + 4 <= |p|
  }

  function GetInt(p: Bytes, offset: int): int32
    requires Fits(p, offset)
  {
    BytesInt(p[offset..offset + 4])
  }

  function PutInt(p: Bytes, offset: int, n: int32): (q: Bytes)
    requires Fits(p, offset)
    ensures |q| == |p|
  {
    p[..offset] + IntBytes(n) + p[offset + 4..]
  }

  predicate Within(i: int, offset: int) {
    offset <= i < offset + 4
  }

  lemma PutIntAt(p: Bytes, offset: int, n: int32, i: int)
    requires Fits(p, offset) && 0 <= i < |p|
    ensures PutInt(p, offset, n)[i] == if Within(i, offset) then IntBytes(n)[i - offset] else p[i]
  {
  }

  /** Reading back what was written. */
  lemma GetPut(p: Bytes, offset: int, n: int32)
    requires Fits(p, offset)
    ensures GetInt(PutInt(p, offset, n), offset) == n
  {
    assert PutInt(p, offset, n)[offset..offset + 4] == IntBytes(n);
    IntRoundTrip(n);
  }

  /** Writing the old value back undoes a write. */
  lemma PutBack(p: Bytes, offset: int, n: int32)
    requires Fits(p, offset)
    ensures PutInt(PutInt(p, offset, n), offset, GetInt(p, offset)) == p
  {
    BytesRoundTrip(p[offset..offset + 4]);
    var q := PutInt(PutInt(p, offset, n), offset, GetInt(p, offset));
    forall i | 0 <= i < |p| ensures q[i] == p[i] {
      PutIntAt(PutInt(p, offset, n), offset, GetInt(p, offset), i);
      PutIntAt(p, offset, n, i);
    }
  }

  /** Writing the value read at a place restores its bytes in any page. */
  lemma PutOld(p: Bytes, q: Bytes, offset: int, i: int)
    requires |p| == |q| && Fits(p, offset) && 0 <= i < |p|
    ensures PutInt(q, offset, GetInt(p, offset))[i] == if Within(i, offset) then p[i] else q[i]
  {
    BytesRoundTrip(p[offset..offset + 4]);
    PutIntAt(q, offset, GetInt(p, offset), i);
  }

  predicate Apart(offset: int, other: int) {
    offset + 4 <= other || other + 4 <= offset
  }

  lemma GetPutApart(p: Bytes, offset: int, n: int32, other: int)
    requires Fits(p, offset) && Fits(p, other) && Apart(offset, other)
    ensures GetInt(PutInt(p, offset, n), other) == GetInt(p, other)
  {
    assert PutInt(p, offset, n)[other..other + 4] == p[other..other + 4];
  }

  /** A length-prefixed byte string fits at offset; getBytes and setBytes exit otherwise. */
  predicate HasBytes(p: Bytes, offset: int) {
    Fits(p, offset) && GetInt(p, offset) >= 0 && offset + 4 + GetInt(p, offset) <= |p|
  }

  function GetBytes(p: Bytes, offset: int): (b: Bytes)
    requires HasBytes(p, offset)
    ensures |b| == GetInt(p, offset)
  {
    p[offset + 4..offset + 4 + GetInt(p, offset)]
  }

  predicate FitsBytes(p: Bytes, offset: int, b: Bytes) {
    0 <= offset && offset + 4 + |b| <= |p| && |b| < 0x8000_0000
  }

  function PutBytes(p: Bytes, offset: int, b: Bytes): (q: Bytes)
    requires FitsBytes(p, offset, b)
    ensures |q| == |p|
  {
    p[..offset] + IntBytes(|b|) + b + p[offset + 4 + |b|..]
  }

  /** Page::maxLength: the bytes a string of the given length takes. */
  function MaxLength(strlen: nat): nat {
    4 + strlen
  }

  lemma GetPutBytes(p: Bytes, offset: int, b: Bytes)
    requires FitsBytes(p, offset, b)
    ensures var q := PutBytes(p, offset, b); HasBytes(q, offset) && GetBytes(q, offset) == b
  {
    var q := PutBytes(p, offset, b);
    assert q[offset..offset + 4] == IntBytes(|b|);
    IntRoundTrip(|b|);
    assert q[offset + 4..offset + 4 + |b|] == b;
  }

  /** The byte buffer as the source holds it: writes go to the buffer in place. */
  class PageBuffer {
    const bb: array<byte>

    constructor (blockSize: nat)
      ensures fresh(bb) && bb.Length == blockSize && forall i :: 0 <= i < blockSize ==> bb[i] == 0
    {
      bb := new byte[blockSize](_ => 0);
    }

    method CopyIn(offset: nat, b: Bytes)
      requires offset + |b| <= bb.Length
      modifies bb
      ensures bb[..] == old(bb[..offset]) + b + old(bb[offset + |b|..])
    {
      for i := 0 to |b|
        invariant bb[..offset] == old(bb[..offset])
        invariant bb[offset..offset + i] == b[..i]
        invariant bb[offset + |b|..] == old(bb[offset + |b|..])
      {
        bb[offset + i] := b[i];
        assert bb[offset..offset + i + 1] == bb[offset..offset + i] + [b[i]];
      }
      assert bb[..] == bb[..offset] + bb[offset..offset + |b|] + bb[offset + |b|..];
    }

    method SetInt(offset: int, n: int32)
      requires Fits(bb[..], offset)
      modifies bb
      ensures bb[..] == PutInt(old(bb[..]), offset, n)
    {
      CopyIn(offset, IntBytes(n));
    }

    method SetBytes(offset: int, b: Bytes)
      requires FitsBytes(bb[..], offset, b)
      modifies bb
      ensures bb[..] == PutBytes(old(bb[..]), offset, b)
    {
      ghost var was := bb[..];
      SetInt(offset, |b|);
      CopyIn(offset + 4, b);
      assert bb[..] == PutBytes(was, offset, b);
    }

    /** FileMgr::read replaces the whole buffer. */
    method Fill(b: Bytes)
      requires |b| == bb.Length
      modifies bb
      ensures bb[..] == b
    {
      CopyIn(0, b);
    }
  }
}
