/**
  Bytes, Java-width integers and the little-endian encodings that Agrona's
  UnsafeBuffer uses for `putInt`/`putLong` (native order on the platforms the
  system runs on). Every message view of the system stores its fields through
  these encodings.
*/
module Bytes {

  newtype byte = b: int | 0 <= b < 256

  /** Java `int` and `long`. */
  type int32 = v: int | -0x8000_0000 <= v < 0x8000_0000
  type int64 = v: int | -0x8000_0000_0000_0000 <= v < 0x8000_0000_0000_0000

  const SIZE_OF_INT: nat := 4
  const SIZE_OF_LONG: nat := 8

  const TWO_32: nat := 0x1_0000_0000
  const TWO_64: nat := 0x1_0000_0000_0000_0000

  /** Java's `long` subtraction, which wraps around modulo 2^64. */
  function SubLong(a: int64, b: int64): (r: int64)
    ensures (r - (a - b)) % TWO_64 == 0
    ensures -0x8000_0000_0000_0000 <= a - b < 0x8000_0000_0000_0000 ==> r == a - b
  {
    var d := (a - b) % TWO_64;
    if d < 0x8000_0000_0000_0000 then d else d - TWO_64
  }

  /** Java's `long` addition, which wraps around modulo 2^64. */
  function AddLong(a: int64, b: int64): (r: int64)
    ensures (r - (a + b)) % TWO_64 == 0
    ensures -0x8000_0000_0000_0000 <= a + b < 0x8000_0000_0000_0000 ==> r == a + b
  {
    var d := (a + b) % TWO_64;
    if d < 0x8000_0000_0000_0000 then d else d - TWO_64
  }

  function Pow256(k: nat): (r: nat)
    ensures r >= 1
  {
    if k == 0 then 1 else 256 * Pow256(k - 1)
  }

  lemma Pow256Widths()
    ensures Pow256(4) == TWO_32 && Pow256(8) == TWO_64
  {
    assert Pow256(2) == 0x1_0000;
    assert Pow256(4) == 0x1_0000 * Pow256(2) by {
      assert Pow256(4) == 256 * (256 * Pow256(2));
    }
    assert Pow256(6) == 0x1_0000 * Pow256(4) by {
      assert Pow256(6) == 256 * (256 * Pow256(4));
    }
    assert Pow256(8) == 0x1_0000 * Pow256(6) by {
      assert Pow256(8) == 256 * (256 * Pow256(6));
    }
  }

  /** The k low-order bytes of n, least significant first. */
  function EncodeLE(n: nat, k: nat): (r: seq<byte>)
    ensures |r| == k
  {
    if k == 0 then [] else [(n % 256) as byte] + EncodeLE(n / 256, k - 1)
  }

  /** The unsigned value of a little-endian byte string. */
  function DecodeLE(s: seq<byte>): (n: nat)
  {
    if s == [] then 0 else s[0] as nat + 256 * DecodeLE(s[1..])
  }

  /** `k` bytes hold less than 256^k. */
  lemma {:induction false} DecodeLEBound(s: seq<byte>)
    ensures DecodeLE(s) < Pow256(|s|)
  {
    if s != [] {
      DecodeLEBound(s[1..]);
    }
  }

  lemma {:induction false} DecodeEncodeLE(n: nat, k: nat)
    requires n < Pow256(k)
    ensures DecodeLE(EncodeLE(n, k)) == n
  {
    if k > 0 {
      var q, m := n / 256, n % 256;
      assert n == 256 * q + m;
      DivBound(n, Pow256(k - 1));
      var r := EncodeLE(n, k);
      assert r == [m as byte] + EncodeLE(q, k - 1);
      assert r[1..] == EncodeLE(q, k - 1);
      DecodeEncodeLE(q, k - 1);
    }
  }

  lemma {:induction false} EncodeDecodeLE(s: seq<byte>)
    ensures EncodeLE(DecodeLE(s), |s|) == s
  {
    if s != [] {
      var d := DecodeLE(s[1..]);
      DivMod256(s[0] as nat, d);
      EncodeDecodeLE(s[1..]);
    }
  }

  lemma DivBound(n: nat, p: nat)
    requires n < 256 * p
    ensures n / 256 < p
  {
  }

  lemma DivMod256(a: nat, b: nat)
    requires a < 256
    ensures (a + 256 * b) % 256 == a && (a + 256 * b) / 256 == b
  {
    var n := a + 256 * b;
    assert n == 256 * b + a;
  }

  /** Two's-complement encodings of Java `int` and `long`. */
  function EncodeInt(v: int32): (r: seq<byte>)
    ensures |r| == SIZE_OF_INT
  {
    EncodeLE(if v < 0 then v + TWO_32 else v, SIZE_OF_INT)
  }

  function DecodeInt(s: seq<byte>): (v: int32)
    requires |s| == SIZE_OF_INT
  {
    DecodeLEBound(s);
    Pow256Widths();
    var u := DecodeLE(s);
    if u >= 0x8000_0000 then u - TWO_32 else u
  }

  function EncodeLong(v: int64): (r: seq<byte>)
    ensures |r| == SIZE_OF_LONG
  {
    EncodeLE(if v < 0 then v + TWO_64 else v, SIZE_OF_LONG)
  }

  function DecodeLong(s: seq<byte>): (v: int64)
    requires |s| == SIZE_OF_LONG
  {
    DecodeLEBound(s);
    Pow256Widths();
    var u := DecodeLE(s);
    if u >= 0x8000_0000_0000_0000 then u - TWO_64 else u
  }

  /** Zero bytes decode to zero, whatever their number. */
  lemma {:induction false} DecodeZeros(s: seq<byte>)
    requires forall i | 0 <= i < |s| :: s[i] == 0
    ensures DecodeLE(s) == 0
  {
    if s != [] {
      DecodeZeros(s[1..]);
    }
  }

  /** A zero-filled buffer reads 0 from every `long` field. */
  lemma ZeroLong(s: seq<byte>, index: int)
    requires 0 <= index && index + SIZE_OF_LONG <= |s| && forall i | 0 <= i < |s| :: s[i] == 0
    ensures GetLong(s, index) == 0
  {
    DecodeZeros(s[index..index + SIZE_OF_LONG]);
  }

  lemma DecodeEncodeInt(v: int32)
    ensures DecodeInt(EncodeInt(v)) == v
  {
    Pow256Widths();
    DecodeEncodeLE(if v < 0 then v + TWO_32 else v, SIZE_OF_INT);
  }

  lemma DecodeEncodeLong(v: int64)
    ensures DecodeLong(EncodeLong(v)) == v
  {
    Pow256Widths();
    DecodeEncodeLE(if v < 0 then v + TWO_64 else v, SIZE_OF_LONG);
  }

  /** Every four bytes are the encoding of exactly one `int`: decoding is injective. */
  lemma EncodeDecodeInt(s: seq<byte>)
    requires |s| == SIZE_OF_INT
    ensures EncodeInt(DecodeInt(s)) == s
  {
    DecodeLEBound(s);
    Pow256Widths();
    EncodeDecodeLE(s);
  }

  /** Every eight bytes are the encoding of exactly one `long`. */
  lemma EncodeDecodeLong(s: seq<byte>)
    requires |s| == SIZE_OF_LONG
    ensures EncodeLong(DecodeLong(s)) == s
  {
    DecodeLEBound(s);
    Pow256Widths();
    EncodeDecodeLE(s);
  }

  /** `s` with `bytes` written at `pos`: what Agrona's `putBytes` does to the buffer. */
  function Splice(s: seq<byte>, pos: int, bytes: seq<byte>): (r: seq<byte>)
    requires 0 <= pos && pos + |bytes| <= |s|
    ensures |r| == |s|
  {
    s[..pos] + bytes + s[pos + |bytes|..]
  }

  lemma SpliceAt(s: seq<byte>, pos: int, bytes: seq<byte>)
    requires 0 <= pos && pos + |bytes| <= |s|
    ensures Splice(s, pos, bytes)[pos..pos + |bytes|] == bytes
    ensures forall i | 0 <= i < |s| && !(pos <= i < pos + |bytes|) :: Splice(s, pos, bytes)[i] == s[i]
    ensures forall i | pos <= i < pos + |bytes| :: Splice(s, pos, bytes)[i] == bytes[i - pos]
  {
  }

  /** A splice leaves every range it does not overlap untouched. */
  lemma SpliceElsewhere(s: seq<byte>, pos: int, bytes: seq<byte>, q: int, w: nat)
    requires 0 <= pos && pos + |bytes| <= |s|
    requires 0 <= q && q + w <= |s|
    requires q + w <= pos || pos + |bytes| <= q
    ensures Splice(s, pos, bytes)[q..q + w] == s[q..q + w]
  {
    SpliceAt(s, pos, bytes);
  }

  /** Agrona's `getInt`/`getLong` on the bytes of a buffer. */
  function GetInt(s: seq<byte>, index: int): int32
    requires 0 <= index && index + SIZE_OF_INT <= |s|
  {
    DecodeInt(s[index..index + SIZE_OF_INT])
  }

  function GetLong(s: seq<byte>, index: int): int64
    requires 0 <= index && index + SIZE_OF_LONG <= |s|
  {
    DecodeLong(s[index..index + SIZE_OF_LONG])
  }

  /** What `putInt` stores, `getInt` returns. */
  lemma GetPutInt(s: seq<byte>, index: int, v: int32)
    requires 0 <= index && index + SIZE_OF_INT <= |s|
    ensures GetInt(Splice(s, index, EncodeInt(v)), index) == v
  {
    SpliceAt(s, index, EncodeInt(v));
    DecodeEncodeInt(v);
  }

  lemma GetPutLong(s: seq<byte>, index: int, v: int64)
    requires 0 <= index && index + SIZE_OF_LONG <= |s|
    ensures GetLong(Splice(s, index, EncodeLong(v)), index) == v
  {
    SpliceAt(s, index, EncodeLong(v));
    DecodeEncodeLong(v);
  }

  /** A write elsewhere leaves a stored `int`/`long`/byte range as it was. */
  lemma GetIntElsewhere(s: seq<byte>, pos: int, bytes: seq<byte>, index: int)
    requires 0 <= pos && pos + |bytes| <= |s|
    requires 0 <= index && index + SIZE_OF_INT <= |s|
    requires index + SIZE_OF_INT <= pos || pos + |bytes| <= index
    ensures GetInt(Splice(s, pos, bytes), index) == GetInt(s, index)
  {
    SpliceElsewhere(s, pos, bytes, index, SIZE_OF_INT);
  }

  lemma GetLongElsewhere(s: seq<byte>, pos: int, bytes: seq<byte>, index: int)
    requires 0 <= pos && pos + |bytes| <= |s|
    requires 0 <= index && index + SIZE_OF_LONG <= |s|
    requires index + SIZE_OF_LONG <= pos || pos + |bytes| <= index
    ensures GetLong(Splice(s, pos, bytes), index) == GetLong(s, index)
  {
    SpliceElsewhere(s, pos, bytes, index, SIZE_OF_LONG);
  }

  /** `s` and `t` differ at most inside [lo, hi). */
  predicate SameOutside(s: seq<byte>, t: seq<byte>, lo: int, hi: int)
  {
    |s| == |t| && 0 <= lo <= hi <= |s| && s[..lo] == t[..lo] && s[hi..] == t[hi..]
  }

  /** A write inside [lo, hi) changes nothing outside it. */
  lemma SpliceWithin(s: seq<byte>, pos: int, bytes: seq<byte>, lo: int, hi: int)
    requires 0 <= lo <= pos && pos + |bytes| <= hi <= |s|
    ensures SameOutside(s, Splice(s, pos, bytes), lo, hi)
  {
    var t := Splice(s, pos, bytes);
    assert t[..lo] == s[..pos][..lo];
    assert t[hi..] == s[pos + |bytes|..][hi - pos - |bytes|..];
  }

  /** Bytes unchanged outside a region are unchanged outside any region that contains it. */
  lemma SameOutsideWiden(s: seq<byte>, t: seq<byte>, lo: int, hi: int, lo': int, hi': int)
    requires SameOutside(s, t, lo, hi)
    requires 0 <= lo' <= lo && hi <= hi' <= |s|
    ensures SameOutside(s, t, lo', hi')
  {
    assert s[..lo'] == s[..lo][..lo'] && t[..lo'] == t[..lo][..lo'];
    assert s[hi'..] == s[hi..][hi' - hi..] && t[hi'..] == t[hi..][hi' - hi..];
  }

  /** Two changes inside the same region change nothing outside it. */
  lemma SameOutsideTrans(s: seq<byte>, t: seq<byte>, u: seq<byte>, lo: int, hi: int)
    requires SameOutside(s, t, lo, hi) && SameOutside(t, u, lo, hi)
    ensures SameOutside(s, u, lo, hi)
  {
  }

  /** An `int` stored outside the changed region reads the same. */
  lemma SameOutsideInt(s: seq<byte>, t: seq<byte>, lo: int, hi: int, index: int)
    requires SameOutside(s, t, lo, hi)
    requires 0 <= index && index + SIZE_OF_INT <= |s|
    requires index + SIZE_OF_INT <= lo || hi <= index
    ensures GetInt(t, index) == GetInt(s, index)
  {
    forall k | index <= k < index + SIZE_OF_INT
      ensures t[k] == s[k]
    {
      if k < lo {
        assert t[k] == t[..lo][k] && s[k] == s[..lo][k];
      } else {
        assert t[k] == t[hi..][k - hi] && s[k] == s[hi..][k - hi];
      }
    }
    assert t[index..index + SIZE_OF_INT] == s[index..index + SIZE_OF_INT];
  }

  /** A range outside the changed region holds the same bytes. */
  lemma SameOutsideSlice(s: seq<byte>, t: seq<byte>, lo: int, hi: int, a: int, b: int)
    requires SameOutside(s, t, lo, hi)
    requires 0 <= a <= b <= |s| && (b <= lo || hi <= a)
    ensures t[a..b] == s[a..b]
  {
    forall k | a <= k < b
      ensures t[k] == s[k]
    {
      if k < lo {
        assert t[k] == t[..lo][k] && s[k] == s[..lo][k];
      } else {
        assert t[k] == t[hi..][k - hi] && s[k] == s[hi..][k - hi];
      }
    }
  }

  /** Ranges that agree on [lo, hi) agree on every range inside it. */
  lemma SliceInside(s: seq<byte>, t: seq<byte>, lo: int, hi: int, a: int, b: int)
    requires 0 <= lo <= a <= b <= hi <= |s| && hi <= |t| && s[lo..hi] == t[lo..hi]
    ensures s[a..b] == t[a..b]
  {
    forall k | a <= k < b
      ensures s[k] == t[k]
    {
      assert s[k] == s[lo..hi][k - lo] && t[k] == t[lo..hi][k - lo];
    }
    assert s[a..b] == t[a..b];
  }

  /** The same write into two buffers that agree on [lo, hi) leaves them agreeing there. */
  lemma SpliceLocal(s: seq<byte>, t: seq<byte>, lo: int, hi: int, pos: int, bytes: seq<byte>)
    requires |s| == |t| && 0 <= lo <= pos && pos + |bytes| <= hi <= |s|
    requires s[lo..hi] == t[lo..hi]
    ensures Splice(s, pos, bytes)[lo..hi] == Splice(t, pos, bytes)[lo..hi]
  {
    SpliceAt(s, pos, bytes);
    SpliceAt(t, pos, bytes);
    forall k | lo <= k < hi
      ensures Splice(s, pos, bytes)[k] == Splice(t, pos, bytes)[k]
    {
      if !(pos <= k < pos + |bytes|) {
        assert s[k] == s[lo..hi][k - lo] && t[k] == t[lo..hi][k - lo];
      }
    }
  }
}
