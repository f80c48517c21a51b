/** The primitive readers of data_readers.py: fixed-width little-endian
    fields read from a file object whose cursor each read advances. */
module DataReaders {
  import opened Base

  /** The bytes `file.read(w)` returns at position `p` of a file holding
      `data`: all `w` when they exist, fewer near the end, none past it. */
  function Window(data: seq<byte>, p: nat, w: nat): (r: seq<byte>)
    ensures |r| == if p >= |data| then 0 else Min(w, |data| - p)
  {
    if p >= |data| then [] else data[p..Min(p + w, |data|)]
  }

  /** The cursor after `file.read(w)` at `p`: it never moves past the end
      of the file, and a cursor already past the end stays where it is. */
  function Advance(p: nat, w: nat, len: nat): nat
  {
    if p + w <= len then p + w else Max(p, len)
  }

  lemma WindowStep(data: seq<byte>, p: nat, i: nat)
    ensures Window(data, p, i) + Window(data, Advance(p, i, |data|), 1) == Window(data, p, i + 1)
    ensures Advance(Advance(p, i, |data|), 1, |data|) == Advance(p, i + 1, |data|)
  {
  }

  // Decoding, as struct.unpack with the native formats 'B', 'H', 'h', 'i'
  // on a little-endian host (standard sizes 1, 2, 2, 4).

  function U16(lo: byte, hi: byte): (r: int)
    ensures 0 <= r < 0x1_0000
  {
    lo + 0x100 * hi
  }

  function S16(lo: byte, hi: byte): (r: int)
    ensures -0x8000 <= r < 0x8000
    ensures r >= 0 <==> hi < 0x80
  {
    var u := U16(lo, hi);
    if u < 0x8000 then u else u - 0x1_0000
  }

  function U32(b0: byte, b1: byte, b2: byte, b3: byte): (r: int)
    ensures 0 <= r < 0x1_0000_0000
  {
    U16(b0, b1) + 0x1_0000 * U16(b2, b3)
  }

  function S32(b0: byte, b1: byte, b2: byte, b3: byte): (r: int)
    ensures -0x8000_0000 <= r < 0x8000_0000
  {
    var u := U32(b0, b1, b2, b3);
    if u < 0x8000_0000 then u else u - 0x1_0000_0000
  }

  // What each reader yields at cursor `p`.

  /** read_int */
  function IntAt(data: seq<byte>, p: nat): (r: Result<int>)
    ensures r.Ok? <==> p + 4 <= |data|
    ensures r.Fail? ==> r.error == Truncated
    ensures r.Ok? ==> -0x8000_0000 <= r.value < 0x8000_0000
  {
    if p + 4 <= |data| then Ok(S32(data[p], data[p + 1], data[p + 2], data[p + 3]))
    else Fail(Truncated)
  }

  /** read_short */
  function ShortAt(data: seq<byte>, p: nat): (r: Result<int>)
    ensures r.Ok? <==> p + 2 <= |data|
    ensures r.Fail? ==> r.error == Truncated
    ensures r.Ok? ==> -0x8000 <= r.value <= 0x7FFF
  {
    if p + 2 <= |data| then Ok(S16(data[p], data[p + 1])) else Fail(Truncated)
  }

  /** read_unsigned_short */
  function UShortAt(data: seq<byte>, p: nat): (r: Result<int>)
    ensures r.Ok? <==> p + 2 <= |data|
    ensures r.Fail? ==> r.error == Truncated
    ensures r.Ok? ==> 0 <= r.value <= 0xFFFF
  {
    if p + 2 <= |data| then Ok(U16(data[p], data[p + 1])) else Fail(Truncated)
  }

  /** read_unsigned_byte */
  function UByteAt(data: seq<byte>, p: nat): (r: Result<int>)
    ensures r.Ok? <==> p < |data|
    ensures r.Fail? ==> r.error == Truncated
    ensures r.Ok? ==> 0 <= r.value <= 0xFF
  {
    if p < |data| then Ok(data[p]) else Fail(Truncated)
  }

  /** The bytes of `s` that are not zero, in order: read_8 drops every zero
      byte, interior ones included, not only the padding at the end. */
  function NonZero(s: seq<byte>): (r: seq<byte>)
    ensures |r| <= |s|
    ensures forall k :: 0 <= k < |r| ==> r[k] != 0
  {
    if s == [] then []
    else NonZero(s[..|s| - 1]) + (if s[|s| - 1] == 0 then [] else [s[|s| - 1]])
  }

  /** read_8: eight bytes, zeros dropped; a short read fails on ord(b''). */
  function NameAt(data: seq<byte>, p: nat): (r: Result<seq<byte>>)
    ensures r.Ok? <==> p + 8 <= |data|
    ensures r.Fail? ==> r.error == Truncated
    ensures r.Ok? ==> |r.value| <= 8
  {
    if p + 8 <= |data| then Ok(NonZero(data[p..p + 8])) else Fail(Truncated)
  }

  /** The text a name's bytes spell, one character per byte (chr(ord(b))). */
  function Text(bs: seq<byte>): (r: string)
    ensures |r| == |bs|
  {
    seq(|bs|, k requires 0 <= k < |bs| => bs[k] as char)
  }

  /** A file object: the bytes of the file and its cursor (`tell()`). */
  class ByteSource {
    const data: seq<byte>
    var pos: nat

    constructor (data: seq<byte>)
      ensures this.data == data && pos == 0
    {
      this.data := data;
      pos := 0;
    }

    /** file.read(w) */
    method Read(w: nat) returns (d: seq<byte>)
      modifies this
      ensures d == Window(data, old(pos), w)
      ensures pos == Advance(old(pos), w, |data|)
    {
      if pos >= |data| {
        d := [];
      } else {
        var stop := Min(pos + w, |data|);
        d := data[pos..stop];
        pos := stop;
      }
    }

    /** file.seek(p): a negative position raises. */
    method Seek(p: int) returns (r: Result<nat>)
      modifies this
      ensures p < 0 ==> r == Fail(NegativeSeek) && pos == old(pos)
      ensures p >= 0 ==> r == Ok(p) && pos == p
    {
      if p < 0 {
        return Fail(NegativeSeek);
      }
      pos := p;
      return Ok(p);
    }

    /** read_4: four one-byte reads; at the end of the file a read yields
        nothing, so fewer than four bytes come back and nothing fails here. */
    method Read4() returns (z: seq<byte>)
      modifies this
      ensures z == Window(data, old(pos), 4)
      ensures pos == Advance(old(pos), 4, |data|)
    {
      z := [];
      for i := 0 to 4
        invariant z == Window(data, old(pos), i)
        invariant pos == Advance(old(pos), i, |data|)
      {
        WindowStep(data, old(pos), i);
        var b := Read(1);
        z := z + b;
      }
    }

    /** read_8 */
    method Read8() returns (r: Result<seq<byte>>)
      modifies this
      ensures r == NameAt(data, old(pos))
      ensures pos == Advance(old(pos), 8, |data|)
    {
      ghost var p0 := pos;
      var z: seq<byte> := [];
      for i := 0 to 8
        invariant pos == p0 + i
        invariant i == 0 || pos <= |data|
        invariant z == NonZero(Window(data, p0, i))
      {
        var b := Read(1);
        if b == [] {
          return Fail(Truncated);
        }
        NameStep(data, p0, i);
        if b[0] != 0 {
          z := z + b;
        }
      }
      return Ok(z);
    }

    /** read_int */
    method ReadInt() returns (r: Result<int>)
      modifies this
      ensures r == IntAt(data, old(pos))
      ensures pos == Advance(old(pos), 4, |data|)
    {
      var d := Read(4);
      if |d| < 4 {
        return Fail(Truncated);
      }
      return Ok(S32(d[0], d[1], d[2], d[3]));
    }

    /** read_short */
    method ReadShort() returns (r: Result<int>)
      modifies this
      ensures r == ShortAt(data, old(pos))
      ensures pos == Advance(old(pos), 2, |data|)
    {
      var d := Read(2);
      if |d| < 2 {
        return Fail(Truncated);
      }
      return Ok(S16(d[0], d[1]));
    }

    /** read_unsigned_byte */
    method ReadUnsignedByte() returns (r: Result<int>)
      modifies this
      ensures r == UByteAt(data, old(pos))
      ensures pos == Advance(old(pos), 1, |data|)
    {
      var d := Read(1);
      if |d| < 1 {
        return Fail(Truncated);
      }
      return Ok(d[0]);
    }

    /** read_unsigned_short */
    method ReadUnsignedShort() returns (r: Result<int>)
      modifies this
      ensures r == UShortAt(data, old(pos))
      ensures pos == Advance(old(pos), 2, |data|)
    {
      var d := Read(2);
      if |d| < 2 {
        return Fail(Truncated);
      }
      return Ok(U16(d[0], d[1]));
    }
  }

  // Little-endian encoding, the inverse of the readers.

  function EncodeU16(u: int): (r: seq<byte>)
    requires 0 <= u < 0x1_0000
    ensures |r| == 2
  {
    [u % 0x100, u / 0x100]
  }

  function EncodeS16(v: int): (r: seq<byte>)
    requires -0x8000 <= v < 0x8000
    ensures |r| == 2
  {
    EncodeU16(if v < 0 then v + 0x1_0000 else v)
  }

  function EncodeS32(v: int): (r: seq<byte>)
    requires -0x8000_0000 <= v < 0x8000_0000
    ensures |r| == 4
  {
    var u := if v < 0 then v + 0x1_0000_0000 else v;
    EncodeU16(u % 0x1_0000) + EncodeU16(u / 0x1_0000)
  }

  function Zeros(n: nat): (r: seq<byte>)
    ensures |r| == n && forall k :: 0 <= k < n ==> r[k] == 0
  {
    seq(n, k => 0)
  }

  /** A name of at most eight non-zero bytes as the archive stores it,
      padded with zero bytes to eight. */
  function PadName(name: seq<byte>): (r: seq<byte>)
    requires |name| <= 8
    ensures |r| == 8
  {
    name + Zeros(8 - |name|)
  }

  lemma {:induction false} U16RoundTrip(u: int)
    requires 0 <= u < 0x1_0000
    ensures U16(EncodeU16(u)[0], EncodeU16(u)[1]) == u
  {
  }

  /** Reading a short from wherever an encoded short sits gives it back. */
  lemma {:induction false} ShortRoundTrip(pre: seq<byte>, v: int, post: seq<byte>)
    requires -0x8000 <= v < 0x8000
    ensures ShortAt(pre + EncodeS16(v) + post, |pre|) == Ok(v)
  {
    var data := pre + EncodeS16(v) + post;
    assert data[|pre|] == EncodeS16(v)[0] && data[|pre| + 1] == EncodeS16(v)[1];
    U16RoundTrip(if v < 0 then v + 0x1_0000 else v);
  }

  /** Reading an unsigned short from an encoded one gives it back. */
  lemma {:induction false} UShortRoundTrip(pre: seq<byte>, u: int, post: seq<byte>)
    requires 0 <= u < 0x1_0000
    ensures UShortAt(pre + EncodeU16(u) + post, |pre|) == Ok(u)
  {
    var data := pre + EncodeU16(u) + post;
    assert data[|pre|] == EncodeU16(u)[0] && data[|pre| + 1] == EncodeU16(u)[1];
    U16RoundTrip(u);
  }

  /** Splitting a value into its low and high halves is exact. */
  lemma {:induction false} DivModUnique(u: int, lo: int, hi: int)
    requires 0 <= lo < 0x1_0000 && u == lo + 0x1_0000 * hi
    ensures u % 0x1_0000 == lo && u / 0x1_0000 == hi
  {
  }

  lemma {:induction false} DecodeEncodeS32(v: int)
    requires -0x8000_0000 <= v < 0x8000_0000
    ensures var e := EncodeS32(v); S32(e[0], e[1], e[2], e[3]) == v
  {
    var u := if v < 0 then v + 0x1_0000_0000 else v;
    var lo, hi := u % 0x1_0000, u / 0x1_0000;
    assert 0 <= hi < 0x1_0000;
    var e := EncodeS32(v);
    assert e == EncodeU16(lo) + EncodeU16(hi);
    U16RoundTrip(lo);
    U16RoundTrip(hi);
    assert U16(e[0], e[1]) == lo && U16(e[2], e[3]) == hi;
    assert U32(e[0], e[1], e[2], e[3]) == u;
  }

  /** Reading an int from wherever an encoded int sits gives it back. */
  lemma {:induction false} IntRoundTrip(pre: seq<byte>, v: int, post: seq<byte>)
    requires -0x8000_0000 <= v < 0x8000_0000
    ensures IntAt(pre + EncodeS32(v) + post, |pre|) == Ok(v)
  {
    var data := pre + EncodeS32(v) + post;
    var e := EncodeS32(v);
    var p := |pre|;
    assert data[p] == e[0] && data[p + 1] == e[1] && data[p + 2] == e[2] && data[p + 3] == e[3];
    DecodeEncodeS32(v);
  }

  /** Encoding what was read gives back the bytes it was read from. */
  lemma {:induction false} ShortBytesRoundTrip(data: seq<byte>, p: nat)
    requires p + 2 <= |data|
    ensures EncodeS16(ShortAt(data, p).value) == data[p..p + 2]
  {
  }

  lemma {:induction false} U16BytesRoundTrip(lo: byte, hi: byte)
    ensures EncodeU16(U16(lo, hi)) == [lo, hi]
  {
  }

  /** An int whose unsigned form is lo + 0x10000 * hi is encoded as lo's
      bytes followed by hi's. */
  lemma {:induction false} EncodeS32Halves(v: int, lo: int, hi: int)
    requires -0x8000_0000 <= v < 0x8000_0000
    requires 0 <= lo < 0x1_0000 && 0 <= hi < 0x1_0000
    requires (if v < 0 then v + 0x1_0000_0000 else v) == lo + 0x1_0000 * hi
    ensures EncodeS32(v) == EncodeU16(lo) + EncodeU16(hi)
  {
    DivModUnique(if v < 0 then v + 0x1_0000_0000 else v, lo, hi);
  }

  /** Encoding what was read gives back the bytes it was read from. */
  lemma {:induction false} IntBytesRoundTrip(data: seq<byte>, p: nat)
    requires p + 4 <= |data|
    ensures EncodeS32(IntAt(data, p).value) == data[p..p + 4]
  {
    var b0, b1, b2, b3 := data[p], data[p + 1], data[p + 2], data[p + 3];
    var v := IntAt(data, p).value;
    assert v == S32(b0, b1, b2, b3);
    EncodeS32Halves(v, U16(b0, b1), U16(b2, b3));
    U16BytesRoundTrip(b0, b1);
    U16BytesRoundTrip(b2, b3);
    assert data[p..p + 4] == [b0, b1] + [b2, b3];
  }

  lemma {:induction false} NonZeroAppend(s: seq<byte>, t: seq<byte>)
    ensures NonZero(s + t) == NonZero(s) + NonZero(t)
    decreases |t|
  {
    if t == [] {
      assert s + t == s;
    } else {
      var t' := t[..|t| - 1];
      assert (s + t)[..|s + t| - 1] == s + t';
      NonZeroAppend(s, t');
    }
  }

  lemma {:induction false} NonZeroKeeps(s: seq<byte>)
    requires forall k :: 0 <= k < |s| ==> s[k] != 0
    ensures NonZero(s) == s
    decreases |s|
  {
    if s != [] {
      NonZeroKeeps(s[..|s| - 1]);
    }
  }

  lemma {:induction false} NonZeroZeros(n: nat)
    ensures NonZero(Zeros(n)) == []
  {
    if n > 0 {
      assert Zeros(n)[..n - 1] == Zeros(n - 1);
      NonZeroZeros(n - 1);
    }
  }

  /** One more byte of a name read by read_8. */
  lemma NameStep(data: seq<byte>, p: nat, i: nat)
    requires p + i < |data|
    ensures Window(data, p + i, 1) == [data[p + i]]
    ensures NonZero(Window(data, p, i + 1))
            == NonZero(Window(data, p, i)) + (if data[p + i] == 0 then [] else [data[p + i]])
  {
    assert Window(data, p, i + 1) == Window(data, p, i) + [data[p + i]];
    NonZeroSnoc(Window(data, p, i), data[p + i]);
  }

  lemma NonZeroSnoc(s: seq<byte>, b: byte)
    ensures NonZero(s + [b]) == NonZero(s) + (if b == 0 then [] else [b])
  {
    assert (s + [b])[..|s|] == s;
  }

  /** Reading a padded name gives back the name: the zero padding is what
      read_8 drops. */
  lemma NameRoundTrip(pre: seq<byte>, name: seq<byte>, post: seq<byte>)
    requires |name| <= 8
    requires forall k :: 0 <= k < |name| ==> name[k] != 0
    ensures NameAt(pre + PadName(name) + post, |pre|) == Ok(name)
  {
    var data := pre + PadName(name) + post;
    assert data[|pre|..|pre| + 8] == PadName(name);
    NonZeroAppend(name, Zeros(8 - |name|));
    NonZeroKeeps(name);
    NonZeroZeros(8 - |name|);
    assert PadName(name) == name + Zeros(8 - |name|);
    assert NonZero(PadName(name)) == name;
  }

  /** A zero byte anywhere in a name is dropped, the interior ones as well
      as the padding at the end. */
  lemma ZeroDropped(s: seq<byte>, t: seq<byte>)
    ensures NonZero(s + [0] + t) == NonZero(s + t)
  {
    NonZeroAppend(s + [0], t);
    NonZeroSnoc(s, 0);
    NonZeroAppend(s, t);
  }
}
