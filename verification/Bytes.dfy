/** Bytes, fixed-width integers and their little-endian images, as `memcpy` of a C integer
    into a mapped file leaves them on the x86 hosts the server targets. */
module Bytes {
  type byte = x: int | 0 <= x < 256

  const U16: int := 0x1_0000
  const U32: int := 0x1_0000_0000

  /** The image of a uint16_t; larger values are truncated as the assignment to the field does. */
  function Le16(x: nat): (s: seq<byte>)
    ensures |s| == 2
  {
    [x % 256, x / 256 % 256]
  }

  /** The image of a uint32_t. */
  function Le32(x: nat): (s: seq<byte>)
    ensures |s| == 4
  {
    Le16(x % U16) + Le16(x / U16)
  }

  function FromLe16(s: seq<byte>, at: nat): (x: nat)
    requires at + 2 <= |s|
    ensures x < U16
  {
    s[at] as int + 256 * s[at + 1] as int
  }

  function FromLe32(s: seq<byte>, at: nat): (x: nat)
    requires at + 4 <= |s|
    ensures x < U32
  {
    FromLe16(s, at) + U16 * FromLe16(s, at + 2)
  }

  lemma Le16RoundTrip(x: nat, s: seq<byte>, at: nat)
    requires at + 2 <= |s| && s[at..at + 2] == Le16(x)
    ensures FromLe16(s, at) == x % U16
  {
    assert s[at] == s[at..at + 2][0] && s[at + 1] == s[at..at + 2][1];
  }

  lemma Le32RoundTrip(x: nat, s: seq<byte>, at: nat)
    requires at + 4 <= |s| && s[at..at + 4] == Le32(x)
    ensures FromLe32(s, at) == x % U32
  {
    hide Le16, FromLe16;
    assert s[at..at + 2] == s[at..at + 4][..2] == Le16(x % U16);
    assert s[at + 2..at + 4] == s[at..at + 4][2..] == Le16(x / U16);
    Le16RoundTrip(x % U16, s, at);
    Le16RoundTrip(x / U16, s, at + 2);
    TwoHalves(x);
  }

  lemma TwoHalves(x: nat)
    ensures x % U16 % U16 + U16 * (x / U16 % U16) == x % U32
  {}

  lemma SliceOfSlice<T>(s: seq<T>, h: nat, e: nat, a: nat, b: nat)
    requires h <= e <= |s| && a <= b <= e - h
    ensures s[h..e][a..b] == s[h + a..h + b]
  {
    assert |s[h..e][a..b]| == b - a;
    forall i | 0 <= i < b - a
      ensures s[h..e][a..b][i] == s[h + a..h + b][i]
    {
      assert s[h..e][a..b][i] == s[h..e][a + i] == s[h + a + i];
    }
  }

  /** What memcpy leaves: src from offset at on, everything else as it was. */
  function Overwrite<T>(s: seq<T>, at: nat, src: seq<T>): (r: seq<T>)
    requires at + |src| <= |s|
    ensures |r| == |s|
  {
    s[..at] + src + s[at + |src|..]
  }

  lemma OverwriteExtends<T>(x: seq<T>, y: seq<T>, at: nat, src: seq<T>)
    requires at + |src| <= |x|
    ensures Overwrite(x, at, src) + y == Overwrite(x + y, at, src)
  {}

  lemma OverwriteInside<T>(s: seq<T>, h: nat, e: nat, at: nat, src: seq<T>)
    requires h <= e <= |s| && at + |src| <= e - h
    ensures Overwrite(s, h + at, src)[h..e] == Overwrite(s[h..e], at, src)
    ensures Overwrite(s, h + at, src)[..h] == s[..h]
    ensures Overwrite(s, h + at, src)[e..] == s[e..]
  {}

  lemma OverwriteTwice<T>(s: seq<T>, at: nat, a: seq<T>, b: seq<T>)
    requires at + |a| + |b| <= |s|
    ensures Overwrite(Overwrite(s, at, a), at + |a|, b) == Overwrite(s, at, a + b)
  {}

  /** `memcpy`: writes src into dst from offset at on and leaves the rest of dst alone. */
  method Copy(dst: array<byte>, at: nat, src: seq<byte>)
    requires at + |src| <= dst.Length
    modifies dst
    ensures dst[..] == Overwrite(old(dst[..]), at, src)
  {
    for i := 0 to |src|
      invariant dst[..at] == old(dst[..at])
      invariant dst[at..at + i] == src[..i]
      invariant dst[at + i..] == old(dst[at + i..])
    {
      dst[at + i] := src[i];
      assert dst[at..at + i + 1] == dst[at..at + i] + [src[i]];
    }
    assert dst[..] == dst[..at] + dst[at..at + |src|] + dst[at + |src|..];
  }
}
