/** Octets and unsigned big-endian integers of a fixed width, as `encoding/binary` lays them out. */
module Bytes {

  type Byte = b: int | 0 <= b < 256

  const UINT32_RANGE: nat := 0x1_0000_0000
  const UINT64_RANGE: nat := 0x1_0000_0000_0000_0000

  /** The octets of a text without wide characters. */
  function Ascii(s: string): (b: seq<Byte>)
    ensures |b| == |s|
  {
    seq(|s|, i requires 0 <= i < |s| => s[i] as int % 256)
  }

  function Pow256(width: nat): (p: nat)
    ensures p >= 1
  {
    if width == 0 then 1 else 256 * Pow256(width - 1)
  }

  /** The number that `s` denotes, most significant octet first. */
  function Value(s: seq<Byte>): nat {
    if s == [] then 0 else Value(s[..|s| - 1]) * 256 + s[|s| - 1]
  }

  /** The low `width` octets of `v`; higher ones are cut off, as a Go conversion does. */
  function BigEndian(v: nat, width: nat): (s: seq<Byte>)
    ensures |s| == width
  {
    if width == 0 then [] else BigEndian(v / 256, width - 1) + [v % 256]
  }

  lemma {:induction false} ValueOfBigEndian(v: nat, width: nat)
    requires v < Pow256(width)
    ensures Value(BigEndian(v, width)) == v
  {
    if width > 0 {
      ValueOfBigEndian(v / 256, width - 1);
      assert BigEndian(v, width)[..width - 1] == BigEndian(v / 256, width - 1);
    }
  }

  lemma {:induction false} BigEndianOfValue(s: seq<Byte>)
    ensures Value(s) < Pow256(|s|)
    ensures BigEndian(Value(s), |s|) == s
  {
    if s != [] {
      BigEndianOfValue(s[..|s| - 1]);
    }
  }

  lemma Widths()
    ensures Pow256(4) == UINT32_RANGE
    ensures Pow256(8) == UINT64_RANGE
  {
    assert Pow256(2) == 65536;
    assert Pow256(4) == 256 * (256 * Pow256(2));
    assert Pow256(6) == 256 * (256 * Pow256(4));
  }

  /** The octets of a list of chunks, in order. */
  function Flatten(chunks: seq<seq<Byte>>): seq<Byte> {
    if chunks == [] then [] else Flatten(chunks[..|chunks| - 1]) + chunks[|chunks| - 1]
  }

  lemma {:induction false} FlattenConcat(a: seq<seq<Byte>>, b: seq<seq<Byte>>)
    ensures Flatten(a + b) == Flatten(a) + Flatten(b)
  {
    if b == [] {
      assert a + b == a;
    } else {
      FlattenConcat(a, b[..|b| - 1]);
      assert (a + b)[..|a + b| - 1] == a + b[..|b| - 1];
    }
  }

  lemma FlattenAppend(a: seq<seq<Byte>>, chunk: seq<Byte>)
    ensures Flatten(a + [chunk]) == Flatten(a) + chunk
  {
    assert (a + [chunk])[..|a|] == a;
  }

  lemma FlattenFirst(a: seq<seq<Byte>>)
    requires a != []
    ensures Flatten(a) == a[0] + Flatten(a[1..])
  {
    var one: seq<seq<Byte>> := [a[0]];
    assert one[..0] == [];
    assert one + a[1..] == a;
    FlattenConcat(one, a[1..]);
  }
}
