/** Bytes, big-endian integers and the option type shared by every component. */
module Bytes {

  newtype byte = x: int | 0 <= x < 256

  datatype Option<+T> = None | Some(value: T)

  ghost predicate Distinct<T>(xs: seq<T>) {
    forall i, j :: 0 <= i < j < |xs| ==> xs[i] != xs[j]
  }

  /** 256 to the power n: the number of values n big-endian bytes can hold. */
  function Pow256(n: nat): (r: nat)
    ensures r > 0
  {
    if n == 0 then 1 else 256 * Pow256(n - 1)
  }

  lemma Pow256Values()
    ensures Pow256(2) == 0x1_0000
    ensures Pow256(4) == 0x1_0000_0000
    ensures Pow256(8) == 0x1_0000_0000_0000_0000
  {
    assert Pow256(2) == 0x1_0000;
    assert Pow256(4) == 0x1_0000 * Pow256(2);
    assert Pow256(6) == 0x1_0000 * Pow256(4);
    assert Pow256(8) == 0x1_0000 * Pow256(6);
  }

  /** binary.BigEndian.PutUintN: the low `width` bytes of v, most significant first. */
  function PutUint(v: nat, width: nat): (b: seq<byte>)
    ensures |b| == width
  {
    if width == 0 then [] else PutUint(v / 256, width - 1) + [(v % 256) as byte]
  }

  /** binary.BigEndian.UintN. */
  function GetUint(b: seq<byte>): (v: nat)
  {
    if b == [] then 0 else GetUint(b[..|b| - 1]) * 256 + b[|b| - 1] as int
  }

  lemma DivBelow(v: nat, p: nat)
    requires v < 256 * p
    ensures v / 256 < p && v == v / 256 * 256 + v % 256
  {
  }

  lemma UintSnoc(b: seq<byte>, low: byte)
    ensures GetUint(b + [low]) == GetUint(b) * 256 + low as int
  {
    assert (b + [low])[..|b|] == b;
  }

  lemma {:induction false} UintRoundTrip(v: nat, width: nat)
    requires v < Pow256(width)
    ensures GetUint(PutUint(v, width)) == v
  {
    if width == 0 {
    } else {
      var high, low := PutUint(v / 256, width - 1), (v % 256) as byte;
      assert PutUint(v, width) == high + [low];
      DivBelow(v, Pow256(width - 1));
      hide PutUint, Pow256;
      UintRoundTrip(v / 256, width - 1);
      UintSnoc(high, low);
    }
  }

  lemma {:induction false} UintBound(b: seq<byte>)
    ensures GetUint(b) < Pow256(|b|)
  {
    if b == [] {
    } else {
      UintBound(b[..|b| - 1]);
    }
  }

  lemma {:induction false} PutOfGet(b: seq<byte>)
    ensures PutUint(GetUint(b), |b|) == b
  {
    if b == [] {
    } else {
      PutOfGet(b[..|b| - 1]);
      assert b == b[..|b| - 1] + [b[|b| - 1]];
    }
  }
}
