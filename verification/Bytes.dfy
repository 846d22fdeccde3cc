/** Bytes, little-endian integers and concatenation: the vocabulary of every wire format in the drivers. */
module Bytes {

  type byte = b: int | 0 <= b < 256

  function Pow256(n: nat): (p: nat)
    ensures p >= 1
  {
    if n == 0 then 1 else 256 * Pow256(n - 1)
  }

  /** The low `n` bytes of `x`, least significant first: what a packed C store of that width leaves in memory. */
  function EncodeLE(x: nat, n: nat): (b: seq<byte>)
    ensures |b| == n
    decreases n
  {
    if n == 0 then [] else [x % 256] + EncodeLE(x / 256, n - 1)
  }

  function DecodeLE(b: seq<byte>): nat {
    if b == [] then 0 else b[0] + 256 * DecodeLE(b[1..])
  }

  lemma {:induction false} LittleEndianRoundTrip(x: nat, n: nat)
    requires x < Pow256(n)
    ensures DecodeLE(EncodeLE(x, n)) == x
    decreases n
  {
    if n > 0 {
      LittleEndianRoundTrip(x / 256, n - 1);
      assert EncodeLE(x, n)[1..] == EncodeLE(x / 256, n - 1);
    }
  }

  /** The most significant byte comes last: one more byte weighs 256 to the number of bytes before it. */
  lemma {:induction false} MostSignificantLast(b: seq<byte>, x: byte)
    ensures DecodeLE(b + [x]) == DecodeLE(b) + x * Pow256(|b|)
  {
    if b == [] {
      assert [x][1..] == [];
      assert DecodeLE([x]) == x;
    } else {
      assert (b + [x])[1..] == b[1..] + [x];
      MostSignificantLast(b[1..], x);
      assert 256 * (x * Pow256(|b| - 1)) == x * Pow256(|b|);
    }
  }

  /** Two and four bytes, least significant first. */
  function Number2(a: nat, b: nat): nat { a + 0x100 * b }
  function Number4(a: nat, b: nat, c: nat, d: nat): nat { a + 0x100 * b + 0x1_0000 * c + 0x100_0000 * d }

  lemma TwoAndFourBytes(b: seq<byte>)
    ensures |b| == 2 ==> DecodeLE(b) == Number2(b[0], b[1])
    ensures |b| == 4 ==> DecodeLE(b) == Number4(b[0], b[1], b[2], b[3])
  {
    if |b| == 2 {
      var r := b[1..];
      assert r[1..] == [];
      assert DecodeLE(r) == r[0];
    } else if |b| == 4 {
      assert b[1..][1..] == b[2..] && b[2..][1..] == b[3..] && b[3..][1..] == [];
    }
  }

  lemma Widths()
    ensures Pow256(2) == 0x1_0000 && Pow256(4) == 0x1_0000_0000 && Pow256(8) == 0x1_0000_0000_0000_0000
  {
    assert Pow256(0) == 1 && Pow256(1) == 256 && Pow256(2) == 0x1_0000;
    assert Pow256(3) == 0x100_0000 && Pow256(4) == 0x1_0000_0000;
    assert Pow256(5) == 0x100_0000_0000 && Pow256(6) == 0x1_0000_0000_0000;
    assert Pow256(7) == 0x100_0000_0000_0000;
  }

  function Concat<T>(parts: seq<seq<T>>): seq<T> {
    if parts == [] then [] else parts[0] + Concat(parts[1..])
  }

  lemma ConcatSingle<T>(part: seq<T>)
    ensures Concat([part]) == part
  {
    var parts := [part];
    assert parts[1..] == [];
    assert Concat(parts) == part + Concat(parts[1..]);
  }

  lemma {:induction false} ConcatAppend<T>(parts: seq<seq<T>>, last: seq<T>)
    ensures Concat(parts + [last]) == Concat(parts) + last
  {
    if parts == [] {
      assert parts + [last] == [last] && [last][1..] == [];
    } else {
      assert (parts + [last])[1..] == parts[1..] + [last];
      ConcatAppend(parts[1..], last);
    }
  }
}
