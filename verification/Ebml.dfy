/** EBML variable-length integers and the Matroska SeekHead. */
module Ebml {
  import opened Common

  type Byte = n: int | 0 <= n < 256

  /** The number that big-endian bytes denote. */
  function BigEndian(bs: seq<Byte>): nat {
    if bs == [] then 0 else BigEndian(bs[..|bs| - 1]) * 256 + bs[|bs| - 1]
  }

  function BytesOf(n: nat, width: nat): (bs: seq<Byte>)
    ensures |bs| == width
  {
    if width == 0 then [] else BytesOf(n / 256, width - 1) + [n % 256]
  }

  function Pow256(width: nat): (p: nat)
    ensures p > 0
  {
    if width == 0 then 1 else 256 * Pow256(width - 1)
  }

  function Pow2(n: nat): (p: nat)
    ensures p > 0
  {
    if n == 0 then 1 else 2 * Pow2(n - 1)
  }

  lemma SmallPowers()
    ensures Pow2(0) == 1 && Pow2(1) == 2 && Pow2(2) == 4 && Pow2(3) == 8 && Pow2(4) == 16
    ensures Pow2(5) == 32 && Pow2(6) == 64 && Pow2(7) == 128 && Pow2(8) == 256
  {
    assert Pow2(2) == 4;
    assert Pow2(4) == 16;
    assert Pow2(6) == 64;
  }

  lemma {:induction false} BytesInvert(n: nat, width: nat)
    requires n < Pow256(width)
    ensures BigEndian(BytesOf(n, width)) == n
  {
    if width > 0 {
      BytesInvert(n / 256, width - 1);
      assert BytesOf(n, width)[..width - 1] == BytesOf(n / 256, width - 1);
    }
  }

  lemma {:induction false} BigEndianInvert(bs: seq<Byte>)
    ensures BytesOf(BigEndian(bs), |bs|) == bs && BigEndian(bs) < Pow256(|bs|)
  {
    if bs != [] {
      BigEndianInvert(bs[..|bs| - 1]);
    }
  }

  lemma {:induction false} BigEndianCons(b: Byte, bs: seq<Byte>)
    ensures BigEndian([b] + bs) == b * Pow256(|bs|) + BigEndian(bs)
  {
    if bs == [] {
      assert [b][..0] == [];
    } else {
      var last := |bs| - 1;
      assert ([b] + bs)[..last + 1] == [b] + bs[..last];
      BigEndianCons(b, bs[..last]);
      assert (b * Pow256(last)) * 256 == b * Pow256(last + 1);
    }
  }

  // -------------------------------------------------------------------- VINTs

  /** The number of zero bits above the highest set bit of a byte. */
  function LeadingZeros(b: Byte): (z: nat)
    ensures z <= 8 && b < Pow2(8 - z)
    ensures z < 8 ==> Pow2(7 - z) <= b
  {
    SmallPowers();
    if b >= 128 then 0 else if b >= 64 then 1 else if b >= 32 then 2 else if b >= 16 then 3
    else if b >= 8 then 4 else if b >= 4 then 5 else if b >= 2 then 6 else if b >= 1 then 7 else 8
  }

  /** The integer at the start of the data, and its width. */
  function Vint(data: seq<Byte>): (r: Option<(nat, nat)>)
    ensures r.Some? ==> 1 <= r.value.1 <= 8 && r.value.1 <= |data|
  {
    if data == [] then None else
      var len := LeadingZeros(data[0]) + 1;
      if len > 8 || |data| < len then None
      else Some((BigEndian([data[0] % Pow2(8 - len)] + data[1..len]), len))
  }

  method ParseVint(data: seq<Byte>) returns (r: Option<(nat, nat)>)
    ensures r == Vint(data)
  {
    if data == [] {
      return None;
    }
    var first := data[0];
    var len := LeadingZeros(first) + 1;
    if len > 8 || |data| < len {
      return None;
    }
    var value: nat := first % Pow2(8 - len);
    ghost var top: Byte := value;
    assert [top][..0] == [];
    for i := 1 to len
      invariant value == BigEndian([top] + data[1..i])
    {
      assert ([top] + data[1..i + 1])[..i] == [top] + data[1..i];
      value := value * 256 + data[i];
    }
    r := Some((value, len));
  }

  /** A number in the given width: the marker bit sits above seven bits a byte. */
  function EncodeVint(v: nat, width: nat): seq<Byte> {
    BytesOf(v + Pow2(7 * width), width)
  }

  /** The marker bit is the lowest set bit position of the first byte's prefix. */
  lemma MarkerPlace(width: nat)
    requires 1 <= width <= 8
    ensures Pow2(7 * width) == Pow2(8 - width) * Pow256(width - 1)
    ensures Pow2(8 - width) * 2 == Pow2(9 - width)
  {
    PowerProduct(8 - width, width - 1);
    assert 8 - width + 8 * (width - 1) == 7 * width;
  }

  lemma {:induction false} PowerProduct(a: nat, b: nat)
    ensures Pow2(a) * Pow256(b) == Pow2(a + 8 * b)
  {
    if b > 0 {
      PowerProduct(a, b - 1);
      var p := Pow2(a + 8 * (b - 1));
      assert Pow2(a + 8 * b) == 256 * p by {
        PowerStep(a + 8 * (b - 1));
        assert a + 8 * b == a + 8 * (b - 1) + 8;
      }
      assert Pow2(a) * (256 * Pow256(b - 1)) == 256 * (Pow2(a) * Pow256(b - 1));
    }
  }

  lemma PowerStep(n: nat)
    ensures Pow2(n + 8) == 256 * Pow2(n)
  {
    assert Pow2(n + 2) == 4 * Pow2(n);
    assert Pow2(n + 4) == 4 * Pow2(n + 2);
    assert Pow2(n + 6) == 4 * Pow2(n + 4);
    assert Pow2(n + 8) == 4 * Pow2(n + 6);
  }

  lemma Distribute(a: int, m: int, p: int)
    ensures (a - m) * p == a * p - m * p
  {
  }

  lemma Scale(a: int, b: int, p: nat)
    requires a <= b
    ensures a * p <= b * p
  {
  }

  /** A number with its marker `m * p` in place: its leading digit in base `p` is `m`
      plus the leading digit of the number itself. */
  lemma LeadingDigit(v: nat, b: nat, low: nat, p: nat, m: nat)
    requires low < p && v + m * p == b * p + low && v < m * p
    ensures m <= b < 2 * m && (b - m) * p + low == v
  {
    Distribute(b, m, p);
    if b < m {
      Scale(b + 1, m, p);
    } else if b >= 2 * m {
      Scale(m, b - m, p);
    }
  }

  lemma MarkedFits(v: nat, p: nat, m: nat)
    requires v < m * p && m <= 128
    ensures v + m * p < 256 * p
  {
    Scale(m, 128, p);
  }

  predicate MarksWidth(b: Byte, width: nat)
    requires 1 <= width <= 8
  {
    Pow2(8 - width) <= b < 2 * Pow2(8 - width)
  }

  lemma MarkGivesWidth(b: Byte, width: nat)
    requires 1 <= width <= 8
    ensures MarksWidth(b, width) <==> LeadingZeros(b) == width - 1
    ensures MarksWidth(b, width) ==> b % Pow2(8 - width) == b - Pow2(8 - width)
  {
    SmallPowers();
    if MarksWidth(b, width) {
      MarkRemainder(b, Pow2(8 - width));
    }
  }

  lemma MarkRemainder(b: nat, m: nat)
    requires 0 < m <= b < 2 * m
    ensures b % m == b - m
  {
    assert b == m * 1 + (b - m);
  }

  lemma MarkerSmall(width: nat)
    requires 1 <= width <= 8
    ensures Pow2(8 - width) <= 128
  {
    SmallPowers();
  }

  lemma EncodedShape(v: nat, width: nat)
    requires 1 <= width <= 8 && v < Pow2(7 * width)
    ensures var bs := EncodeVint(v, width);
      MarksWidth(bs[0], width) && BigEndian([bs[0] - Pow2(8 - width)] + bs[1..]) == v
  {
    var bs := EncodeVint(v, width);
    var p, m := Pow256(width - 1), Pow2(8 - width);
    MarkerPlace(width);
    MarkerSmall(width);
    MarkedFits(v, p, m);
    BytesInvert(v + Pow2(7 * width), width);
    assert bs == [bs[0]] + bs[1..];
    BigEndianCons(bs[0], bs[1..]);
    BigEndianInvert(bs[1..]);
    LeadingDigit(v, bs[0], BigEndian(bs[1..]), p, m);
    BigEndianCons(bs[0] - m, bs[1..]);
  }

  /** Decoding inverts encoding at every width, whatever follows. */
  lemma VintRoundTrip(v: nat, width: nat, rest: seq<Byte>)
    requires 1 <= width <= 8 && v < Pow2(7 * width)
    ensures Vint(EncodeVint(v, width) + rest) == Some((v, width))
  {
    var bs := EncodeVint(v, width);
    EncodedShape(v, width);
    MarkGivesWidth(bs[0], width);
    assert (bs + rest)[0] == bs[0] && (bs + rest)[1..width] == bs[1..];
  }

  /** Clearing the marker bit of the first byte takes the marker off the number. */
  lemma MarkedValue(first: Byte, tail: seq<Byte>, width: nat)
    requires 1 <= width <= 8 && |tail| == width - 1 && MarksWidth(first, width)
    ensures var v := BigEndian([first - Pow2(8 - width)] + tail);
      v < Pow2(7 * width) && BigEndian([first] + tail) == v + Pow2(7 * width)
  {
    var p, m := Pow256(width - 1), Pow2(8 - width);
    MarkerPlace(width);
    BigEndianCons(first - m, tail);
    BigEndianCons(first, tail);
    BigEndianInvert(tail);
    Distribute(first, m, p);
    Scale(first - m + 1, m, p);
    Distribute(first - m, -1, p);
  }

  /** Every decoded integer is the encoding of its value at its width, so encoding and
      decoding are inverse on exactly the decodable inputs. */
  lemma VintIsEncoded(data: seq<Byte>)
    requires Vint(data).Some?
    ensures var (v, width) := Vint(data).value;
      v < Pow2(7 * width) && data[..width] == EncodeVint(v, width)
  {
    var (v, width) := Vint(data).value;
    var first, tail := data[0], data[1..width];
    MarkGivesWidth(first, width);
    MarkedValue(first, tail, width);
    BigEndianInvert([first] + tail);
    assert data[..width] == [first] + tail;
  }
}
