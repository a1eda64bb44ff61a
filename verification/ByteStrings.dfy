/** Bytes, and little-endian integers in them. */
module ByteStrings {

  type Byte = x: int | 0 <= x < 256
  type Bytes = seq<Byte>

  datatype Option<+T> = None | Some(value: T)

  /** 256 to the power n. */
  function Radix(n: nat): (r: nat)
    ensures r > 0
  {
    if n == 0 then 1 else 256 * Radix(n - 1)
  }

  /** The low `width` bytes of v, least significant first. */
  function LittleEndian(v: nat, width: nat): (b: Bytes)
    ensures |b| == width
    decreases width
  {
    if width == 0 then [] else [v % 256] + LittleEndian(v / 256, width - 1)
  }

  function Number(b: Bytes): nat {
    if b == [] then 0 else b[0] + 256 * Number(b[1..])
  }

  /** The integer of the given width at an offset, if it lies inside the data. */
  function ReadAt(data: Bytes, offset: nat, width: nat): Option<nat> {
    if offset + width <= |data| then Some(Number(data[offset..offset + width])) else None
  }

  lemma {:induction false} NumberOfLittleEndian(v: nat, width: nat)
    requires v < Radix(width)
    ensures Number(LittleEndian(v, width)) == v
    decreases width
  {
    if width > 0 {
      NumberOfLittleEndian(v / 256, width - 1);
      assert LittleEndian(v, width)[1..] == LittleEndian(v / 256, width - 1);
    }
  }

  lemma {:induction false} LittleEndianOfNumber(b: Bytes)
    ensures Number(b) < Radix(|b|) && LittleEndian(Number(b), |b|) == b
  {
    if b != [] {
      LittleEndianOfNumber(b[1..]);
      assert b == [b[0]] + b[1..];
    }
  }

  lemma {:induction false} NumberAppend(a: Bytes, b: Bytes)
    ensures Number(a + b) == Number(a) + Radix(|a|) * Number(b)
  {
    if a == [] {
      assert a + b == b;
    } else {
      assert (a + b)[1..] == a[1..] + b;
      NumberAppend(a[1..], b);
    }
  }

  lemma {:induction false} LittleEndianAppend(v: nat, i: nat)
    ensures LittleEndian(v, i + 1) == LittleEndian(v, i) + [v / Radix(i) % 256]
    decreases i
  {
    if i > 0 {
      LittleEndianAppend(v / 256, i - 1);
      assert v / 256 / Radix(i - 1) == v / Radix(i) by { DivideTwice(v, Radix(i - 1)); }
    }
  }

  lemma DivideTwice(v: nat, r: nat)
    requires r > 0
    ensures v / 256 / r == v / (256 * r)
  {
    var q, m := v / 256 / r, v / 256 % r;
    assert v / 256 == q * r + m;
    var rest := m * 256 + v % 256;
    assert v == q * (256 * r) + rest && rest < 256 * r;
    Quotient(v, 256 * r, q, rest);
  }

  lemma Quotient(v: nat, d: nat, q: nat, r: nat)
    requires d > 0 && v == q * d + r && r < d
    ensures v / d == q
  {
    var e := v / d;
    if e < q { Product(e + 1, q, d); } else if e > q { Product(q + 1, e, d); }
  }

  lemma Product(a: nat, b: nat, d: nat)
    requires a <= b
    ensures a * d <= b * d
  {
  }

  /** appendLittleEndian: one byte at a time, (value >> 8 i) & 0xff. */
  method AppendLittleEndian(output: Bytes, value: nat, width: nat) returns (r: Bytes)
    ensures r == output + LittleEndian(value, width)
  {
    r := output;
    var i := 0;
    while i < width
      invariant i <= width
      invariant r == output + LittleEndian(value, i)
    {
      LittleEndianAppend(value, i);
      r := r + [value / Radix(i) % 256];
      i := i + 1;
    }
  }

  /** readLittleEndian: bounds first, then result |= byte << 8 i. */
  method ReadLittleEndian(data: Bytes, offset: nat, width: nat) returns (r: Option<nat>)
    ensures r == ReadAt(data, offset, width)
  {
    if offset > |data| || width > |data| - offset {
      return None;
    }
    var result := 0;
    var i := 0;
    while i < width
      invariant i <= width
      invariant result == Number(data[offset..offset + i])
    {
      NumberAppend(data[offset..offset + i], [data[offset + i]]);
      assert data[offset..offset + i + 1] == data[offset..offset + i] + [data[offset + i]];
      assert Number([data[offset + i]]) == data[offset + i];
      result := result + data[offset + i] * Radix(i);
      i := i + 1;
    }
    r := Some(result);
  }
}
