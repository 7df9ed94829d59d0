/** Bytes, optional results, and the fixed-width little-endian fields that the
    contract-state headers read and write one byte at a time. */
module ByteCodec {

  datatype Option<+T> = None | Some(value: T)

  type Byte = b: int | 0 <= b < 256
  type Bytes = seq<Byte>

  /** A C++ std::string: raw bytes written as characters. */
  type ByteChar = c: char | c as int < 256
  type Text = seq<ByteChar>

  type U16 = n: nat | n <= 0xffff
  type U32 = n: nat | n <= 0xffff_ffff
  type U64 = n: nat | n <= 0xffff_ffff_ffff_ffff

  const U16_MAX: nat := 0xffff
  const U32_MAX: nat := 0xffff_ffff
  const U64_MAX: nat := 0xffff_ffff_ffff_ffff

  function BytesOf(t: Text): (b: Bytes)
    ensures |b| == |t|
  {
    seq(|t|, i requires 0 <= i < |t| => t[i] as int)
  }

  function TextOf(b: Bytes): (t: Text)
    ensures |t| == |b|
  {
    seq(|b|, i requires 0 <= i < |b| => b[i] as char)
  }

  /** Copying a string into a byte vector and back changes nothing. */
  lemma TextBytesRoundTrip(t: Text, b: Bytes)
    ensures TextOf(BytesOf(t)) == t
    ensures BytesOf(TextOf(b)) == b
  {
    assert forall i :: 0 <= i < |t| ==> TextOf(BytesOf(t))[i] == t[i];
    assert forall i :: 0 <= i < |b| ==> BytesOf(TextOf(b))[i] == b[i];
  }

  /** Slicing what is left after a cursor is slicing the whole. */
  lemma SliceOfDrop<T>(s: seq<T>, start: nat, lo: nat, hi: nat)
    requires lo <= hi && start + hi <= |s|
    ensures s[start..][lo..hi] == s[start + lo..start + hi]
    ensures s[start..][hi..] == s[start + hi..]
  {
  }

  function Pow256(n: nat): (p: nat)
    ensures p > 0
  {
    if n == 0 then 1 else 256 * Pow256(n - 1)
  }

  /** The value v written low byte first in exactly width bytes (truncating). */
  function Le(v: nat, width: nat): (b: Bytes)
    ensures |b| == width
    decreases width
  {
    if width == 0 then [] else [v % 256] + Le(v / 256, width - 1)
  }

  /** The number a little-endian field denotes. */
  function LeValue(b: Bytes): nat
  {
    if b == [] then 0 else b[0] + 256 * LeValue(b[1..])
  }

  lemma {:induction false} LeValueBound(b: Bytes)
    ensures LeValue(b) < Pow256(|b|)
  {
    if b != [] {
      LeValueBound(b[1..]);
    }
  }

  /** A field that is wide enough gives the number back. */
  lemma {:induction false} LeDecodesEncoded(v: nat, width: nat)
    requires v < Pow256(width)
    ensures LeValue(Le(v, width)) == v
  {
    if width > 0 {
      LeDecodesEncoded(v / 256, width - 1);
      assert Le(v, width)[1..] == Le(v / 256, width - 1);
    }
  }

  /** Every byte string of a given width is the encoding of exactly one number. */
  lemma {:induction false} LeEncodesDecoded(b: Bytes)
    ensures Le(LeValue(b), |b|) == b
  {
    if b != [] {
      LeEncodesDecoded(b[1..]);
    }
  }

  lemma {:induction false} LeValueSnoc(b: Bytes, x: Byte)
    ensures LeValue(b + [x]) == LeValue(b) + x * Pow256(|b|)
  {
    if b == [] {
      assert b + [x] == [x];
      assert [x][1..] == [];
    } else {
      LeValueSnoc(b[1..], x);
      assert (b + [x])[1..] == b[1..] + [x];
    }
  }

  lemma {:induction false} LeAt(v: nat, width: nat, i: nat)
    requires i < width
    ensures Le(v, width)[i] == v / Pow256(i) % 256
  {
    if i > 0 {
      LeAt(v / 256, width - 1, i - 1);
      DivDiv(v, 256, Pow256(i - 1));
    }
  }

  lemma MulMono(a: int, b: int, d: int)
    requires a <= b && d >= 0
    ensures a * d <= b * d
  {
    assert (b - a) * d >= 0;
  }

  lemma DivIs(v: int, d: int, q: int)
    requires d > 0 && q * d <= v < (q + 1) * d
    ensures v / d == q
  {
    var p := v / d;
    assert p * d <= v < (p + 1) * d;
    if p < q {
      MulMono(p + 1, q, d);
    } else if q < p {
      MulMono(q + 1, p, d);
    }
  }

  lemma DivDiv(v: nat, a: nat, b: nat)
    requires a > 0 && b > 0
    ensures a * b > 0
    ensures v / a / b == v / (a * b)
  {
    var h := v / a;
    var q := h / b;
    assert a * b > 0;
    assert h * a <= v < (h + 1) * a;
    assert q * b <= h < (q + 1) * b;
    MulMono(q * b, h, a);
    MulMono(h + 1, (q + 1) * b, a);
    assert q * b * a == q * (a * b);
    assert (q + 1) * b * a == (q + 1) * (a * b);
    DivIs(v, a * b, q);
  }

  lemma Pow256Of8()
    ensures Pow256(2) == U16_MAX + 1
    ensures Pow256(4) == U32_MAX + 1
    ensures Pow256(8) == U64_MAX + 1
  {
    assert Pow256(2) == 256 * Pow256(1) == 65536;
    assert Pow256(4) == 256 * (256 * Pow256(2));
    assert Pow256(8) == 256 * (256 * (256 * (256 * Pow256(4))));
  }

  /** Eight bytes and an unsigned 64-bit number determine each other. */
  lemma U64RoundTrip(v: nat, b: Bytes)
    ensures v <= U64_MAX ==> LeValue(Le(v, 8)) == v
    ensures |b| == 8 ==> LeValue(b) <= U64_MAX && Le(LeValue(b), 8) == b
  {
    Pow256Of8();
    if v <= U64_MAX {
      LeDecodesEncoded(v, 8);
    }
    LeValueBound(b);
    LeEncodesDecoded(b);
  }

  /** DecodeU64LEExact: the accumulating loop over eight bytes. The source ORs
      shifted bytes into distinct bit positions, which adds them. */
  method DecodeU64LEExact(value: Bytes) returns (r: Option<nat>)
    ensures r == if |value| == 8 then Some(LeValue(value)) else None
  {
    if |value| != 8 {
      return None;
    }
    var out := 0;
    for i := 0 to 8
      invariant out == LeValue(value[..i])
    {
      out := out + value[i] * Pow256(i);
      LeValueSnoc(value[..i], value[i]);
      assert value[..i + 1] == value[..i] + [value[i]];
    }
    assert value[..8] == value;
    return Some(out);
  }

  /** EncodeVotingU64: byte i of the output is (value >> 8i) & 0xff. */
  method EncodeU64(value: nat) returns (out: Bytes)
    ensures out == Le(value, 8)
  {
    out := [0, 0, 0, 0, 0, 0, 0, 0];
    for i := 0 to 8
      invariant |out| == 8
      invariant forall j :: 0 <= j < i ==> out[j] == Le(value, 8)[j]
    {
      LeAt(value, 8, i);
      out := out[i := value / Pow256(i) % 256];
    }
  }
}
