/** Machine integers as bounded naturals, and their little-endian byte strings. */
module Bytes {
  type byte = n: int | 0 <= n < 0x100
  type u16 = n: int | 0 <= n < 0x1_0000
  type u32 = n: int | 0 <= n < 0x1_0000_0000
  type u64 = n: int | 0 <= n < 0x1_0000_0000_0000_0000

  const U32_SPAN := 0x1_0000_0000
  const U64_SPAN := 0x1_0000_0000_0000_0000

  /** The bytes of an ASCII text. */
  function Ascii(text: string): (s: seq<byte>)
    ensures |s| == |text|
  {
    seq(|text|, i requires 0 <= i < |text| => text[i] as int % 0x80)
  }

  /** The number of values a string of `width` bytes can hold. */
  function Span(width: nat): (r: nat)
    ensures r > 0
  {
    if width == 0 then 1 else 0x100 * Span(width - 1)
  }

  lemma Spans()
    ensures Span(2) == 0x1_0000 && Span(4) == U32_SPAN && Span(8) == U64_SPAN
  {
    assert Span(4) == 0x1_0000 * Span(2);
    assert Span(8) == 0x1_0000 * (0x1_0000 * Span(4));
  }

  /** The `width` low bytes of n, least significant first. */
  function LE(n: nat, width: nat): (s: seq<byte>)
    ensures |s| == width
  {
    if width == 0 then [] else [n % 0x100] + LE(n / 0x100, width - 1)
  }

  /** Least significant byte first, in the three widths in use. */
  lemma LittleEndian(n: nat)
    ensures LE(n, 2) == [n % 0x100, n / 0x100 % 0x100]
    ensures LE(n, 4) == LE(n, 2) + LE(n / 0x1_0000, 2)
    ensures LE(n, 8) == LE(n, 4) + LE(n / 0x1_0000 / 0x1_0000, 4)
  {
    hide LE, WithoutLow;
    TwoBytes(n);
    WithoutTwo(n);
    WithoutTwo(n / 0x1_0000);
    LEInTwo(n, 2, 2);
    LEInTwo(n, 4, 4);
    WithoutMore(n, 2, 2);
  }

  lemma TwoBytes(n: nat)
    ensures LE(n, 2) == [n % 0x100, n / 0x100 % 0x100]
  {
    assert LE(n / 0x100 / 0x100, 0) == [];
    assert LE(n / 0x100, 1) == [n / 0x100 % 0x100];
  }

  lemma WithoutTwo(n: nat)
    ensures WithoutLow(n, 2) == n / 0x1_0000
  {
    assert WithoutLow(n / 0x100, 1) == n / 0x100 / 0x100;
  }

  lemma {:induction false} WithoutMore(n: nat, count: nat, more: nat)
    ensures WithoutLow(n, count + more) == WithoutLow(WithoutLow(n, count), more)
  {
    if count > 0 {
      WithoutMore(n / 0x100, count - 1, more);
    }
  }

  /** n without its `count` low bytes. */
  function WithoutLow(n: nat, count: nat): nat {
    if count == 0 then n else WithoutLow(n / 0x100, count - 1)
  }

  lemma {:induction false} LEInTwo(n: nat, low: nat, high: nat)
    ensures LE(n, low + high) == LE(n, low) + LE(WithoutLow(n, low), high)
  {
    if low > 0 {
      LEInTwo(n / 0x100, low - 1, high);
    }
  }

  function FromLE(s: seq<byte>): (n: nat)
    ensures n < Span(|s|)
  {
    if s == [] then 0 else s[0] + 0x100 * FromLE(s[1..])
  }

  lemma {:induction false} FromToLE(n: nat, width: nat)
    requires n < Span(width)
    ensures FromLE(LE(n, width)) == n
  {
    if width > 0 {
      FromToLE(n / 0x100, width - 1);
      assert LE(n, width)[1..] == LE(n / 0x100, width - 1);
    }
  }

  lemma LowAndHigh(low: byte, high: nat)
    ensures (low + 0x100 * high) % 0x100 == low && (low + 0x100 * high) / 0x100 == high
  {
  }

  lemma {:induction false} ToFromLE(s: seq<byte>)
    ensures LE(FromLE(s), |s|) == s
  {
    if s != [] {
      var rest := FromLE(s[1..]);
      ToFromLE(s[1..]);
      LowAndHigh(s[0], rest);
      assert LE(FromLE(s), |s|) == [FromLE(s) % 0x100] + LE(FromLE(s) / 0x100, |s| - 1);
    }
  }

  /** Every fixed-width number of the formats reads back as written. */
  lemma FixedWidthRoundTrip(n: nat)
    ensures n < 0x1_0000 ==> FromLE(LE(n, 2)) == n
    ensures n < U32_SPAN ==> FromLE(LE(n, 4)) == n
    ensures n < U64_SPAN ==> FromLE(LE(n, 8)) == n
  {
    Spans();
    if n < 0x1_0000 { FromToLE(n, 2); }
    if n < U32_SPAN { FromToLE(n, 4); }
    if n < U64_SPAN { FromToLE(n, 8); }
  }
}
