/** What the texts of the journal are: exactly the byte strings that encode code points. */
module Utf8 {
  import opened Bytes
  import opened Postcard

  /** A Unicode scalar value: a code point that is no surrogate. */
  predicate Scalar(c: nat) {
    c < 0xD800 || 0xE000 <= c < 0x11_0000
  }

  predicate Scalars(cs: seq<nat>) {
    forall c <- cs :: Scalar(c)
  }

  /** The encoding of one scalar value, the shortest that can hold it. */
  function Encoded(c: nat): (s: seq<byte>)
    requires Scalar(c)
    ensures s != []
  {
    if c < 0x80 then [c]
    else if c < 0x800 then [0xC0 + c / 0x40, 0x80 + c % 0x40]
    else if c < 0x1_0000 then [0xE0 + c / 0x1000, 0x80 + c / 0x40 % 0x40, 0x80 + c % 0x40]
    else [0xF0 + c / 0x4_0000, 0x80 + c / 0x1000 % 0x40, 0x80 + c / 0x40 % 0x40, 0x80 + c % 0x40]
  }

  function EncodedAll(cs: seq<nat>): seq<byte>
    requires Scalars(cs)
  {
    if cs == [] then [] else Encoded(cs[0]) + EncodedAll(cs[1..])
  }

  lemma ThreeIsValid(c: nat, rest: seq<byte>)
    requires Scalar(c) && 0x800 <= c < 0x1_0000 && ValidUtf8(rest)
    ensures ValidUtf8(Encoded(c) + rest)
  {
    var x, y, z := c / 0x1000, c / 0x40 % 0x40, c % 0x40;
    assert x < 0x10 && (x == 0 ==> y >= 0x20) && (x == 0xD ==> y < 0x20);
    var s := [0xE0 + x, 0x80 + y, 0x80 + z] + rest;
    assert s[3..] == rest && s[0] == 0xE0 + x && s[1] == 0x80 + y && s[2] == 0x80 + z;
    assert ValidUtf8(s);
  }

  lemma FourIsValid(c: nat, rest: seq<byte>)
    requires Scalar(c) && 0x1_0000 <= c && ValidUtf8(rest)
    ensures ValidUtf8(Encoded(c) + rest)
  {
    var w, x, y, z := c / 0x4_0000, c / 0x1000 % 0x40, c / 0x40 % 0x40, c % 0x40;
    assert w <= 4 && (w == 0 ==> x >= 0x10) && (w == 4 ==> x < 0x10);
    var s := [0xF0 + w, 0x80 + x, 0x80 + y, 0x80 + z] + rest;
    assert s[4..] == rest && s[0] == 0xF0 + w && s[1] == 0x80 + x && s[2] == 0x80 + y && s[3] == 0x80 + z;
    assert ValidUtf8(s);
  }

  lemma OneMoreIsValid(c: nat, rest: seq<byte>)
    requires Scalar(c) && ValidUtf8(rest)
    ensures ValidUtf8(Encoded(c) + rest)
  {
    if c < 0x800 {
      var s := Encoded(c) + rest;
      assert s[|Encoded(c)|..] == rest;
    } else if c < 0x1_0000 {
      ThreeIsValid(c, rest);
    } else {
      FourIsValid(c, rest);
    }
  }

  lemma {:induction false} EncodedIsValid(cs: seq<nat>)
    requires Scalars(cs)
    ensures ValidUtf8(EncodedAll(cs))
  {
    if cs != [] {
      EncodedIsValid(cs[1..]);
      OneMoreIsValid(cs[0], EncodedAll(cs[1..]));
    }
  }

  // ---- groups of six bits ----

  lemma TwoGroups(x: nat, y: nat)
    requires y < 0x40
    ensures var c := x * 0x40 + y; c / 0x40 == x && c % 0x40 == y
  {
  }

  lemma ThreeGroups(x: nat, y: nat, z: nat)
    requires y < 0x40 && z < 0x40
    ensures var c := (x * 0x40 + y) * 0x40 + z; c / 0x1000 == x && c / 0x40 % 0x40 == y && c % 0x40 == z
  {
    TwoGroups(x * 0x40 + y, z);
    TwoGroups(x, y);
  }

  lemma FourGroups(w: nat, x: nat, y: nat, z: nat)
    requires x < 0x40 && y < 0x40 && z < 0x40
    ensures var c := ((w * 0x40 + x) * 0x40 + y) * 0x40 + z;
      c / 0x4_0000 == w && c / 0x1000 % 0x40 == x && c / 0x40 % 0x40 == y && c % 0x40 == z
  {
    ThreeGroups(w * 0x40 + x, y, z);
    TwoGroups(w, x);
  }

  /** The scalar value at the front of a valid text. */
  lemma FirstScalar(s: seq<byte>) returns (c: nat)
    requires ValidUtf8(s) && s != []
    ensures Scalar(c) && Encoded(c) <= s && ValidUtf8(s[|Encoded(c)|..])
  {
    var first: int := s[0];
    if first < 0x80 {
      c := first;
    } else if first <= 0xDF {
      var second: int := s[1];
      c := (first - 0xC0) * 0x40 + (second - 0x80);
      TwoGroups(first - 0xC0, second - 0x80);
    } else if first <= 0xEF {
      c := ThreeBytes(s);
    } else {
      c := FourBytes(s);
    }
  }

  lemma ThreeBytes(s: seq<byte>) returns (c: nat)
    requires ValidUtf8(s) && s != [] && 0xE0 <= s[0] <= 0xEF
    ensures Scalar(c) && Encoded(c) == s[..3] && ValidUtf8(s[3..])
  {
    var first: int, second: int, third: int := s[0], s[1], s[2];
    c := ((first - 0xE0) * 0x40 + (second - 0x80)) * 0x40 + (third - 0x80);
    ThreeGroups(first - 0xE0, second - 0x80, third - 0x80);
  }

  lemma FourBytes(s: seq<byte>) returns (c: nat)
    requires ValidUtf8(s) && s != [] && 0xF0 <= s[0]
    ensures Scalar(c) && Encoded(c) == s[..4] && ValidUtf8(s[4..])
  {
    var first: int, second: int, third: int, fourth: int := s[0], s[1], s[2], s[3];
    c := (((first - 0xF0) * 0x40 + (second - 0x80)) * 0x40 + (third - 0x80)) * 0x40 + (fourth - 0x80);
    FourGroups(first - 0xF0, second - 0x80, third - 0x80, fourth - 0x80);
  }

  lemma {:induction false} ValidIsEncoded(s: seq<byte>) returns (cs: seq<nat>)
    requires ValidUtf8(s)
    ensures Scalars(cs) && EncodedAll(cs) == s
    decreases |s|
  {
    hide ValidUtf8, Encoded;
    if s == [] {
      cs := [];
    } else {
      var c := FirstScalar(s);
      var n := |Encoded(c)|;
      var rest := ValidIsEncoded(s[n..]);
      cs := [c] + rest;
      assert cs[1..] == rest && s == s[..n] + s[n..];
    }
  }

  /** Text that the reader accepts is text that encodes code points. */
  lemma ValidUtf8Iff(s: seq<byte>)
    ensures ValidUtf8(s) <==> exists cs :: Scalars(cs) && EncodedAll(cs) == s
  {
    if ValidUtf8(s) {
      var cs := ValidIsEncoded(s);
    }
    forall cs | Scalars(cs) && EncodedAll(cs) == s
      ensures ValidUtf8(s)
    {
      EncodedIsValid(cs);
    }
  }
}
