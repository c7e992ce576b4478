/** What the decoder takes as text is what section 3 of RFC 3629 writes for Unicode scalar values, and nothing else. */
module Utf8 {
  import opened Borsh

  type Scalar = c: int | 0 <= c < 0x11_0000 && !(0xD800 <= c < 0xE000)

  function ScalarBytes(c: Scalar): Bytes {
    if c < 0x80 then [c]
    else if c < 0x800 then [0xC0 + c / 0x40, 0x80 + c % 0x40]
    else if c < 0x1_0000 then [0xE0 + c / 0x1000, 0x80 + c / 0x40 % 0x40, 0x80 + c % 0x40]
    else [0xF0 + c / 0x4_0000, 0x80 + c / 0x1000 % 0x40, 0x80 + c / 0x40 % 0x40, 0x80 + c % 0x40]
  }

  function ScalarsBytes(cs: seq<Scalar>): Bytes {
    if cs == [] then [] else ScalarBytes(cs[0]) + ScalarsBytes(cs[1..])
  }

  lemma ScalarLeads(c: Scalar, rest: Bytes)
    ensures Utf8Lead(ScalarBytes(c) + rest) == |ScalarBytes(c)|
  {}

  /** Six bits behind some others. */
  lemma SixBits(high: nat, low: nat)
    requires low < 0x40
    ensures (0x40 * high + low) / 0x40 == high && (0x40 * high + low) % 0x40 == low
  {}

  lemma TwoBytes(s: Bytes) returns (c: Scalar)
    requires s != [] && Utf8Lead(s) == 2
    ensures ScalarBytes(c) == s[..2]
  {
    var b0: int, b1: int := s[0] - 0xC0, s[1] - 0x80;
    SixBits(b0, b1);
    c := 0x40 * b0 + b1;
  }

  lemma ThreeBytes(s: Bytes) returns (c: Scalar)
    requires s != [] && Utf8Lead(s) == 3
    ensures ScalarBytes(c) == s[..3]
  {
    var b0: int, b1: int, b2: int := s[0] - 0xE0, s[1] - 0x80, s[2] - 0x80;
    var high := 0x40 * b0 + b1;
    SixBits(b0, b1);
    SixBits(high, b2);
    c := 0x40 * high + b2;
    assert c / 0x1000 == high / 0x40;
  }

  lemma FourBytes(s: Bytes) returns (c: Scalar)
    requires s != [] && Utf8Lead(s) == 4
    ensures ScalarBytes(c) == s[..4]
  {
    var b0: int, b1: int, b2: int, b3: int := s[0] - 0xF0, s[1] - 0x80, s[2] - 0x80, s[3] - 0x80;
    var top := 0x40 * b0 + b1;
    var high := 0x40 * top + b2;
    SixBits(b0, b1);
    SixBits(top, b2);
    SixBits(high, b3);
    c := 0x40 * high + b3;
    assert c / 0x1000 == top && c / 0x4_0000 == top / 0x40;
  }

  lemma LeadIsScalar(s: Bytes) returns (c: Scalar)
    requires s != [] && Utf8Lead(s) > 0
    ensures ScalarBytes(c) == s[..Utf8Lead(s)]
  {
    if Utf8Lead(s) == 1 {
      c := s[0];
    } else if Utf8Lead(s) == 2 {
      c := TwoBytes(s);
    } else if Utf8Lead(s) == 3 {
      c := ThreeBytes(s);
    } else {
      c := FourBytes(s);
    }
  }

  lemma {:induction false} ScalarsAreUtf8(cs: seq<Scalar>)
    ensures IsUtf8(ScalarsBytes(cs))
  {
    if cs != [] {
      var first, rest := ScalarBytes(cs[0]), ScalarsBytes(cs[1..]);
      ScalarLeads(cs[0], rest);
      ScalarsAreUtf8(cs[1..]);
      assert (first + rest)[|first|..] == rest;
    }
  }

  lemma {:induction false} Utf8AreScalars(s: Bytes) returns (cs: seq<Scalar>)
    requires IsUtf8(s)
    ensures ScalarsBytes(cs) == s
    decreases |s|
  {
    if s == [] {
      cs := [];
    } else {
      var n := Utf8Lead(s);
      var c := LeadIsScalar(s);
      var rest := Utf8AreScalars(s[n..]);
      cs := [c] + rest;
      assert cs[1..] == rest && s == s[..n] + s[n..];
    }
  }

  /** Text is exactly what some sequence of Unicode scalar values is written as. */
  lemma TextIff(s: Bytes)
    ensures IsUtf8(s) <==> exists cs :: s == ScalarsBytes(cs)
  {
    if IsUtf8(s) {
      var cs := Utf8AreScalars(s);
      assert s == ScalarsBytes(cs);
    }
    if cs :| s == ScalarsBytes(cs) {
      ScalarsAreUtf8(cs);
    }
  }
}
