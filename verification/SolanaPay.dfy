/** Solana Pay URLs: percent-encoding, the trimmed six-decimal amount, and a parser that takes the URL apart. */
module SolanaPay {
  import opened Common
  import B = Borsh
  import opened Fees

  type byte = B.byte
  type Bytes = B.Bytes
  type Url = seq<char>

  // ---------------------------------------------------------------- percent-encoding

  predicate IsDigit(c: char) {
    '0' <= c <= '9'
  }

  /** The unreserved characters of section 2.3 of RFC 3986. */
  predicate IsUnreserved(b: byte) {
    || ('0' as int <= b <= '9' as int) || ('A' as int <= b <= 'Z' as int) || ('a' as int <= b <= 'z' as int)
    || b == '-' as int || b == '_' as int || b == '.' as int || b == '~' as int
  }

  function HexDigit(n: nat): char
    requires n < 16
  {
    if n < 10 then ('0' as int + n) as char else ('A' as int + n - 10) as char
  }

  function EncodeByte(b: byte): Url {
    if IsUnreserved(b) then [b as char] else ['%', HexDigit(b / 16), HexDigit(b % 16)]
  }

  function PercentEncode(s: Bytes): Url {
    if s == [] then [] else EncodeByte(s[0]) + PercentEncode(s[1..])
  }

  method PercentEncodeMinimal(input: Bytes) returns (out: Url)
    ensures out == PercentEncode(input)
  {
    out := "";
    for i := 0 to |input|
      invariant out == PercentEncode(input[..i])
    {
      var b := input[i];
      EncodeSnoc(input[..i], b);
      assert input[..i + 1] == input[..i] + [b];
      if IsUnreserved(b) {
        out := out + [b as char];
      } else {
        out := out + ['%'];
        out := out + [HexDigit(b / 16), HexDigit(b % 16)];
      }
    }
    assert input[..|input|] == input;
  }

  lemma EncodeSnoc(s: Bytes, b: byte)
    ensures PercentEncode(s + [b]) == PercentEncode(s) + EncodeByte(b)
  {
    EncodeAppend(s, [b]);
    assert [b][1..] == [];
    assert PercentEncode([b]) == EncodeByte(b) + [];
  }

  function HexValue(c: char): Option<nat> {
    if '0' <= c <= '9' then Some(c as nat - '0' as nat)
    else if 'A' <= c <= 'F' then Some(c as nat - 'A' as nat + 10)
    else if 'a' <= c <= 'f' then Some(c as nat - 'a' as nat + 10)
    else None
  }

  /** Section 2.1 of RFC 3986: a triplet stands for its octet, any other ASCII character for itself. */
  function PercentDecode(u: Url): Option<Bytes>
    decreases |u|
  {
    if u == [] then Some([])
    else if u[0] == '%' then
      if |u| < 3 || HexValue(u[1]).None? || HexValue(u[2]).None? then None
      else
        match PercentDecode(u[3..])
        case None => None
        case Some(rest) =>
          HexRange(u[1]);
          HexRange(u[2]);
          Some([16 * HexValue(u[1]).value + HexValue(u[2]).value] + rest)
    else if u[0] as int >= 128 then None
    else
      match PercentDecode(u[1..])
      case None => None
      case Some(rest) => Some([u[0] as int] + rest)
  }

  lemma HexRange(c: char)
    ensures HexValue(c).Some? ==> HexValue(c).value < 16
  {}

  lemma HexInverse(n: nat)
    requires n < 16
    ensures HexValue(HexDigit(n)) == Some(n) && HexDigit(n) != '%' && HexDigit(n) as int < 128
  {}

  lemma DecodeOne(b: byte, u: Url, rest: Bytes)
    requires PercentDecode(u) == Some(rest)
    ensures PercentDecode(EncodeByte(b) + u) == Some([b] + rest)
  {
    var e := EncodeByte(b) + u;
    if IsUnreserved(b) {
      assert e[0] as int == b && e[1..] == u;
    } else {
      HexInverse(b / 16);
      HexInverse(b % 16);
      assert e[0] == '%' && e[1] == HexDigit(b / 16) && e[2] == HexDigit(b % 16) && e[3..] == u;
    }
  }

  lemma {:induction false} PercentRoundTrip(s: Bytes)
    ensures PercentDecode(PercentEncode(s)) == Some(s)
  {
    if s != [] {
      var b, rest := s[0], s[1..];
      PercentRoundTrip(rest);
      DecodeOne(b, PercentEncode(rest), rest);
      EncodeCons(b, rest);
      assert s == [b] + rest;
    }
  }

  lemma EncodeCons(b: byte, rest: Bytes)
    ensures PercentEncode([b] + rest) == EncodeByte(b) + PercentEncode(rest)
  {
    assert ([b] + rest)[1..] == rest;
  }

  lemma HexDigitsAreUnreserved(n: nat)
    requires n < 16
    ensures HexDigit(n) as int < 128 && IsUnreserved(HexDigit(n) as int) && HexDigit(n) in "0123456789ABCDEF"
  {
    LiteralRanges(n);
  }

  lemma ByteEmitsEncoded(b: byte)
    ensures forall c :: c in EncodeByte(b) && c != '%' ==> c as int < 128 && IsUnreserved(c as int)
    ensures forall i :: 0 <= i < |EncodeByte(b)| && EncodeByte(b)[i] == '%' ==> TripletAt(EncodeByte(b), i)
  {
    if !IsUnreserved(b) {
      HexDigitsAreUnreserved(b / 16);
      HexDigitsAreUnreserved(b % 16);
    }
  }

  predicate TripletAt(u: Url, i: nat) {
    i + 2 < |u| && u[i + 1] in "0123456789ABCDEF" && u[i + 2] in "0123456789ABCDEF"
  }

  lemma TripletsJoin(a: Url, b: Url)
    requires forall i :: 0 <= i < |a| && a[i] == '%' ==> TripletAt(a, i)
    requires forall i :: 0 <= i < |b| && b[i] == '%' ==> TripletAt(b, i)
    ensures forall i :: 0 <= i < |a + b| && (a + b)[i] == '%' ==> TripletAt(a + b, i)
  {
    forall i | 0 <= i < |a + b| && (a + b)[i] == '%' ensures TripletAt(a + b, i) {
      if i < |a| {
        assert a[i] == '%' && TripletAt(a, i);
        assert (a + b)[i + 1] == a[i + 1] && (a + b)[i + 2] == a[i + 2];
      } else {
        var j := i - |a|;
        assert b[j] == '%' && TripletAt(b, j);
        assert (a + b)[i + 1] == b[j + 1] && (a + b)[i + 2] == b[j + 2];
      }
    }
  }

  lemma {:induction false} TripletsThroughout(s: Bytes)
    ensures forall c :: c in PercentEncode(s) && c != '%' ==> c as int < 128 && IsUnreserved(c as int)
    ensures forall i :: 0 <= i < |PercentEncode(s)| && PercentEncode(s)[i] == '%' ==> TripletAt(PercentEncode(s), i)
  {
    if s != [] {
      ByteEmitsEncoded(s[0]);
      TripletsThroughout(s[1..]);
      TripletsJoin(EncodeByte(s[0]), PercentEncode(s[1..]));
    }
  }

  /** Only unreserved characters and upper-case triplets come out. */
  lemma EncodeEmitsEncoded(s: Bytes)
    ensures forall c :: c in PercentEncode(s) && c != '%' ==> c as int < 128 && IsUnreserved(c as int)
    ensures var u := PercentEncode(s);
            forall i :: 0 <= i < |u| && u[i] == '%' ==>
              i + 2 < |u| && u[i + 1] in "0123456789ABCDEF" && u[i + 2] in "0123456789ABCDEF"
  {
    TripletsThroughout(s);
    var u := PercentEncode(s);
    assert forall i :: 0 <= i < |u| && u[i] == '%' ==> TripletAt(u, i);
  }

  lemma LiteralRanges(i: nat)
    ensures i < 26 ==> "ABCDEFGHIJKLMNOPQRSTUVWXYZ"[i] as int == 65 + i
    ensures i < 26 ==> "abcdefghijklmnopqrstuvwxyz"[i] as int == 97 + i
    ensures i < 10 ==> "0123456789"[i] as int == 48 + i
    ensures i < 16 ==> "0123456789ABCDEF"[i] == HexDigit(i)
  {}

  lemma UnreservedIff(b: byte)
    ensures IsUnreserved(b) <==>
            b < 128 && b as char in "ABCDEFGHIJKLMNOPQRSTUVWXYZ" + "abcdefghijklmnopqrstuvwxyz" + "0123456789" + "-_.~"
  {
    var upper, lower, digits := "ABCDEFGHIJKLMNOPQRSTUVWXYZ", "abcdefghijklmnopqrstuvwxyz", "0123456789";
    forall i: nat | i < 26 ensures upper[i] as int == 65 + i && lower[i] as int == 97 + i {
      LiteralRanges(i);
    }
    forall i: nat | i < 10 ensures digits[i] as int == 48 + i {
      LiteralRanges(i);
    }
    if 65 <= b <= 90 {
      assert upper[b - 65] == b as char;
    } else if 97 <= b <= 122 {
      assert lower[b - 97] == b as char;
    } else if 48 <= b <= 57 {
      assert digits[b - 48] == b as char;
    }
  }

  /** A byte encodes to itself or to an upper-case triplet. */
  lemma EncodeOneByte(b: byte)
    ensures PercentEncode([b]) ==
            if b < 128 &&
               b as char in "ABCDEFGHIJKLMNOPQRSTUVWXYZ" + "abcdefghijklmnopqrstuvwxyz" + "0123456789" + "-_.~"
            then [b as char] else ['%', "0123456789ABCDEF"[b / 16], "0123456789ABCDEF"[b % 16]]
  {
    LiteralRanges(b / 16);
    LiteralRanges(b % 16);
    UnreservedIff(b);
    assert PercentEncode([b]) == EncodeByte(b) + PercentEncode([]);
  }

  /** Nothing but these characters ever comes out. */
  lemma {:induction false} EncodedAlphabet(s: Bytes)
    ensures forall c :: c in PercentEncode(s) ==>
              c in "ABCDEFGHIJKLMNOPQRSTUVWXYZ" + "abcdefghijklmnopqrstuvwxyz" + "0123456789" + "-_.~" + "%"
  {
    if s != [] {
      EncodedAlphabet(s[1..]);
      var e := EncodeByte(s[0]);
      if !IsUnreserved(s[0]) {
        HexDigitsAreUnreserved(s[0] / 16);
        HexDigitsAreUnreserved(s[0] % 16);
      }
      forall c | c in e && c != '%'
        ensures c in "ABCDEFGHIJKLMNOPQRSTUVWXYZ" + "abcdefghijklmnopqrstuvwxyz" + "0123456789" + "-_.~"
      {
        UnreservedIff(c as int);
      }
    }
  }

  lemma {:induction false} EncodeAppend(s: Bytes, t: Bytes)
    ensures PercentEncode(s + t) == PercentEncode(s) + PercentEncode(t)
  {
    if s == [] {
      assert s + t == t;
    } else {
      assert (s + t)[1..] == s[1..] + t;
      EncodeAppend(s[1..], t);
    }
  }

  // ---------------------------------------------------------------- decimal numbers

  function Digit(n: nat): char
    requires n < 10
  {
    ('0' as int + n) as char
  }

  function Decimal(n: nat): Url {
    if n < 10 then [Digit(n)] else Decimal(n / 10) + [Digit(n % 10)]
  }

  /** {n:06}: padded with zeros on the left. */
  function Padded(n: nat, width: nat): (u: Url)
    ensures |u| == width
  {
    if width == 0 then [] else Padded(n / 10, width - 1) + [Digit(n % 10)]
  }

  function DigitsValue(u: Url): Option<nat> {
    if u == [] then Some(0)
    else
      var last := u[|u| - 1];
      match DigitsValue(u[..|u| - 1])
      case None => None
      case Some(v) => if IsDigit(last) then Some(10 * v + (last as nat - '0' as nat)) else None
  }

  lemma DigitsSnoc(u: Url, d: nat)
    requires d < 10 && DigitsValue(u).Some?
    ensures DigitsValue(u + [Digit(d)]) == Some(10 * DigitsValue(u).value + d)
  {
    var v := u + [Digit(d)];
    assert v[..|v| - 1] == u && v[|v| - 1] == Digit(d);
  }

  lemma TenSplit(n: nat)
    ensures 10 * (n / 10) + n % 10 == n
  {}

  lemma {:induction false} DecimalValue(n: nat)
    ensures DigitsValue(Decimal(n)) == Some(n) && |Decimal(n)| >= 1 && (n > 0 ==> Decimal(n)[0] != '0')
    ensures forall c :: c in Decimal(n) ==> IsDigit(c)
  {
    if n >= 10 {
      DecimalValue(n / 10);
      DigitsSnoc(Decimal(n / 10), n % 10);
      TenSplit(n);
    } else {
      DigitsSnoc([], n);
      assert [] + [Digit(n)] == Decimal(n);
    }
  }

  lemma {:induction false} PaddedValue(n: nat, width: nat)
    requires n < Pow10(width)
    ensures DigitsValue(Padded(n, width)) == Some(n)
    ensures forall c :: c in Padded(n, width) ==> IsDigit(c)
  {
    if width > 0 {
      TenSplit(n);
      PaddedValue(n / 10, width - 1);
      DigitsSnoc(Padded(n / 10, width - 1), n % 10);
    }
  }

  // ---------------------------------------------------------------- the amount

  const UNIT := 1_000_000

  /** i64::abs in a build without overflow checks: the smallest value has no positive counterpart. */
  function WrappingAbs(x: i64): i64 {
    WrapI64(if x < 0 then 0 - x else x)
  }

  /** The string without its trailing zeros. */
  function TrimZeros(u: Url): Url {
    if u != [] && u[|u| - 1] == '0' then TrimZeros(u[..|u| - 1]) else u
  }

  /** The display of a signed integer, and of one padded to six characters, sign included. */
  function Signed(x: int): Url {
    if x < 0 then "-" + Decimal(-x) else Decimal(x)
  }

  function SignedPadded6(x: int): Url {
    if x < 0 then "-" + (if -x < 100_000 then Padded(-x, 5) else Decimal(-x))
    else if x < UNIT then Padded(x, 6) else Decimal(x)
  }

  function TruncMod(x: int, y: int): int
    requires y > 0
  {
    x - TruncDiv(x, y) * y
  }

  function AmountText(amount: i64): Url {
    var sign := if amount < 0 then "-" else "";
    var abs := WrappingAbs(amount);
    var whole, fractional := TruncDiv(abs, UNIT), TruncMod(abs, UNIT);
    if fractional == 0 then sign + Signed(whole)
    else sign + Signed(whole) + "." + TrimZeros(SignedPadded6(fractional))
  }

  method FormatAmount6dp(amount: i64) returns (text: Url)
    ensures text == AmountText(amount)
  {
    var sign := if amount < 0 then "-" else "";
    var abs := WrappingAbs(amount);
    var whole, fractional := TruncDiv(abs, UNIT), TruncMod(abs, UNIT);
    if fractional == 0 {
      return sign + Signed(whole);
    }
    var frac := SignedPadded6(fractional);
    while frac != [] && frac[|frac| - 1] == '0'
      invariant TrimZeros(frac) == TrimZeros(SignedPadded6(fractional))
      decreases |frac|
    {
      frac := frac[..|frac| - 1];
    }
    text := sign + Signed(whole) + "." + frac;
  }

  /** The text of u up to the first c, and what follows it. */
  function Cut(u: Url, c: char): Option<(Url, Url)> {
    if u == [] then None
    else if u[0] == c then Some(([], u[1..]))
    else
      match Cut(u[1..], c)
      case None => None
      case Some((a, b)) => Some(([u[0]] + a, b))
  }

  lemma {:induction false} CutFirst(a: Url, c: char, b: Url)
    requires c !in a
    ensures Cut(a + [c] + b, c) == Some((a, b))
  {
    var u := a + [c] + b;
    if a == [] {
      assert u[1..] == b;
    } else {
      assert u[1..] == a[1..] + [c] + b;
      CutFirst(a[1..], c, b);
      assert [a[0]] + a[1..] == a;
    }
  }

  lemma {:induction false} CutNone(u: Url, c: char)
    requires c !in u
    ensures Cut(u, c).None?
  {
    if u != [] {
      CutNone(u[1..], c);
    }
  }

  lemma {:induction false} CutShape(u: Url, c: char)
    ensures match Cut(u, c)
            case None => c !in u
            case Some((a, b)) => c !in a && u == a + [c] + b
  {
    if u != [] && u[0] != c {
      CutShape(u[1..], c);
    }
  }

  /** Decimal text to units of 10^-6: an optional sign, digits, and at most six digits after an optional point. */
  function ParseUnsigned(u: Url): Option<nat> {
    match Cut(u, '.')
    case None => if u == [] then None else (match DigitsValue(u) case None => None case Some(w) => Some(w * UNIT))
    case Some((w, f)) =>
      if w == [] || f == [] || |f| > 6 || DigitsValue(w).None? || DigitsValue(f).None? then None
      else Some(DigitsValue(w).value * UNIT + DigitsValue(f).value * Pow10(6 - |f|))
  }

  function ParseAmount(u: Url): Option<int> {
    if u != [] && u[0] == '-' then
      (match ParseUnsigned(u[1..]) case None => None case Some(n) => Some(0 - n))
    else
      match ParseUnsigned(u) case None => None case Some(n) => Some(n)
  }

  /** Dropping trailing zeros of a fraction divides its digits by the power of ten it shifts. */
  lemma {:induction false} TrimKeepsValue(u: Url)
    requires DigitsValue(u).Some?
    ensures var t := TrimZeros(u);
            && |t| <= |u| && DigitsValue(t).Some?
            && DigitsValue(t).value * Pow10(|u| - |t|) == DigitsValue(u).value
            && (t != [] ==> t[|t| - 1] != '0')
            && (forall c :: c in t ==> c in u)
  {
    if u != [] && u[|u| - 1] == '0' {
      var v := u[..|u| - 1];
      TrimKeepsValue(v);
      var t := TrimZeros(u);
      assert t == TrimZeros(v);
      Shift(DigitsValue(t).value, Pow10(|v| - |t|), DigitsValue(v).value);
      assert Pow10(|u| - |t|) == 10 * Pow10(|v| - |t|);
    } else {
      assert DigitsValue(u).value * Pow10(0) == DigitsValue(u).value;
    }
  }

  lemma Shift(a: nat, p: nat, r: nat)
    requires a * p == r
    ensures a * (10 * p) == 10 * r
  {}

  /** The digits before and after the point of a magnitude that does not wrap. */
  function Magnitude(n: nat): Url {
    if n % UNIT == 0 then Decimal(n / UNIT)
    else Decimal(n / UNIT) + "." + TrimZeros(Padded(n % UNIT, 6))
  }

  lemma PowSix()
    ensures Pow10(6) == UNIT
  {
    assert Pow10(3) == 1000;
  }

  /** A non-zero fraction, padded and trimmed. */
  lemma FractionShape(f: nat)
    requires 0 < f < UNIT
    ensures var t := TrimZeros(Padded(f, 6));
            && 1 <= |t| <= 6 && t[|t| - 1] != '0' && (forall c :: c in t ==> IsDigit(c))
            && DigitsValue(t).Some? && DigitsValue(t).value * Pow10(6 - |t|) == f
  {
    PowSix();
    PaddedValue(f, 6);
    var t := TrimZeros(Padded(f, 6));
    TrimKeepsValue(Padded(f, 6));
    assert t != [] by {
      assert DigitsValue([]).value * Pow10(6) == 0;
    }
  }

  lemma WholeShape(n: nat)
    requires n % UNIT == 0
    ensures ParseUnsigned(Magnitude(n)) == Some(n) && Cut(Magnitude(n), '.').None?
  {
    var w := n / UNIT;
    DecimalValue(w);
    CutNone(Decimal(w), '.');
    assert w * UNIT == n;
  }

  lemma PointShape(w: nat, f: nat)
    requires 0 < f < UNIT
    ensures var t := TrimZeros(Padded(f, 6));
            var u := Decimal(w) + "." + t;
            Cut(u, '.') == Some((Decimal(w), t)) && ParseUnsigned(u) == Some(w * UNIT + f)
  {
    var t := TrimZeros(Padded(f, 6));
    DecimalValue(w);
    FractionShape(f);
    CutFirst(Decimal(w), '.', t);
    PartsParse(Decimal(w) + "." + t, Decimal(w), t, f);
  }

  lemma PartsParse(u: Url, a: Url, b: Url, f: nat)
    requires Cut(u, '.') == Some((a, b)) && a != [] && 1 <= |b| <= 6 && DigitsValue(a).Some? && DigitsValue(b).Some?
    requires DigitsValue(b).value * Pow10(6 - |b|) == f
    ensures ParseUnsigned(u) == Some(DigitsValue(a).value * UNIT + f)
  {}

  /** At least one digit, and no zero in front of another. */
  predicate NoLeadingZero(u: Url) {
    u != [] && (u[0] == '0' ==> |u| == 1)
  }

  lemma MagnitudeShape(n: nat)
    ensures ParseUnsigned(Magnitude(n)) == Some(n)
    ensures Magnitude(n) != [] && IsDigit(Magnitude(n)[0])
    ensures forall c :: c in Magnitude(n) ==> IsDigit(c) || c == '.'
    ensures match Cut(Magnitude(n), '.')
            case None => NoLeadingZero(Magnitude(n))
            case Some((w, f)) => NoLeadingZero(w) && 1 <= |f| <= 6 && f[|f| - 1] != '0'
  {
    DecimalValue(n / UNIT);
    if n % UNIT == 0 {
      WholeShape(n);
    } else {
      PointShape(n / UNIT, n % UNIT);
      FractionShape(n % UNIT);
    }
  }

  lemma AmountIsMagnitude(amount: i64)
    requires amount != -TWO_63
    ensures AmountText(amount) == if amount < 0 then "-" + Magnitude(0 - amount) else Magnitude(amount)
  {
    var n: nat := if amount < 0 then 0 - amount else amount;
    WrapI64Keeps(n);
    assert TruncDiv(n, UNIT) == n / UNIT && TruncMod(n, UNIT) == n % UNIT;
  }

  /** The smallest amount keeps its sign through abs, so its text has three minus signs. */
  lemma SmallestAmountText()
    ensures AmountText(-TWO_63) == "-" + ("-" + Decimal(9_223_372_036_854)) + "." + ("-" + Decimal(775_808))
  {
    assert WrappingAbs(-TWO_63) == -TWO_63;
    assert TruncDiv(-TWO_63, UNIT) == -9_223_372_036_854;
    assert TruncMod(-TWO_63, UNIT) == -775_808;
    var fraction := "-" + Decimal(775_808);
    assert fraction[|fraction| - 1] == '8';
    assert TrimZeros(fraction) == fraction;
  }

  lemma SecondSignFails(u: Url)
    requires |u| >= 2 && u[0] == '-' && u[1] == '-'
    ensures ParseAmount(u).None?
  {
    var v := u[1..];
    CutShape(v, '.');
    match Cut(v, '.')
    case None => NonDigitFails(v, 0);
    case Some((a, b)) =>
      if a != [] {
        assert a[0] == v[0];
        NonDigitFails(a, 0);
      }
  }

  lemma {:induction false} NonDigitFails(u: Url, i: nat)
    requires i < |u| && !IsDigit(u[i])
    ensures DigitsValue(u).None?
  {
    if i < |u| - 1 {
      NonDigitFails(u[..|u| - 1], i);
    }
  }

  lemma AmountParses(amount: i64)
    requires amount != -TWO_63
    ensures ParseAmount(AmountText(amount)) == Some(amount)
  {
    AmountIsMagnitude(amount);
    var n: nat := if amount < 0 then 0 - amount else amount;
    MagnitudeShape(n);
    if amount < 0 {
      assert AmountText(amount)[1..] == Magnitude(n);
    }
  }

  /** The printed amount reads back as the amount for every i64 but the smallest. */
  lemma AmountRoundTripIff(amount: i64)
    ensures ParseAmount(AmountText(amount)) == Some(amount) <==> amount != -TWO_63
  {
    if amount == -TWO_63 {
      SmallestAmountText();
      SecondSignFails(AmountText(amount));
    } else {
      AmountParses(amount);
    }
  }

  /** A sign exactly for a negative amount, then digits without a leading zero, and a point exactly before one to
      six more digits of which the last is not a zero: with the round trip this leaves only one text. */
  lemma AmountIsTrimmed(amount: i64)
    requires amount != -TWO_63
    ensures var u := AmountText(amount);
            && u != [] && (u[0] == '-' <==> amount < 0)
            && var m := if amount < 0 then u[1..] else u;
               && (forall c :: c in m ==> '0' <= c <= '9' || c == '.')
               && match Cut(m, '.')
                  case None => m != [] && (m[0] == '0' ==> |m| == 1)
                  case Some((w, f)) =>
                    w != [] && (w[0] == '0' ==> |w| == 1) && 1 <= |f| <= 6 && f[|f| - 1] != '0'
  {
    AmountIsMagnitude(amount);
    var n: nat := if amount < 0 then 0 - amount else amount;
    MagnitudeShape(n);
    if amount < 0 {
      assert AmountText(amount)[1..] == Magnitude(n);
    }
  }

  /** The URL of a fee shows exactly the fee: its decimal, in dollars, is the cents over a hundred. */
  lemma FeeAmountExact(cents: u32)
    ensures var units := ParseAmount(AmountText(CentsToTokenUnits(cents, 6)));
            units.Some? && units.value as real / UNIT as real == cents as real / 100.0
  {
    FeeSixDecimals(cents);
    AmountRoundTripIff(CentsToTokenUnits(cents, 6));
  }

  // ---------------------------------------------------------------- the URL

  datatype PayRequest = PayRequest(
    treasuryAta: Url, amount: i64, mint: Url, reference: Url, caption: Bytes, memo: Bytes)

  /** A key, its value, the delimiter, and the rest. */
  function Entry(key: Url, value: Url, delimiter: char, rest: Url): Url {
    key + value + [delimiter] + rest
  }

  function BuildUrl(r: PayRequest): Url {
    Entry("solana:", r.treasuryAta, '?',
    Entry("amount=", AmountText(r.amount), '&',
    Entry("spl-token=", r.mint, '&',
    Entry("reference=", r.reference, '&',
    Entry("label=", PercentEncode(r.caption), '&',
          "memo=" + PercentEncode(r.memo))))))
  }

  /** The text of the URL, field by field. */
  lemma UrlLayout(r: PayRequest)
    ensures BuildUrl(r) ==
            "solana:" + r.treasuryAta + "?amount=" + AmountText(r.amount) + "&spl-token=" + r.mint
            + "&reference=" + r.reference + "&label=" + PercentEncode(r.caption) + "&memo=" + PercentEncode(r.memo)
  {
    var labelText, memo := PercentEncode(r.caption), PercentEncode(r.memo);
    var u4 := Entry("label=", labelText, '&', "memo=" + memo);
    var u3 := Entry("reference=", r.reference, '&', u4);
    var u2 := Entry("spl-token=", r.mint, '&', u3);
    JoinedKeys();
    var p1 := "solana:" + r.treasuryAta;
    Flatten(p1, '?', "amount=", "?amount=", AmountText(r.amount), '&', u2);
    var p2 := p1 + "?amount=" + AmountText(r.amount);
    Flatten(p2, '&', "spl-token=", "&spl-token=", r.mint, '&', u3);
    var p3 := p2 + "&spl-token=" + r.mint;
    Flatten(p3, '&', "reference=", "&reference=", r.reference, '&', u4);
    var p4 := p3 + "&reference=" + r.reference;
    Flatten(p4, '&', "label=", "&label=", labelText, '&', "memo=" + memo);
    Reassociate(p4 + "&label=" + labelText, ['&'], "memo=", memo);
  }

  lemma JoinedKeys()
    ensures ['?'] + "amount=" == "?amount=" && ['&'] + "spl-token=" == "&spl-token="
    ensures ['&'] + "reference=" == "&reference=" && ['&'] + "label=" == "&label=" && ['&'] + "memo=" == "&memo="
  {}

  lemma Reassociate(a: Url, b: Url, c: Url, d: Url)
    ensures a + b + (c + d) == a + (b + c) + d
  {}

  lemma Flatten(front: Url, before: char, key: Url, joined: Url, value: Url, after: char, rest: Url)
    requires joined == [before] + key
    ensures front + [before] + Entry(key, value, after, rest) == front + joined + value + [after] + rest
  {}

  /** What follows an expected text. */
  function After(u: Url, expected: Url): Option<Url> {
    if expected <= u then Some(u[|expected|..]) else None
  }

  /** One field: an expected key, then everything up to the delimiter. */
  function Field(u: Url, key: Url, delimiter: char): Option<(Url, Url)> {
    match After(u, key)
    case None => None
    case Some(v) => Cut(v, delimiter)
  }

  function ParseUrl(u: Url): Option<PayRequest> {
    match Field(u, "solana:", '?')
    case None => None
    case Some((ata, u1)) =>
      match Field(u1, "amount=", '&')
      case None => None
      case Some((amount, u2)) =>
        match Field(u2, "spl-token=", '&')
        case None => None
        case Some((mint, u3)) =>
          match Field(u3, "reference=", '&')
          case None => None
          case Some((reference, u4)) =>
            match Field(u4, "label=", '&')
            case None => None
            case Some((labelText, u5)) =>
              match After(u5, "memo=")
              case None => None
              case Some(memo) => Assemble(ata, amount, mint, reference, labelText, memo)
  }

  function Assemble(ata: Url, amount: Url, mint: Url, reference: Url, labelText: Url, memo: Url): Option<PayRequest> {
    var a, l, m := ParseAmount(amount), PercentDecode(labelText), PercentDecode(memo);
    if a.None? || l.None? || m.None? || !(-TWO_63 <= a.value < TWO_63) then None
    else Some(PayRequest(ata, a.value, mint, reference, l.value, m.value))
  }

  lemma FieldFound(key: Url, value: Url, delimiter: char, rest: Url)
    requires delimiter !in value
    ensures Field(Entry(key, value, delimiter, rest), key, delimiter) == Some((value, rest))
  {
    var u := Entry(key, value, delimiter, rest);
    assert key <= u && u[|key|..] == value + [delimiter] + rest;
    CutFirst(value, delimiter, rest);
  }

  lemma FieldShape(u: Url, key: Url, delimiter: char)
    requires Field(u, key, delimiter).Some?
    ensures delimiter !in Field(u, key, delimiter).value.0
  {
    CutShape(After(u, key).value, delimiter);
  }

  lemma EncodedHasNoAmpersand(s: Bytes)
    ensures '&' !in PercentEncode(s)
  {
    EncodeEmitsEncoded(s);
    assert !IsUnreserved('&' as int);
  }

  lemma AmountHasNoAmpersand(amount: i64)
    requires amount != -TWO_63
    ensures '&' !in AmountText(amount)
  {
    AmountIsMagnitude(amount);
    MagnitudeShape(if amount < 0 then 0 - amount else amount);
  }

  lemma UrlParses(r: PayRequest)
    requires '?' !in r.treasuryAta && '&' !in r.mint && '&' !in r.reference && r.amount != -TWO_63
    ensures ParseUrl(BuildUrl(r)) == Some(r)
  {
    var amount, labelText, memo := AmountText(r.amount), PercentEncode(r.caption), PercentEncode(r.memo);
    AmountHasNoAmpersand(r.amount);
    EncodedHasNoAmpersand(r.caption);
    var u5 := "memo=" + memo;
    var u4 := Entry("label=", labelText, '&', u5);
    var u3 := Entry("reference=", r.reference, '&', u4);
    var u2 := Entry("spl-token=", r.mint, '&', u3);
    var u1 := Entry("amount=", amount, '&', u2);
    FieldFound("solana:", r.treasuryAta, '?', u1);
    FieldFound("amount=", amount, '&', u2);
    FieldFound("spl-token=", r.mint, '&', u3);
    FieldFound("reference=", r.reference, '&', u4);
    FieldFound("label=", labelText, '&', u5);
    AfterKey("memo=", memo);
    AmountRoundTripIff(r.amount);
    PercentRoundTrip(r.caption);
    PercentRoundTrip(r.memo);
  }

  lemma AfterKey(key: Url, rest: Url)
    ensures After(key + rest, key) == Some(rest)
  {
    assert key <= key + rest && (key + rest)[|key|..] == rest;
  }

  lemma AfterEntry(key: Url, value: Url, delimiter: char, rest: Url)
    ensures After(Entry(key, value, delimiter, rest), key) == Some(value + [delimiter] + rest)
  {
    AfterKey(key, value + [delimiter] + rest);
    assert Entry(key, value, delimiter, rest) == key + (value + [delimiter] + rest);
  }

  /** What a successful parse shows about the fields that are not encoded. */
  lemma ParsedFieldsAreClean(u: Url)
    requires ParseUrl(u).Some?
    ensures var r := ParseUrl(u).value; '?' !in r.treasuryAta && '&' !in r.mint && '&' !in r.reference
  {
    FieldShape(u, "solana:", '?');
    var u1 := Field(u, "solana:", '?').value.1;
    var u2 := Field(u1, "amount=", '&').value.1;
    FieldShape(u2, "spl-token=", '&');
    var u3 := Field(u2, "spl-token=", '&').value.1;
    FieldShape(u3, "reference=", '&');
  }

  /** The smallest amount is never read back, whatever stands around it. */
  lemma SmallestAmountLost(r: PayRequest)
    requires r.amount == -TWO_63 && '?' !in r.treasuryAta
    ensures ParseUrl(BuildUrl(r)) != Some(r)
  {
    var amount := AmountText(r.amount);
    SmallestAmountText();
    var rest := Entry("spl-token=", r.mint, '&', Entry("reference=", r.reference, '&',
                Entry("label=", PercentEncode(r.caption), '&', "memo=" + PercentEncode(r.memo))));
    var u1 := Entry("amount=", amount, '&', rest);
    FieldFound("solana:", r.treasuryAta, '?', u1);
    AfterEntry("amount=", amount, '&', rest);
    CutKeepsFront(amount, '&', rest);
  }

  /** Text that starts with two signs is cut to text that starts with two signs. */
  lemma CutKeepsFront(a: Url, c: char, b: Url)
    requires |a| >= 2 && a[0] == '-' && a[1] == '-' && c != '-'
    ensures match Cut(a + [c] + b, c)
            case None => true
            case Some((x, _)) => ParseAmount(x).None?
  {
    var u := a + [c] + b;
    CutShape(u, c);
    match Cut(u, c)
    case None =>
    case Some((x, y)) =>
      assert u[0] == '-' && u[1] == '-';
      assert u[|x|] == c;
      assert |x| >= 2;
      assert x[0] == u[0] && x[1] == u[1];
      SecondSignFails(x);
  }

  /** The URL parses back to exactly its six arguments, for every label and every memo, exactly when the fields
      that are inserted as they are avoid their delimiter and the amount is not the smallest i64. */
  lemma UrlRoundTripIff(r: PayRequest)
    ensures ParseUrl(BuildUrl(r)) == Some(r)
            <==> '?' !in r.treasuryAta && '&' !in r.mint && '&' !in r.reference && r.amount != -TWO_63
  {
    if ParseUrl(BuildUrl(r)) == Some(r) {
      ParsedFieldsAreClean(BuildUrl(r));
      if r.amount == -TWO_63 {
        SmallestAmountLost(r);
      }
    } else if '?' !in r.treasuryAta && '&' !in r.mint && '&' !in r.reference && r.amount != -TWO_63 {
      UrlParses(r);
    }
  }
}
