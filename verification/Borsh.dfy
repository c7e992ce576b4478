/** Borsh as the derive macros use it: types are described by a schema, and one encoder and one decoder work
    for every schema. Decoding is proved to invert encoding, and to accept nothing else. */
module Borsh {
  import opened Common

  type byte = x: int | 0 <= x < 256
  type Bytes = seq<byte>

  // ---------------------------------------------------------------- UTF-8

  predicate Continuation(b: byte) {
    0x80 <= b < 0xC0
  }

  /** Length of the well-formed UTF-8 sequence a string starts with, or 0 if there is none. */
  function Utf8Lead(s: Bytes): (n: nat)
    requires s != []
    ensures n <= |s|
  {
    var b := s[0];
    if b < 0x80 then 1
    else if 0xC2 <= b < 0xE0 then if |s| >= 2 && Continuation(s[1]) then 2 else 0
    else if 0xE0 <= b < 0xF0 then
      if |s| >= 3 && Continuation(s[1]) && Continuation(s[2])
         && (b == 0xE0 ==> s[1] >= 0xA0) && (b == 0xED ==> s[1] < 0xA0) then 3 else 0
    else if 0xF0 <= b < 0xF5 then
      if |s| >= 4 && Continuation(s[1]) && Continuation(s[2]) && Continuation(s[3])
         && (b == 0xF0 ==> s[1] >= 0x90) && (b == 0xF4 ==> s[1] < 0x90) then 4 else 0
    else 0
  }

  predicate IsUtf8(s: Bytes)
    decreases |s|
  {
    s == [] || (Utf8Lead(s) > 0 && IsUtf8(s[Utf8Lead(s)..]))
  }

  // ---------------------------------------------------------------- little-endian integers

  function Pow256(n: nat): nat {
    if n == 0 then 1 else 256 * Pow256(n - 1)
  }

  function LittleEndian(x: nat, width: nat): (s: Bytes)
    ensures |s| == width
  {
    if width == 0 then [] else [x % 256] + LittleEndian(x / 256, width - 1)
  }

  function FromLittleEndian(s: Bytes): nat {
    if s == [] then 0 else s[0] + 256 * FromLittleEndian(s[1..])
  }

  lemma {:induction false} IntegerRoundTrip(x: nat, width: nat)
    requires x < Pow256(width)
    ensures FromLittleEndian(LittleEndian(x, width)) == x
  {
    if width > 0 {
      IntegerRoundTrip(x / 256, width - 1);
      assert LittleEndian(x, width)[1..] == LittleEndian(x / 256, width - 1);
    }
  }

  lemma {:induction false} IntegerCanonical(s: Bytes)
    ensures FromLittleEndian(s) < Pow256(|s|)
    ensures LittleEndian(FromLittleEndian(s), |s|) == s
  {
    if s != [] {
      IntegerCanonical(s[1..]);
      assert FromLittleEndian(s) / 256 == FromLittleEndian(s[1..]);
    }
  }

  lemma Widths()
    ensures Pow256(4) == TWO_32 && Pow256(8) == TWO_64
  {
    assert Pow256(4) == TWO_32;
  }

  /** Two's complement of a 64-bit integer. */
  function ToUnsigned(i: int): nat
    requires -TWO_63 <= i < TWO_63
  {
    if i < 0 then i + TWO_64 else i
  }

  function ToSigned(n: nat): int {
    if n < TWO_63 then n else n - TWO_64
  }

  // ---------------------------------------------------------------- schemas and values

  datatype Ty =
    | U8
    | I64
    | Fixed(len: nat)
    | Str
    | Tag(count: nat)
    | Opt(elem: Ty)
    | Vec(elem: Ty)
    | Struct(fields: seq<Ty>)

  datatype Val =
    | Byte(b: byte)
    | Long(i: int)
    | Raw(bytes: Bytes)
    | Text(bytes: Bytes)
    | NoneVal
    | SomeVal(v: Val)
    | ListVal(vs: seq<Val>)
    | StructVal(vs: seq<Val>)

  /** A value the type's Rust values can be; a length prefix is a u32. */
  predicate HasType(v: Val, ty: Ty)
    decreases v
  {
    match ty
    case U8 => v.Byte?
    case I64 => v.Long? && -TWO_63 <= v.i < TWO_63
    case Fixed(n) => v.Raw? && |v.bytes| == n
    case Str => v.Text? && IsUtf8(v.bytes) && |v.bytes| < TWO_32
    case Tag(n) => v.Byte? && v.b < n
    case Opt(e) => v.NoneVal? || (v.SomeVal? && HasType(v.v, e))
    case Vec(e) => v.ListVal? && |v.vs| < TWO_32 && forall i :: 0 <= i < |v.vs| ==> HasType(v.vs[i], e)
    case Struct(tys) => v.StructVal? && |v.vs| == |tys| && forall i :: 0 <= i < |tys| ==> HasType(v.vs[i], tys[i])
  }

  function Encode(v: Val): Bytes
    decreases v, 0
  {
    match v
    case Byte(b) => [b]
    case Long(i) => if -TWO_63 <= i < TWO_63 then LittleEndian(ToUnsigned(i), 8) else []
    case Raw(bytes) => bytes
    case Text(bytes) => LittleEndian(|bytes|, 4) + bytes
    case NoneVal => [0]
    case SomeVal(w) => [1] + Encode(w)
    case ListVal(vs) => LittleEndian(|vs|, 4) + EncodeAll(vs)
    case StructVal(vs) => EncodeAll(vs)
  }

  function EncodeAll(vs: seq<Val>): Bytes
    decreases vs
  {
    if vs == [] then [] else Encode(vs[0]) + EncodeAll(vs[1..])
  }

  /** The value a byte string starts with, and the bytes after it. */
  function Decode(ty: Ty, s: Bytes): Option<(Val, Bytes)>
    decreases ty, 0
  {
    match ty
    case U8 => if s == [] then None else Some((Byte(s[0]), s[1..]))
    case I64 => if |s| < 8 then None else Some((Long(ToSigned(FromLittleEndian(s[..8]))), s[8..]))
    case Fixed(n) => if |s| < n then None else Some((Raw(s[..n]), s[n..]))
    case Str =>
      if |s| < 4 then None
      else
        var n := FromLittleEndian(s[..4]);
        if |s| - 4 < n || !IsUtf8(s[4..4 + n]) then None else Some((Text(s[4..4 + n]), s[4 + n..]))
    case Tag(n) => if s == [] || s[0] >= n then None else Some((Byte(s[0]), s[1..]))
    case Opt(e) =>
      if s == [] || s[0] > 1 then None
      else if s[0] == 0 then Some((NoneVal, s[1..]))
      else (match Decode(e, s[1..])
            case None => None
            case Some((v, rest)) => Some((SomeVal(v), rest)))
    case Vec(e) =>
      if |s| < 4 then None
      else (match DecodeMany(e, FromLittleEndian(s[..4]), s[4..])
            case None => None
            case Some((vs, rest)) => Some((ListVal(vs), rest)))
    case Struct(tys) =>
      (match DecodeFields(tys, s)
       case None => None
       case Some((vs, rest)) => Some((StructVal(vs), rest)))
  }

  function DecodeMany(ty: Ty, n: nat, s: Bytes): Option<(seq<Val>, Bytes)>
    decreases ty, 1, n
  {
    if n == 0 then Some(([], s))
    else
      match Decode(ty, s)
      case None => None
      case Some((v, mid)) =>
        match DecodeMany(ty, n - 1, mid)
        case None => None
        case Some((vs, rest)) => Some(([v] + vs, rest))
  }

  function DecodeFields(tys: seq<Ty>, s: Bytes): Option<(seq<Val>, Bytes)>
    decreases tys, 1
  {
    if tys == [] then Some(([], s))
    else
      match Decode(tys[0], s)
      case None => None
      case Some((v, mid)) =>
        match DecodeFields(tys[1..], mid)
        case None => None
        case Some((vs, rest)) => Some(([v] + vs, rest))
  }

  /** try_from_slice: the whole input, or nothing. */
  function TryFromSlice(ty: Ty, s: Bytes): Option<Val> {
    match Decode(ty, s)
    case None => None
    case Some((v, rest)) => if rest == [] then Some(v) else None
  }

  // ---------------------------------------------------------------- decoding inverts encoding

  lemma PrefixedParts(n: nat, width: nat, body: Bytes)
    requires n < Pow256(width)
    ensures var s := LittleEndian(n, width) + body;
            |s| >= width && FromLittleEndian(s[..width]) == n && s[width..] == body
  {
    var s := LittleEndian(n, width) + body;
    assert s[..width] == LittleEndian(n, width) && s[width..] == body;
    IntegerRoundTrip(n, width);
  }

  lemma RoundTripText(v: Val, rest: Bytes)
    requires HasType(v, Str)
    ensures Decode(Str, Encode(v) + rest) == Some((v, rest))
  {
    Widths();
    var n := |v.bytes|;
    var s := Encode(v) + rest;
    assert s == LittleEndian(n, 4) + (v.bytes + rest);
    PrefixedParts(n, 4, v.bytes + rest);
    assert s[4..4 + n] == v.bytes && s[4 + n..] == rest;
  }

  lemma RoundTripLong(v: Val, rest: Bytes)
    requires HasType(v, I64)
    ensures Decode(I64, Encode(v) + rest) == Some((v, rest))
  {
    Widths();
    PrefixedParts(ToUnsigned(v.i), 8, rest);
  }

  lemma {:induction false} RoundTrip(ty: Ty, v: Val, rest: Bytes)
    requires HasType(v, ty)
    ensures Decode(ty, Encode(v) + rest) == Some((v, rest))
    decreases ty, 0
  {
    match ty
    case U8 =>
    case Tag(_) =>
    case I64 => RoundTripLong(v, rest);
    case Fixed(n) => assert (v.bytes + rest)[..n] == v.bytes && (v.bytes + rest)[n..] == rest;
    case Str => RoundTripText(v, rest);
    case Opt(e) =>
      if v.SomeVal? {
        var s := Encode(v) + rest;
        assert s[1..] == Encode(v.v) + rest;
        RoundTrip(e, v.v, rest);
      } else {
        assert (Encode(v) + rest)[1..] == rest;
      }
    case Vec(e) =>
      Widths();
      assert Encode(v) + rest == LittleEndian(|v.vs|, 4) + (EncodeAll(v.vs) + rest);
      PrefixedParts(|v.vs|, 4, EncodeAll(v.vs) + rest);
      RoundTripMany(e, v.vs, rest);
    case Struct(tys) => RoundTripFields(tys, v.vs, rest);
  }

  lemma {:induction false} RoundTripMany(ty: Ty, vs: seq<Val>, rest: Bytes)
    requires forall i :: 0 <= i < |vs| ==> HasType(vs[i], ty)
    ensures DecodeMany(ty, |vs|, EncodeAll(vs) + rest) == Some((vs, rest))
    decreases ty, 1, |vs|
  {
    if vs != [] {
      assert EncodeAll(vs) + rest == Encode(vs[0]) + (EncodeAll(vs[1..]) + rest);
      RoundTrip(ty, vs[0], EncodeAll(vs[1..]) + rest);
      RoundTripMany(ty, vs[1..], rest);
      assert [vs[0]] + vs[1..] == vs;
    } else {
      assert EncodeAll(vs) + rest == rest;
    }
  }

  lemma {:induction false} RoundTripFields(tys: seq<Ty>, vs: seq<Val>, rest: Bytes)
    requires |vs| == |tys| && forall i :: 0 <= i < |tys| ==> HasType(vs[i], tys[i])
    ensures DecodeFields(tys, EncodeAll(vs) + rest) == Some((vs, rest))
    decreases tys, 1
  {
    if tys != [] {
      assert EncodeAll(vs) + rest == Encode(vs[0]) + (EncodeAll(vs[1..]) + rest);
      RoundTrip(tys[0], vs[0], EncodeAll(vs[1..]) + rest);
      RoundTripFields(tys[1..], vs[1..], rest);
      assert [vs[0]] + vs[1..] == vs;
    } else {
      assert EncodeAll(vs) + rest == rest;
    }
  }

  // ---------------------------------------------------------------- decoding accepts encodings only

  lemma CanonicalLong(s: Bytes)
    requires |s| >= 8
    ensures var i := ToSigned(FromLittleEndian(s[..8]));
            -TWO_63 <= i < TWO_63 && LittleEndian(ToUnsigned(i), 8) + s[8..] == s
  {
    Widths();
    IntegerCanonical(s[..8]);
    SignedRange(FromLittleEndian(s[..8]));
    assert s[..8] + s[8..] == s;
  }

  lemma SignedRange(n: nat)
    requires n < TWO_64
    ensures -TWO_63 <= ToSigned(n) < TWO_63 && ToUnsigned(ToSigned(n)) == n
  {}

  lemma DecodedText(s: Bytes)
    requires Decode(Str, s).Some?
    ensures |s| >= 4 && FromLittleEndian(s[..4]) <= |s| - 4
    ensures var n := FromLittleEndian(s[..4]);
            IsUtf8(s[4..4 + n]) && Decode(Str, s) == Some((Text(s[4..4 + n]), s[4 + n..]))
  {}

  lemma TextJoins(s: Bytes, n: nat)
    requires |s| >= 4 + n && LittleEndian(n, 4) + s[4..] == s
    ensures LittleEndian(n, 4) + s[4..4 + n] + s[4 + n..] == s
  {
    assert s[4..] == s[4..4 + n] + s[4 + n..];
  }

  lemma CanonicalText(s: Bytes)
    requires Decode(Str, s).Some?
    ensures var (v, rest) := Decode(Str, s).value;
            HasType(v, Str) && s == Encode(v) + rest
  {
    DecodedText(s);
    CanonicalPrefix(s);
    TextJoins(s, FromLittleEndian(s[..4]));
  }

  lemma CanonicalLeaf(ty: Ty, s: Bytes)
    requires ty.U8? || ty.Tag? || ty.I64? || ty.Fixed?
    requires Decode(ty, s).Some?
    ensures var (v, rest) := Decode(ty, s).value;
            HasType(v, ty) && s == Encode(v) + rest
  {
    if ty.I64? {
      CanonicalLong(s);
    } else if ty.Fixed? {
      assert s[..ty.len] + s[ty.len..] == s;
    }
  }

  lemma CanonicalPrefix(s: Bytes)
    requires |s| >= 4
    ensures FromLittleEndian(s[..4]) < TWO_32 && LittleEndian(FromLittleEndian(s[..4]), 4) + s[4..] == s
  {
    Widths();
    IntegerCanonical(s[..4]);
    assert s[..4] + s[4..] == s;
  }

  lemma {:induction false} Canonical(ty: Ty, s: Bytes)
    requires Decode(ty, s).Some?
    ensures var (v, rest) := Decode(ty, s).value;
            HasType(v, ty) && s == Encode(v) + rest
    decreases ty, 0
  {
    var (v, rest) := Decode(ty, s).value;
    match ty
    case Str => CanonicalText(s);
    case Opt(e) =>
      assert s == [s[0]] + s[1..];
      if s[0] == 1 {
        Canonical(e, s[1..]);
        assert Encode(v) + rest == [1] + (Encode(v.v) + rest);
      }
    case Vec(e) =>
      CanonicalPrefix(s);
      CanonicalMany(e, FromLittleEndian(s[..4]), s[4..]);
      assert Encode(v) + rest == LittleEndian(|v.vs|, 4) + (EncodeAll(v.vs) + rest);
    case Struct(tys) => CanonicalFields(tys, s);
    case _ => CanonicalLeaf(ty, s);
  }

  lemma {:induction false} CanonicalMany(ty: Ty, n: nat, s: Bytes)
    requires DecodeMany(ty, n, s).Some?
    ensures var (vs, rest) := DecodeMany(ty, n, s).value;
            && |vs| == n && s == EncodeAll(vs) + rest
            && forall i :: 0 <= i < n ==> HasType(vs[i], ty)
    decreases ty, 1, n
  {
    if n > 0 {
      Canonical(ty, s);
      var (v, mid) := Decode(ty, s).value;
      CanonicalMany(ty, n - 1, mid);
      var (vs, rest) := DecodeMany(ty, n - 1, mid).value;
      assert ([v] + vs)[1..] == vs;
    }
  }

  lemma {:induction false} CanonicalFields(tys: seq<Ty>, s: Bytes)
    requires DecodeFields(tys, s).Some?
    ensures var (vs, rest) := DecodeFields(tys, s).value;
            && |vs| == |tys| && s == EncodeAll(vs) + rest
            && forall i :: 0 <= i < |tys| ==> HasType(vs[i], tys[i])
    decreases tys, 1
  {
    if tys != [] {
      Canonical(tys[0], s);
      var (v, mid) := Decode(tys[0], s).value;
      CanonicalFields(tys[1..], mid);
      var (vs, rest) := DecodeFields(tys[1..], mid).value;
      assert ([v] + vs)[1..] == vs;
    }
  }

  /** try_from_slice accepts exactly the encodings. */
  lemma TryFromSliceIff(ty: Ty, s: Bytes, v: Val)
    ensures TryFromSlice(ty, s) == Some(v) <==> HasType(v, ty) && s == Encode(v)
  {
    if HasType(v, ty) && s == Encode(v) {
      RoundTrip(ty, v, []);
      assert Encode(v) + [] == s;
    }
    if TryFromSlice(ty, s) == Some(v) {
      Canonical(ty, s);
      assert Encode(v) + [] == Encode(v);
    }
  }

  /** Encoding is one-to-one on the values of a type, even when other bytes follow. */
  lemma EncodeInjective(ty: Ty, v: Val, w: Val, r: Bytes, q: Bytes)
    requires HasType(v, ty) && HasType(w, ty) && Encode(v) + r == Encode(w) + q
    ensures v == w && r == q
  {
    RoundTrip(ty, v, r);
    RoundTrip(ty, w, q);
  }
}
