/** The bytes of the account and of every instruction's data, written out field by field. */
module Layout {
  import opened Common
  import opened Borsh
  import opened SolanaTypes
  import opened Instructions

  function U32Bytes(n: nat): Bytes {
    [n % 0x100, n / 0x100 % 0x100, n / 0x1_0000 % 0x100, n / 0x100_0000 % 0x100]
  }

  /** Two's complement. */
  function I64Bytes(x: i64): Bytes {
    var n := x % 0x1_0000_0000_0000_0000;
    U32Bytes(n) + U32Bytes(n / 0x1_0000_0000)
  }

  function TextBytes(s: Bytes): Bytes {
    U32Bytes(|s|) + s
  }

  function Joined(parts: seq<Bytes>): Bytes {
    if parts == [] then [] else parts[0] + Joined(parts[1..])
  }

  function ListBytes(parts: seq<Bytes>): Bytes {
    U32Bytes(|parts|) + Joined(parts)
  }

  function OptBytes(part: Option<Bytes>): Bytes {
    match part case None => [0] case Some(b) => [1] + b
  }

  function LongParts(xs: seq<i64>): seq<Bytes> {
    seq(|xs|, i requires 0 <= i < |xs| => I64Bytes(xs[i]))
  }

  function RetractParts(es: seq<RetractEntry>): seq<Bytes> {
    seq(|es|, i requires 0 <= i < |es| => es[i].pubkey + [es[i].count])
  }

  function OptLongPart(o: Option<i64>): Option<Bytes> {
    match o case None => None case Some(x) => Some(I64Bytes(x))
  }

  /** The byte of each variant is its place in the declaration. */
  lemma VariantBytes()
    ensures AgreementStatus.Draft.Discriminant() == 0 && AgreementStatus.PendingSignatures.Discriminant() == 1
    ensures AgreementStatus.Completed.Discriminant() == 2 && AgreementStatus.Cancelled.Discriminant() == 3
    ensures AgreementStatus.Expired.Discriminant() == 4 && AgreementStatus.Revoked.Discriminant() == 5
    ensures Ipfs.Discriminant() == 0 && Arweave.Discriminant() == 1
  {}

  lemma FourBytes(n: nat)
    ensures LittleEndian(n, 4) == U32Bytes(n)
  {
    var n1 := n / 256;
    var n2 := n1 / 256;
    var n3 := n2 / 256;
    assert n2 == n / 0x1_0000 && n3 == n / 0x100_0000;
    assert LittleEndian(n3, 1) == [n3 % 256] + LittleEndian(n3 / 256, 0);
    assert LittleEndian(n2, 2) == [n2 % 256] + LittleEndian(n3, 1);
    assert LittleEndian(n1, 3) == [n1 % 256] + LittleEndian(n2, 2);
    assert LittleEndian(n, 4) == [n % 256] + LittleEndian(n1, 3);
  }

  lemma {:induction false} SplitBytes(n: nat, a: nat, b: nat)
    ensures LittleEndian(n, a + b) == LittleEndian(n, a) + LittleEndian(Shifted(n, a), b)
  {
    if a > 0 {
      SplitBytes(n / 256, a - 1, b);
    } else {
      assert LittleEndian(n, 0) + LittleEndian(n, b) == LittleEndian(n, b);
    }
  }

  function Shifted(n: nat, a: nat): nat {
    if a == 0 then n else Shifted(n / 256, a - 1)
  }

  lemma LongLayout(x: i64)
    ensures Encode(Long(x)) == I64Bytes(x)
  {
    var n := ToUnsigned(x);
    assert n == x % TWO_64;
    assert Shifted(n / 256 / 256 / 256, 1) == n / 256 / 256 / 256 / 256 == n / TWO_32;
    assert Shifted(n / 256, 3) == Shifted(n / 256 / 256, 2) == n / TWO_32;
    SplitBytes(n, 4, 4);
    FourBytes(n);
    FourBytes(n / TWO_32);
  }

  lemma {:induction false} ManyLayout(vs: seq<Val>, parts: seq<Bytes>)
    requires |vs| == |parts| && forall i :: 0 <= i < |vs| ==> Encode(vs[i]) == parts[i]
    ensures EncodeAll(vs) == Joined(parts)
  {
    if vs != [] {
      ManyLayout(vs[1..], parts[1..]);
    }
  }

  lemma KeysLayout(ks: seq<Key>)
    ensures Encode(ListVal(KeyVals(ks))) == ListBytes(ks)
  {
    ManyLayout(KeyVals(ks), ks);
    FourBytes(|ks|);
  }

  lemma LongsLayout(xs: seq<i64>)
    ensures Encode(ListVal(LongVals(xs))) == ListBytes(LongParts(xs))
  {
    forall i | 0 <= i < |xs| ensures Encode(LongVals(xs)[i]) == LongParts(xs)[i] {
      LongLayout(xs[i]);
    }
    ManyLayout(LongVals(xs), LongParts(xs));
    FourBytes(|xs|);
  }

  lemma RetractsLayout(es: seq<RetractEntry>)
    ensures Encode(ListVal(RetractVals(es))) == ListBytes(RetractParts(es))
  {
    forall i | 0 <= i < |es| ensures Encode(RetractVals(es)[i]) == RetractParts(es)[i] {
      TwoLayout(Raw(es[i].pubkey), Byte(es[i].count));
    }
    ManyLayout(RetractVals(es), RetractParts(es));
    FourBytes(|es|);
  }

  lemma TwoLayout(a: Val, b: Val)
    ensures EncodeAll([a, b]) == Encode(a) + Encode(b)
  {
    assert [a, b] == [a] + [b];
    EncodeAllAppend([a], [b]);
    OneEncoded(a);
    OneEncoded(b);
  }

  lemma FourLayout(a: Val, b: Val, c: Val, d: Val)
    ensures EncodeAll([a, b, c, d]) == Encode(a) + Encode(b) + Encode(c) + Encode(d)
  {
    assert [a, b, c, d] == [a, b] + [c, d];
    EncodeAllAppend([a, b], [c, d]);
    TwoLayout(a, b);
    TwoLayout(c, d);
  }

  lemma IdentityLayout(a: AgreementState)
    ensures Encode(IdentityVal(a)) == a.creator + a.agreementId + a.contentHash + TextBytes(a.title)
  {
    FourLayout(Raw(a.creator), Raw(a.agreementId), Raw(a.contentHash), Text(a.title));
    FourBytes(|a.title|);
  }

  lemma StorageLayout(a: AgreementState)
    ensures Encode(StorageVal(a))
         == TextBytes(a.storageUri) + [a.storageBackend.Discriminant()] + ListBytes(a.parties) + ListBytes(a.signedBy)
  {
    FourLayout(Text(a.storageUri), Byte(a.storageBackend.Discriminant()),
               ListVal(KeyVals(a.parties)), ListVal(KeyVals(a.signedBy)));
    FourBytes(|a.storageUri|);
    KeysLayout(a.parties);
    KeysLayout(a.signedBy);
  }

  lemma SigningLayout(a: AgreementState)
    ensures Encode(SigningVal(a))
         == ListBytes(LongParts(a.signedAt)) + [a.status.Discriminant()] + I64Bytes(a.createdAt) + I64Bytes(a.expiresAt)
  {
    FourLayout(ListVal(LongVals(a.signedAt)), Byte(a.status.Discriminant()), Long(a.createdAt), Long(a.expiresAt));
    LongsLayout(a.signedAt);
    LongLayout(a.createdAt);
    LongLayout(a.expiresAt);
  }

  lemma OptLongLayout(o: Option<i64>)
    ensures Encode(OptLong(o)) == OptBytes(OptLongPart(o))
  {
    if o.Some? {
      LongLayout(o.value);
    }
  }

  lemma OutcomeLayout(a: AgreementState)
    ensures Encode(OutcomeVal(a))
         == OptBytes(OptLongPart(a.completedAt)) + OptBytes(OptLongPart(a.revokedAt)) + OptBytes(a.nftAsset)
            + a.collection
  {
    FourLayout(OptLong(a.completedAt), OptLong(a.revokedAt), OptKey(a.nftAsset), Raw(a.collection));
    OptLongLayout(a.completedAt);
    OptLongLayout(a.revokedAt);
  }

  lemma RevokingLayout(a: AgreementState)
    ensures Encode(RevokingVal(a))
         == a.vaultFunder + ListBytes(a.revokeVotes) + ListBytes(RetractParts(a.revokeRetractCounts)) + [a.bump]
  {
    FourLayout(Raw(a.vaultFunder), ListVal(KeyVals(a.revokeVotes)),
               ListVal(RetractVals(a.revokeRetractCounts)), Byte(a.bump));
    KeysLayout(a.revokeVotes);
    RetractsLayout(a.revokeRetractCounts);
  }

  /** The account behind its discriminator: the twenty fields in the order of their declaration. */
  lemma AgreementLayout(a: AgreementState)
    ensures Encode(AgreementVal(a)) ==
            (a.creator + a.agreementId + a.contentHash + TextBytes(a.title))
            + (TextBytes(a.storageUri) + [a.storageBackend.Discriminant()]
               + ListBytes(a.parties) + ListBytes(a.signedBy))
            + (ListBytes(LongParts(a.signedAt)) + [a.status.Discriminant()]
               + I64Bytes(a.createdAt) + I64Bytes(a.expiresAt))
            + (OptBytes(OptLongPart(a.completedAt)) + OptBytes(OptLongPart(a.revokedAt)) + OptBytes(a.nftAsset)
               + a.collection)
            + (a.vaultFunder + ListBytes(a.revokeVotes) + ListBytes(RetractParts(a.revokeRetractCounts)) + [a.bump])
  {
    IdentityLayout(a);
    StorageLayout(a);
    SigningLayout(a);
    OutcomeLayout(a);
    RevokingLayout(a);
    FiveLayout(IdentityVal(a), StorageVal(a), SigningVal(a), OutcomeVal(a), RevokingVal(a));
  }

  lemma FiveLayout(a: Val, b: Val, c: Val, d: Val, e: Val)
    ensures EncodeAll([a, b, c, d, e]) == Encode(a) + Encode(b) + Encode(c) + Encode(d) + Encode(e)
  {
    assert [a, b, c, d, e] == [a, b, c, d] + [e];
    EncodeAllAppend([a, b, c, d], [e]);
    FourLayout(a, b, c, d);
    OneEncoded(e);
  }

  lemma CreateLayout(c: CreateArgs)
    ensures Encode(CreateVal(c)) ==
            (c.agreementId + TextBytes(c.title) + c.contentHash + TextBytes(c.storageUri))
            + ([c.storageBackend.Discriminant()] + ListBytes(c.parties) + I64Bytes(c.expiresInSecs))
  {
    var v := CreateVal(c).vs;
    assert v == [v[0], v[1], v[2], v[3]] + [v[4], v[5], v[6]];
    EncodeAllAppend([v[0], v[1], v[2], v[3]], [v[4], v[5], v[6]]);
    FourLayout(v[0], v[1], v[2], v[3]);
    assert [v[4], v[5], v[6]] == [v[4], v[5]] + [v[6]];
    EncodeAllAppend([v[4], v[5]], [v[6]]);
    TwoLayout(v[4], v[5]);
    OneEncoded(v[6]);
    FourBytes(|c.title|);
    FourBytes(|c.storageUri|);
    KeysLayout(c.parties);
    LongLayout(c.expiresInSecs);
  }

  /** The data of each instruction: eight bytes for its kind, then its arguments in order. */
  lemma InstructionLayout(i: Instruction)
    requires EncodeInstruction(i).Some?
    ensures EncodeInstruction(i).value ==
            match i
            case CreateAgreement(c) =>
              [220, 156, 65, 172, 252, 68, 74, 233]
              + ((c.agreementId + TextBytes(c.title) + c.contentHash + TextBytes(c.storageUri))
                 + ([c.storageBackend.Discriminant()] + ListBytes(c.parties) + I64Bytes(c.expiresInSecs)))
            case SignAgreement(None) => [113, 163, 162, 101, 44, 101, 65, 204] + [0]
            case SignAgreement(Some(uri)) => [113, 163, 162, 101, 44, 101, 65, 204] + ([1] + TextBytes(uri))
            case CancelAgreement => [75, 89, 85, 4, 100, 216, 143, 37]
            case ExpireAgreement => [238, 66, 118, 206, 71, 195, 75, 132]
            case VoteRevoke => [37, 199, 69, 222, 97, 220, 96, 2]
            case RetractRevokeVote => [221, 206, 3, 95, 171, 167, 185, 239]
            case InitializeCollection(name, uri) =>
              [112, 62, 53, 139, 173, 152, 98, 93] + (TextBytes(name) + TextBytes(uri))
  {
    match i
    case CreateAgreement(c) => CreateLayout(c);
    case SignAgreement(m) =>
      OneEncoded(SignVal(m).vs[0]);
      if m.Some? {
        FourBytes(|m.value|);
      }
    case InitializeCollection(name, uri) =>
      TwoLayout(Text(name), Text(uri));
      FourBytes(|name|);
      FourBytes(|uri|);
    case _ =>
  }

  /** Only a length that does not fit its prefix is refused. */
  lemma InstructionEncodesIff(i: Instruction)
    ensures EncodeInstruction(i).Some? <==>
            match i
            case CreateAgreement(c) =>
              |c.title| <= 0xFFFF_FFFF && |c.storageUri| <= 0xFFFF_FFFF && |c.parties| <= 0xFFFF_FFFF
            case SignAgreement(Some(uri)) => |uri| <= 0xFFFF_FFFF
            case InitializeCollection(name, uri) => |name| <= 0xFFFF_FFFF && |uri| <= 0xFFFF_FFFF
            case _ => true
  {}
}
