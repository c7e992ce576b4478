/** The on-chain account and the instruction arguments as typed values over the Borsh schemas. */
module SolanaTypes {
  import opened Common
  import opened Borsh

  const MAX_PARTIES := 10
  const MAX_URI_LEN := 128
  const MAX_TITLE_LEN := 64
  const AGREEMENT_STATE_SIZE := 1813
  const DISCRIMINATOR_LEN := 8

  type Key = s: Bytes | |s| == 32 witness seq(32, _ => 0)
  type Id = s: Bytes | |s| == 16 witness seq(16, _ => 0)
  type Utf8 = s: Bytes | IsUtf8(s)

  datatype AgreementStatus = Draft | PendingSignatures | Completed | Cancelled | Expired | Revoked
  {
    function Discriminant(): byte {
      match this
      case Draft => 0
      case PendingSignatures => 1
      case Completed => 2
      case Cancelled => 3
      case Expired => 4
      case Revoked => 5
    }
  }

  function StatusOf(b: byte): (s: AgreementStatus)
    requires b < 6
    ensures s.Discriminant() == b
  {
    if b == 0 then Draft else if b == 1 then PendingSignatures else if b == 2 then Completed
    else if b == 3 then Cancelled else if b == 4 then Expired else Revoked
  }

  datatype StorageBackend = Ipfs | Arweave
  {
    function Discriminant(): byte {
      if Ipfs? then 0 else 1
    }
  }

  function BackendOf(b: byte): (s: StorageBackend)
    requires b < 2
    ensures s.Discriminant() == b
  {
    if b == 0 then Ipfs else Arweave
  }

  datatype RetractEntry = RetractEntry(pubkey: Key, count: byte)

  datatype AgreementState = AgreementState(
    creator: Key, agreementId: Id, contentHash: Key, title: Utf8,
    storageUri: Utf8, storageBackend: StorageBackend, parties: seq<Key>, signedBy: seq<Key>,
    signedAt: seq<i64>, status: AgreementStatus, createdAt: i64, expiresAt: i64,
    completedAt: Option<i64>, revokedAt: Option<i64>, nftAsset: Option<Key>, collection: Key,
    vaultFunder: Key, revokeVotes: seq<Key>, revokeRetractCounts: seq<RetractEntry>, bump: byte)

  datatype CreateArgs = CreateArgs(
    agreementId: Id, title: Utf8, contentHash: Key, storageUri: Utf8,
    storageBackend: StorageBackend, parties: seq<Key>, expiresInSecs: i64)

  const RETRACT_TY := Struct([Fixed(32), U8])

  /** The twenty fields in order, in groups of four: a struct inside a struct adds no bytes (GroupingAddsNothing). */
  const IDENTITY_TY := Struct([Fixed(32), Fixed(16), Fixed(32), Str])
  const STORAGE_TY := Struct([Str, Tag(2), Vec(Fixed(32)), Vec(Fixed(32))])
  const SIGNING_TY := Struct([Vec(I64), Tag(6), I64, I64])
  const OUTCOME_TY := Struct([Opt(I64), Opt(I64), Opt(Fixed(32)), Fixed(32)])
  const REVOKING_TY := Struct([Fixed(32), Vec(Fixed(32)), Vec(RETRACT_TY), U8])
  const AGREEMENT_TY := Struct([IDENTITY_TY, STORAGE_TY, SIGNING_TY, OUTCOME_TY, REVOKING_TY])

  const CREATE_TY := Struct([Fixed(16), Str, Fixed(32), Str, Tag(2), Vec(Fixed(32)), I64])

  const SIGN_TY := Struct([Opt(Str)])

  const COLLECTION_TY := Struct([Str, Str])

  // ---------------------------------------------------------------- typed values as schema values

  function KeyVals(ks: seq<Key>): (vs: seq<Val>)
    ensures |vs| == |ks|
  {
    seq(|ks|, i requires 0 <= i < |ks| => Raw(ks[i]))
  }

  function LongVals(xs: seq<i64>): (vs: seq<Val>)
    ensures |vs| == |xs|
  {
    seq(|xs|, i requires 0 <= i < |xs| => Long(xs[i]))
  }

  function RetractVals(es: seq<RetractEntry>): (vs: seq<Val>)
    ensures |vs| == |es|
  {
    seq(|es|, i requires 0 <= i < |es| => StructVal([Raw(es[i].pubkey), Byte(es[i].count)]))
  }

  function OptLong(o: Option<i64>): Val {
    match o case None => NoneVal case Some(x) => SomeVal(Long(x))
  }

  function OptKey(o: Option<Key>): Val {
    match o case None => NoneVal case Some(k) => SomeVal(Raw(k))
  }

  function IdentityVal(a: AgreementState): Val {
    StructVal([Raw(a.creator), Raw(a.agreementId), Raw(a.contentHash), Text(a.title)])
  }

  function StorageVal(a: AgreementState): Val {
    StructVal([Text(a.storageUri), Byte(a.storageBackend.Discriminant()),
               ListVal(KeyVals(a.parties)), ListVal(KeyVals(a.signedBy))])
  }

  function SigningVal(a: AgreementState): Val {
    StructVal([ListVal(LongVals(a.signedAt)), Byte(a.status.Discriminant()), Long(a.createdAt), Long(a.expiresAt)])
  }

  function OutcomeVal(a: AgreementState): Val {
    StructVal([OptLong(a.completedAt), OptLong(a.revokedAt), OptKey(a.nftAsset), Raw(a.collection)])
  }

  function RevokingVal(a: AgreementState): Val {
    StructVal([Raw(a.vaultFunder), ListVal(KeyVals(a.revokeVotes)),
               ListVal(RetractVals(a.revokeRetractCounts)), Byte(a.bump)])
  }

  function AgreementVal(a: AgreementState): Val {
    StructVal([IdentityVal(a), StorageVal(a), SigningVal(a), OutcomeVal(a), RevokingVal(a)])
  }

  function CreateVal(c: CreateArgs): Val {
    StructVal([Raw(c.agreementId), Text(c.title), Raw(c.contentHash), Text(c.storageUri),
               Byte(c.storageBackend.Discriminant()), ListVal(KeyVals(c.parties)), Long(c.expiresInSecs)])
  }

  function SignVal(metadataUri: Option<Utf8>): Val {
    StructVal([match metadataUri case None => NoneVal case Some(u) => SomeVal(Text(u))])
  }

  function CollectionVal(name: Utf8, uri: Utf8): Val {
    StructVal([Text(name), Text(uri)])
  }

  /** Serialization refuses a length that does not fit its u32 prefix. */
  predicate AgreementEncodable(a: AgreementState) {
    && |a.title| < TWO_32 && |a.storageUri| < TWO_32
    && |a.parties| < TWO_32 && |a.signedBy| < TWO_32 && |a.signedAt| < TWO_32
    && |a.revokeVotes| < TWO_32 && |a.revokeRetractCounts| < TWO_32
  }

  predicate CreateEncodable(c: CreateArgs) {
    |c.title| < TWO_32 && |c.storageUri| < TWO_32 && |c.parties| < TWO_32
  }

  predicate SignEncodable(metadataUri: Option<Utf8>) {
    metadataUri.Some? ==> |metadataUri.value| < TWO_32
  }

  predicate CollectionEncodable(name: Utf8, uri: Utf8) {
    |name| < TWO_32 && |uri| < TWO_32
  }

  lemma FourTyped(v: Val, t0: Ty, t1: Ty, t2: Ty, t3: Ty)
    ensures HasType(v, Struct([t0, t1, t2, t3])) <==>
              && v.StructVal? && |v.vs| == 4
              && HasType(v.vs[0], t0) && HasType(v.vs[1], t1) && HasType(v.vs[2], t2) && HasType(v.vs[3], t3)
  {
    var tys := [t0, t1, t2, t3];
    assert tys[0] == t0 && tys[1] == t1 && tys[2] == t2 && tys[3] == t3;
  }

  lemma GroupsTyped(v: Val)
    ensures HasType(v, AGREEMENT_TY) <==>
              && v.StructVal? && |v.vs| == 5
              && HasType(v.vs[0], IDENTITY_TY) && HasType(v.vs[1], STORAGE_TY) && HasType(v.vs[2], SIGNING_TY)
              && HasType(v.vs[3], OUTCOME_TY) && HasType(v.vs[4], REVOKING_TY)
  {
    var tys := AGREEMENT_TY.fields;
    assert tys[0] == IDENTITY_TY && tys[1] == STORAGE_TY && tys[2] == SIGNING_TY;
    assert tys[3] == OUTCOME_TY && tys[4] == REVOKING_TY;
  }

  lemma RetractsTyped(es: seq<RetractEntry>)
    ensures forall i :: 0 <= i < |es| ==> HasType(RetractVals(es)[i], RETRACT_TY)
  {}

  lemma StorageTyped(a: AgreementState)
    ensures HasType(IdentityVal(a), IDENTITY_TY) <==> |a.title| < TWO_32
    ensures HasType(StorageVal(a), STORAGE_TY) <==>
            |a.storageUri| < TWO_32 && |a.parties| < TWO_32 && |a.signedBy| < TWO_32
  {
    FourTyped(IdentityVal(a), Fixed(32), Fixed(16), Fixed(32), Str);
    FourTyped(StorageVal(a), Str, Tag(2), Vec(Fixed(32)), Vec(Fixed(32)));
  }

  lemma SigningTyped(a: AgreementState)
    ensures HasType(SigningVal(a), SIGNING_TY) <==> |a.signedAt| < TWO_32
  {
    FourTyped(SigningVal(a), Vec(I64), Tag(6), I64, I64);
  }

  lemma OutcomeTyped(a: AgreementState)
    ensures HasType(OutcomeVal(a), OUTCOME_TY)
  {
    FourTyped(OutcomeVal(a), Opt(I64), Opt(I64), Opt(Fixed(32)), Fixed(32));
  }

  lemma RevokingTyped(a: AgreementState)
    ensures HasType(RevokingVal(a), REVOKING_TY) <==> |a.revokeVotes| < TWO_32 && |a.revokeRetractCounts| < TWO_32
  {
    FourTyped(RevokingVal(a), Fixed(32), Vec(Fixed(32)), Vec(RETRACT_TY), U8);
    RetractsTyped(a.revokeRetractCounts);
  }

  lemma AgreementTyped(a: AgreementState)
    ensures HasType(AgreementVal(a), AGREEMENT_TY) <==> AgreementEncodable(a)
  {
    GroupsTyped(AgreementVal(a));
    StorageTyped(a);
    SigningTyped(a);
    OutcomeTyped(a);
    RevokingTyped(a);
  }

  lemma CreateTyped(c: CreateArgs)
    ensures HasType(CreateVal(c), CREATE_TY) <==> CreateEncodable(c)
  {
    var v := CreateVal(c).vs;
    var tys := CREATE_TY.fields;
    assert HasType(v[1], tys[1]) <==> |c.title| < TWO_32;
    assert HasType(v[3], tys[3]) <==> |c.storageUri| < TWO_32;
    assert HasType(v[5], tys[5]) <==> |c.parties| < TWO_32;
  }

  // ---------------------------------------------------------------- schema values as typed values

  function KeyOf(v: Val): (k: Key)
    requires HasType(v, Fixed(32))
    ensures Raw(k) == v
  {
    v.bytes
  }

  function LongOf(v: Val): (x: i64)
    requires HasType(v, I64)
    ensures Long(x) == v
  {
    v.i
  }

  function KeysOf(v: Val): (ks: seq<Key>)
    requires HasType(v, Vec(Fixed(32)))
    ensures ListVal(KeyVals(ks)) == v
  {
    var ks: seq<Key> := seq(|v.vs|, i requires 0 <= i < |v.vs| => assert HasType(v.vs[i], Fixed(32)); KeyOf(v.vs[i]));
    assert forall i :: 0 <= i < |v.vs| ==> HasType(v.vs[i], Fixed(32)) && KeyVals(ks)[i] == v.vs[i];
    assert KeyVals(ks) == v.vs;
    ks
  }

  function LongsOf(v: Val): (xs: seq<i64>)
    requires HasType(v, Vec(I64))
    ensures ListVal(LongVals(xs)) == v
  {
    var xs: seq<i64> := seq(|v.vs|, i requires 0 <= i < |v.vs| => assert HasType(v.vs[i], I64); LongOf(v.vs[i]));
    assert forall i :: 0 <= i < |v.vs| ==> HasType(v.vs[i], I64) && LongVals(xs)[i] == v.vs[i];
    assert LongVals(xs) == v.vs;
    xs
  }

  function RetractOf(v: Val): (e: RetractEntry)
    requires HasType(v, RETRACT_TY)
    ensures StructVal([Raw(e.pubkey), Byte(e.count)]) == v
  {
    assert HasType(v.vs[0], RETRACT_TY.fields[0]) && HasType(v.vs[1], RETRACT_TY.fields[1]);
    RetractEntry(v.vs[0].bytes, v.vs[1].b)
  }

  function RetractsOf(v: Val): (es: seq<RetractEntry>)
    requires HasType(v, Vec(RETRACT_TY))
    ensures ListVal(RetractVals(es)) == v
  {
    var es := seq(|v.vs|, i requires 0 <= i < |v.vs| => assert HasType(v.vs[i], RETRACT_TY); RetractOf(v.vs[i]));
    assert forall i :: 0 <= i < |v.vs| ==> HasType(v.vs[i], RETRACT_TY) && RetractVals(es)[i] == v.vs[i];
    assert RetractVals(es) == v.vs;
    es
  }

  function OptLongOf(v: Val): (o: Option<i64>)
    requires HasType(v, Opt(I64))
    ensures OptLong(o) == v
  {
    if v.NoneVal? then None else assert HasType(v.v, I64); Some(v.v.i)
  }

  function OptKeyOf(v: Val): (o: Option<Key>)
    requires HasType(v, Opt(Fixed(32)))
    ensures OptKey(o) == v
  {
    if v.NoneVal? then None else assert HasType(v.v, Fixed(32)); Some(v.v.bytes)
  }

  function OptTextOf(v: Val): (o: Option<Utf8>)
    requires HasType(v, Opt(Str))
    ensures SignVal(o) == StructVal([v])
  {
    if v.NoneVal? then None else assert HasType(v.v, Str); Some(v.v.bytes)
  }

  lemma FieldTypes(v: Val, tys: seq<Ty>)
    requires HasType(v, Struct(tys))
    ensures v.StructVal? && |v.vs| == |tys| && forall i :: 0 <= i < |tys| ==> HasType(v.vs[i], tys[i])
  {}

  lemma FieldsTyped(v: Val, t0: Ty, t1: Ty, t2: Ty, t3: Ty)
    requires HasType(v, Struct([t0, t1, t2, t3]))
    ensures v.StructVal? && |v.vs| == 4
    ensures HasType(v.vs[0], t0) && HasType(v.vs[1], t1) && HasType(v.vs[2], t2) && HasType(v.vs[3], t3)
  {
    FourTyped(v, t0, t1, t2, t3);
  }

  function IdentityOf(v: Val): (r: (Key, Id, Key, Utf8))
    requires HasType(v, IDENTITY_TY)
    ensures StructVal([Raw(r.0), Raw(r.1), Raw(r.2), Text(r.3)]) == v
  {
    FieldsTyped(v, Fixed(32), Fixed(16), Fixed(32), Str);
    var f := v.vs;
    assert f == [f[0], f[1], f[2], f[3]];
    (f[0].bytes, f[1].bytes, f[2].bytes, f[3].bytes)
  }

  function StorageOf(v: Val): (r: (Utf8, StorageBackend, seq<Key>, seq<Key>))
    requires HasType(v, STORAGE_TY)
    ensures StructVal([Text(r.0), Byte(r.1.Discriminant()), ListVal(KeyVals(r.2)), ListVal(KeyVals(r.3))]) == v
  {
    FieldsTyped(v, Str, Tag(2), Vec(Fixed(32)), Vec(Fixed(32)));
    var f := v.vs;
    assert f == [f[0], f[1], f[2], f[3]];
    (f[0].bytes, BackendOf(f[1].b), KeysOf(f[2]), KeysOf(f[3]))
  }

  function SigningOf(v: Val): (r: (seq<i64>, AgreementStatus, i64, i64))
    requires HasType(v, SIGNING_TY)
    ensures StructVal([ListVal(LongVals(r.0)), Byte(r.1.Discriminant()), Long(r.2), Long(r.3)]) == v
  {
    FieldsTyped(v, Vec(I64), Tag(6), I64, I64);
    var f := v.vs;
    assert f == [f[0], f[1], f[2], f[3]];
    (LongsOf(f[0]), StatusOf(f[1].b), LongOf(f[2]), LongOf(f[3]))
  }

  function OutcomeOf(v: Val): (r: (Option<i64>, Option<i64>, Option<Key>, Key))
    requires HasType(v, OUTCOME_TY)
    ensures StructVal([OptLong(r.0), OptLong(r.1), OptKey(r.2), Raw(r.3)]) == v
  {
    FieldsTyped(v, Opt(I64), Opt(I64), Opt(Fixed(32)), Fixed(32));
    var f := v.vs;
    assert f == [f[0], f[1], f[2], f[3]];
    (OptLongOf(f[0]), OptLongOf(f[1]), OptKeyOf(f[2]), KeyOf(f[3]))
  }

  function RevokingOf(v: Val): (r: (Key, seq<Key>, seq<RetractEntry>, byte))
    requires HasType(v, REVOKING_TY)
    ensures StructVal([Raw(r.0), ListVal(KeyVals(r.1)), ListVal(RetractVals(r.2)), Byte(r.3)]) == v
  {
    FieldsTyped(v, Fixed(32), Vec(Fixed(32)), Vec(RETRACT_TY), U8);
    var f := v.vs;
    assert f == [f[0], f[1], f[2], f[3]];
    (KeyOf(f[0]), KeysOf(f[1]), RetractsOf(f[2]), f[3].b)
  }

  lemma FiveGroups(a: AgreementState, v: Val)
    requires v.StructVal? && |v.vs| == 5
    requires v.vs[0] == IdentityVal(a) && v.vs[1] == StorageVal(a) && v.vs[2] == SigningVal(a)
    requires v.vs[3] == OutcomeVal(a) && v.vs[4] == RevokingVal(a)
    ensures AgreementVal(a) == v
  {
    assert v.vs == [v.vs[0], v.vs[1], v.vs[2], v.vs[3], v.vs[4]];
  }

  function AgreementOf(v: Val): (a: AgreementState)
    requires HasType(v, AGREEMENT_TY)
    ensures AgreementVal(a) == v
  {
    GroupsTyped(v);
    var p, q, r := IdentityOf(v.vs[0]), StorageOf(v.vs[1]), SigningOf(v.vs[2]);
    var s, t := OutcomeOf(v.vs[3]), RevokingOf(v.vs[4]);
    var a := AgreementState(p.0, p.1, p.2, p.3, q.0, q.1, q.2, q.3, r.0, r.1, r.2, r.3,
                            s.0, s.1, s.2, s.3, t.0, t.1, t.2, t.3);
    FiveGroups(a, v);
    a
  }

  function CreateOf(v: Val): (c: CreateArgs)
    requires HasType(v, CREATE_TY)
    ensures CreateVal(c) == v
  {
    FieldTypes(v, CREATE_TY.fields);
    var f := v.vs;
    var t := CREATE_TY.fields;
    assert HasType(f[0], t[0]) && HasType(f[1], t[1]) && HasType(f[2], t[2]) && HasType(f[3], t[3]);
    assert HasType(f[4], t[4]) && HasType(f[5], t[5]) && HasType(f[6], t[6]);
    CreateArgs(f[0].bytes, f[1].bytes, f[2].bytes, f[3].bytes, BackendOf(f[4].b), KeysOf(f[5]), f[6].i)
  }

  lemma KeyValsInjective(a: seq<Key>, b: seq<Key>)
    requires KeyVals(a) == KeyVals(b)
    ensures a == b
  {
    assert |a| == |b|;
    forall i | 0 <= i < |a| ensures a[i] == b[i] {
      assert KeyVals(a)[i] == KeyVals(b)[i];
    }
  }

  lemma LongsInjective(a: seq<i64>, b: seq<i64>)
    requires LongVals(a) == LongVals(b)
    ensures a == b
  {
    assert |a| == |b|;
    forall i | 0 <= i < |a| ensures a[i] == b[i] {
      assert LongVals(a)[i] == LongVals(b)[i];
    }
  }

  lemma RetractsInjective(a: seq<RetractEntry>, b: seq<RetractEntry>)
    requires RetractVals(a) == RetractVals(b)
    ensures a == b
  {
    assert |a| == |b|;
    forall i | 0 <= i < |a| ensures a[i] == b[i] {
      var x, y := RetractVals(a)[i], RetractVals(b)[i];
      assert x == y && x.vs[0] == y.vs[0] && x.vs[1] == y.vs[1];
    }
  }

  lemma FourEqual(v: Val, w: Val)
    requires v.StructVal? && w.StructVal? && |v.vs| == 4 && v == w
    ensures v.vs[0] == w.vs[0] && v.vs[1] == w.vs[1] && v.vs[2] == w.vs[2] && v.vs[3] == w.vs[3]
  {}

  lemma IdentityInjective(a: AgreementState, b: AgreementState)
    requires IdentityVal(a) == IdentityVal(b)
    ensures a.creator == b.creator && a.agreementId == b.agreementId
    ensures a.contentHash == b.contentHash && a.title == b.title
  {
    FourEqual(IdentityVal(a), IdentityVal(b));
  }

  lemma StorageInjective(a: AgreementState, b: AgreementState)
    requires StorageVal(a) == StorageVal(b)
    ensures a.storageUri == b.storageUri && a.storageBackend == b.storageBackend
    ensures a.parties == b.parties && a.signedBy == b.signedBy
  {
    FourEqual(StorageVal(a), StorageVal(b));
    KeyValsInjective(a.parties, b.parties);
    KeyValsInjective(a.signedBy, b.signedBy);
  }

  lemma SigningInjective(a: AgreementState, b: AgreementState)
    requires SigningVal(a) == SigningVal(b)
    ensures a.signedAt == b.signedAt && a.status == b.status && a.createdAt == b.createdAt && a.expiresAt == b.expiresAt
  {
    FourEqual(SigningVal(a), SigningVal(b));
    LongsInjective(a.signedAt, b.signedAt);
  }

  lemma OutcomeInjective(a: AgreementState, b: AgreementState)
    requires OutcomeVal(a) == OutcomeVal(b)
    ensures a.completedAt == b.completedAt && a.revokedAt == b.revokedAt
    ensures a.nftAsset == b.nftAsset && a.collection == b.collection
  {
    FourEqual(OutcomeVal(a), OutcomeVal(b));
  }

  lemma RevokingInjective(a: AgreementState, b: AgreementState)
    requires RevokingVal(a) == RevokingVal(b)
    ensures a.vaultFunder == b.vaultFunder && a.revokeVotes == b.revokeVotes
    ensures a.revokeRetractCounts == b.revokeRetractCounts && a.bump == b.bump
  {
    FourEqual(RevokingVal(a), RevokingVal(b));
    KeyValsInjective(a.revokeVotes, b.revokeVotes);
    RetractsInjective(a.revokeRetractCounts, b.revokeRetractCounts);
  }

  lemma AgreementValInjective(a: AgreementState, b: AgreementState)
    requires AgreementVal(a) == AgreementVal(b)
    ensures a == b
  {
    var v, w := AgreementVal(a).vs, AgreementVal(b).vs;
    assert v[0] == w[0] && v[1] == w[1] && v[2] == w[2] && v[3] == w[3] && v[4] == w[4];
    IdentityInjective(a, b);
    StorageInjective(a, b);
    SigningInjective(a, b);
    OutcomeInjective(a, b);
    RevokingInjective(a, b);
  }

  lemma CreateValInjective(a: CreateArgs, b: CreateArgs)
    requires CreateVal(a) == CreateVal(b)
    ensures a == b
  {
    var v, w := CreateVal(a).vs, CreateVal(b).vs;
    assert v[0] == w[0] && v[1] == w[1] && v[2] == w[2] && v[3] == w[3] && v[4] == w[4] && v[5] == w[5] && v[6] == w[6];
    KeyValsInjective(a.parties, b.parties);
  }

  // ---------------------------------------------------------------- the account

  function EncodeAgreement(a: AgreementState): Option<Bytes> {
    if AgreementEncodable(a) then Some(Encode(AgreementVal(a))) else None
  }

  /** The agreement a byte string starts with, and the bytes after it. */
  function DecodeAgreement(s: Bytes): Option<(AgreementState, Bytes)> {
    match Decode(AGREEMENT_TY, s)
    case None => None
    case Some((v, rest)) =>
      Canonical(AGREEMENT_TY, s);
      Some((AgreementOf(v), rest))
  }

  /** Decoding gives back exactly what was encoded and what followed it, and nothing but an encoding decodes. */
  lemma AgreementRoundTrip(a: AgreementState, s: Bytes, rest: Bytes)
    ensures DecodeAgreement(s) == Some((a, rest))
            <==> EncodeAgreement(a).Some? && s == EncodeAgreement(a).value + rest
  {
    AgreementTyped(a);
    if EncodeAgreement(a).Some? && s == EncodeAgreement(a).value + rest {
      RoundTrip(AGREEMENT_TY, AgreementVal(a), rest);
      AgreementValInjective(a, AgreementOf(AgreementVal(a)));
    }
    if DecodeAgreement(s) == Some((a, rest)) {
      Canonical(AGREEMENT_TY, s);
    }
  }

  /** The handlers skip the discriminator and ask for the whole remainder. */
  function ParseAccount(data: Bytes): Option<AgreementState> {
    if |data| < DISCRIMINATOR_LEN then None
    else
      match DecodeAgreement(data[DISCRIMINATOR_LEN..])
      case None => None
      case Some((a, rest)) => if rest == [] then Some(a) else None
  }

  predicate WithinLimits(a: AgreementState) {
    && |a.title| <= MAX_TITLE_LEN && |a.storageUri| <= MAX_URI_LEN
    && |a.parties| <= MAX_PARTIES && |a.signedBy| <= MAX_PARTIES && |a.signedAt| <= MAX_PARTIES
    && |a.revokeVotes| <= MAX_PARTIES && |a.revokeRetractCounts| <= MAX_PARTIES
  }

  // ---------------------------------------------------------------- sizes

  lemma {:induction false} EncodeAllAppend(xs: seq<Val>, ys: seq<Val>)
    ensures EncodeAll(xs + ys) == EncodeAll(xs) + EncodeAll(ys)
  {
    if xs == [] {
      assert xs + ys == ys;
    } else {
      assert (xs + ys)[1..] == xs[1..] + ys;
      EncodeAllAppend(xs[1..], ys);
    }
  }

  lemma OneEncoded(a: Val)
    ensures EncodeAll([a]) == Encode(a)
  {
    assert EncodeAll([a][1..]) == [];
  }

  /** A struct of structs has the encoding of the struct of all their fields. */
  lemma {:induction false} GroupingAddsNothing(groups: seq<seq<Val>>)
    ensures EncodeAll(seq(|groups|, i requires 0 <= i < |groups| => StructVal(groups[i]))) == EncodeAll(Flatten(groups))
  {
    var vs := seq(|groups|, i requires 0 <= i < |groups| => StructVal(groups[i]));
    if groups != [] {
      var rest := seq(|groups[1..]|, i requires 0 <= i < |groups[1..]| => StructVal(groups[1..][i]));
      assert vs[1..] == rest;
      GroupingAddsNothing(groups[1..]);
      EncodeAllAppend(groups[0], Flatten(groups[1..]));
    }
  }

  function Flatten<T>(groups: seq<seq<T>>): seq<T> {
    if groups == [] then [] else groups[0] + Flatten(groups[1..])
  }

  lemma PairLength(a: Val, b: Val)
    ensures |EncodeAll([a, b])| == |Encode(a)| + |Encode(b)|
  {
    assert [a, b] == [a] + [b];
    EncodeAllAppend([a], [b]);
    OneEncoded(a);
    OneEncoded(b);
  }

  lemma FourLength(a: Val, b: Val, c: Val, d: Val)
    ensures |EncodeAll([a, b, c, d])| == |Encode(a)| + |Encode(b)| + |Encode(c)| + |Encode(d)|
  {
    assert [a, b, c, d] == [a, b] + [c, d];
    EncodeAllAppend([a, b], [c, d]);
    PairLength(a, b);
    PairLength(c, d);
  }

  /** Elements of one size. */
  lemma {:induction false} UniformLength(vs: seq<Val>, n: nat)
    requires forall i :: 0 <= i < |vs| ==> |Encode(vs[i])| == n
    ensures |EncodeAll(vs)| == |vs| * n
  {
    if vs != [] {
      UniformLength(vs[1..], n);
      OneMore(|vs| - 1, n);
    }
  }

  lemma OneMore(k: nat, n: nat)
    ensures (k + 1) * n == n + k * n
  {}

  lemma ListLengths(ks: seq<Key>, xs: seq<i64>, es: seq<RetractEntry>)
    ensures |Encode(ListVal(KeyVals(ks)))| == 4 + 32 * |ks|
    ensures |Encode(ListVal(LongVals(xs)))| == 4 + 8 * |xs|
    ensures |Encode(ListVal(RetractVals(es)))| == 4 + 33 * |es|
  {
    UniformLength(KeyVals(ks), 32);
    UniformLength(LongVals(xs), 8);
    forall i | 0 <= i < |es| ensures |Encode(RetractVals(es)[i])| == 33 {
      PairLength(Raw(es[i].pubkey), Byte(es[i].count));
    }
    UniformLength(RetractVals(es), 33);
  }

  function OptSize<T>(o: Option<T>, n: nat): nat {
    if o.Some? then n else 0
  }

  /** The length of an encoded agreement, field by field. */
  lemma AgreementLength(a: AgreementState)
    ensures |Encode(AgreementVal(a))|
         == 194 + |a.title| + |a.storageUri| + 32 * |a.parties| + 32 * |a.signedBy| + 8 * |a.signedAt|
          + OptSize(a.completedAt, 8) + OptSize(a.revokedAt, 8) + OptSize(a.nftAsset, 32)
          + 32 * |a.revokeVotes| + 33 * |a.revokeRetractCounts|
  {
    IdentityLength(a);
    StorageLength(a);
    SigningLength(a);
    OutcomeLength(a);
    RevokingLength(a);
    var f := AgreementVal(a).vs;
    assert f == [f[0], f[1], f[2], f[3]] + [f[4]];
    EncodeAllAppend([f[0], f[1], f[2], f[3]], [f[4]]);
    FourLength(f[0], f[1], f[2], f[3]);
    OneEncoded(f[4]);
  }

  lemma IdentityLength(a: AgreementState)
    ensures |Encode(IdentityVal(a))| == 84 + |a.title|
  {
    FourLength(Raw(a.creator), Raw(a.agreementId), Raw(a.contentHash), Text(a.title));
  }

  lemma StorageLength(a: AgreementState)
    ensures |Encode(StorageVal(a))| == 13 + |a.storageUri| + 32 * |a.parties| + 32 * |a.signedBy|
  {
    ListLengths(a.parties, [], []);
    ListLengths(a.signedBy, [], []);
    FourLength(Text(a.storageUri), Byte(a.storageBackend.Discriminant()),
               ListVal(KeyVals(a.parties)), ListVal(KeyVals(a.signedBy)));
  }

  lemma SigningLength(a: AgreementState)
    ensures |Encode(SigningVal(a))| == 21 + 8 * |a.signedAt|
  {
    ListLengths([], a.signedAt, []);
    FourLength(ListVal(LongVals(a.signedAt)), Byte(a.status.Discriminant()), Long(a.createdAt), Long(a.expiresAt));
  }

  lemma OutcomeLength(a: AgreementState)
    ensures |Encode(OutcomeVal(a))|
         == 35 + OptSize(a.completedAt, 8) + OptSize(a.revokedAt, 8) + OptSize(a.nftAsset, 32)
  {
    FourLength(OptLong(a.completedAt), OptLong(a.revokedAt), OptKey(a.nftAsset), Raw(a.collection));
  }

  lemma RevokingLength(a: AgreementState)
    ensures |Encode(RevokingVal(a))| == 41 + 32 * |a.revokeVotes| + 33 * |a.revokeRetractCounts|
  {
    ListLengths(a.revokeVotes, [], a.revokeRetractCounts);
    FourLength(Raw(a.vaultFunder), ListVal(KeyVals(a.revokeVotes)),
               ListVal(RetractVals(a.revokeRetractCounts)), Byte(a.bump));
  }

  /** Every agreement within the program's limits fits its account with one byte to spare. */
  lemma AccountSizeBound(a: AgreementState)
    requires WithinLimits(a)
    ensures AgreementEncodable(a)
    ensures DISCRIMINATOR_LEN + |Encode(AgreementVal(a))| <= 1812 && AGREEMENT_STATE_SIZE == 1813
  {
    AgreementLength(a);
  }

  /** The bound is reached. */
  lemma AccountSizeSharp() returns (a: AgreementState)
    ensures WithinLimits(a) && DISCRIMINATOR_LEN + |Encode(AgreementVal(a))| == 1812
  {
    var key: Key, id: Id := seq(32, _ => 0), seq(16, _ => 0);
    AsciiIsUtf8(64);
    AsciiIsUtf8(128);
    var title: Utf8, uri: Utf8 := seq(64, _ => 65), seq(128, _ => 65);
    var keys: seq<Key> := seq(10, _ => key);
    var times: seq<i64> := seq(10, _ => 0);
    var entries := seq(10, _ => RetractEntry(key, 0));
    a := AgreementState(key, id, key, title, uri, Ipfs, keys, keys, times, Completed, 0, 0, Some(0), Some(0), Some(key),
                        key, key, keys, entries, 0);
    AgreementLength(a);
  }

  lemma {:induction false} AsciiIsUtf8(n: nat)
    ensures IsUtf8(seq(n, _ => 65))
  {
    if n > 0 {
      var s: Bytes := seq(n, _ => 65);
      AsciiIsUtf8(n - 1);
      assert s[1..] == seq(n - 1, _ => 65);
    }
  }

  /** An account that holds an agreement parses exactly when nothing follows the encoding, because the handlers
      require the decoder to consume every byte. */
  lemma ParseAccountIff(disc: Bytes, a: AgreementState, padding: Bytes)
    requires |disc| == DISCRIMINATOR_LEN && AgreementEncodable(a)
    ensures ParseAccount(disc + EncodeAgreement(a).value + padding) == Some(a) <==> padding == []
    ensures ParseAccount(disc + EncodeAgreement(a).value + padding) == None <==> padding != []
  {
    var data := disc + EncodeAgreement(a).value + padding;
    assert data[DISCRIMINATOR_LEN..] == EncodeAgreement(a).value + padding;
    AgreementRoundTrip(a, EncodeAgreement(a).value + padding, padding);
  }

  /** So no account of the allocated size parses to an agreement within the limits. */
  lemma AllocatedAccountNeverParses(data: Bytes)
    requires |data| == 1813
    ensures ParseAccount(data).None? || !WithinLimits(ParseAccount(data).value)
  {
    match ParseAccount(data)
    case None =>
    case Some(a) =>
      AgreementRoundTrip(a, data[DISCRIMINATOR_LEN..], []);
      if WithinLimits(a) {
        AccountSizeBound(a);
      }
  }

  // ---------------------------------------------------------------- the slice of the expiry worker

  /** The expiry worker takes bytes 32..48 of the account as the agreement's id. */
  function WorkerAgreementId(data: Bytes): (id: Option<Bytes>)
    ensures id.None? <==> |data| < 48
    ensures id.Some? ==> |id.value| == 16 && exists before, after :: |before| == 32 && data == before + id.value + after
  {
    assert |data| >= 48 ==> data == data[..32] + data[32..48] + data[48..];
    if |data| >= 48 then Some(data[32..48]) else None
  }

  /** Those bytes straddle the creator and the id, as the worker does not skip the discriminator; they are the
      id exactly when the creator's last eight bytes and both halves of the id coincide. */
  lemma WorkerAgreementIdIff(disc: Bytes, a: AgreementState, padding: Bytes)
    requires |disc| == DISCRIMINATOR_LEN && AgreementEncodable(a)
    ensures var data := disc + EncodeAgreement(a).value + padding;
            && WorkerAgreementId(data) == Some(a.creator[24..] + a.agreementId[..8])
            && (WorkerAgreementId(data) == Some(a.agreementId) <==>
                  a.creator[24..] == a.agreementId[..8] && a.agreementId[..8] == a.agreementId[8..])
  {
    var data := disc + EncodeAgreement(a).value + padding;
    var tail := AgreementStart(a);
    assert data == disc + a.creator + a.agreementId + (tail + padding);
    assert data[32..48] == a.creator[24..] + a.agreementId[..8];
    assert a.agreementId == a.agreementId[..8] + a.agreementId[8..];
    HalvesEqualIff(a.creator[24..], a.agreementId[..8], a.agreementId[8..]);
  }

  /** The encoding starts with the creator and the id. */
  lemma AgreementStart(a: AgreementState) returns (tail: Bytes)
    ensures Encode(AgreementVal(a)) == a.creator + (a.agreementId + tail)
  {
    var g, v := AgreementVal(a).vs, IdentityVal(a).vs;
    tail := EncodeAll(v[1..][1..]) + EncodeAll(g[1..]);
    assert EncodeAll(g) == EncodeAll(v) + EncodeAll(g[1..]);
    assert EncodeAll(v) == Encode(v[0]) + EncodeAll(v[1..]);
    assert EncodeAll(v[1..]) == Encode(v[1..][0]) + EncodeAll(v[1..][1..]);
  }

  lemma HalvesEqualIff(x: Bytes, y: Bytes, z: Bytes)
    requires |x| == |y| == |z|
    ensures x + y == y + z <==> x == y && y == z
  {
    assert (x + y)[..|x|] == x && (x + y)[|x|..] == y;
    assert (y + z)[..|y|] == y && (y + z)[|y|..] == z;
  }
}

/** Instruction data: an eight-byte discriminator and the Borsh encoding of the arguments. */
module Instructions {
  import opened Common
  import opened Borsh
  import opened SolanaTypes

  const CREATE_AGREEMENT: Bytes := [220, 156, 65, 172, 252, 68, 74, 233]
  const SIGN_AGREEMENT: Bytes := [113, 163, 162, 101, 44, 101, 65, 204]
  const CANCEL_AGREEMENT: Bytes := [75, 89, 85, 4, 100, 216, 143, 37]
  const EXPIRE_AGREEMENT: Bytes := [238, 66, 118, 206, 71, 195, 75, 132]
  const VOTE_REVOKE: Bytes := [37, 199, 69, 222, 97, 220, 96, 2]
  const RETRACT_REVOKE_VOTE: Bytes := [221, 206, 3, 95, 171, 167, 185, 239]
  const INITIALIZE_COLLECTION: Bytes := [112, 62, 53, 139, 173, 152, 98, 93]

  datatype Instruction =
    | CreateAgreement(args: CreateArgs)
    | SignAgreement(metadataUri: Option<Utf8>)
    | CancelAgreement
    | ExpireAgreement
    | VoteRevoke
    | RetractRevokeVote
    | InitializeCollection(name: Utf8, uri: Utf8)
  {
    function Discriminator(): (d: Bytes)
      ensures |d| == 8
    {
      match this
      case CreateAgreement(_) => CREATE_AGREEMENT
      case SignAgreement(_) => SIGN_AGREEMENT
      case CancelAgreement => CANCEL_AGREEMENT
      case ExpireAgreement => EXPIRE_AGREEMENT
      case VoteRevoke => VOTE_REVOKE
      case RetractRevokeVote => RETRACT_REVOKE_VOTE
      case InitializeCollection(_, _) => INITIALIZE_COLLECTION
    }

    /** Serialized arguments, or the error of a length that does not fit. */
    function Arguments(): Option<Bytes> {
      match this
      case CreateAgreement(c) => if CreateEncodable(c) then Some(Encode(CreateVal(c))) else None
      case SignAgreement(m) => if SignEncodable(m) then Some(Encode(SignVal(m))) else None
      case InitializeCollection(name, uri) =>
        if CollectionEncodable(name, uri) then Some(Encode(CollectionVal(name, uri))) else None
      case _ => Some([])
    }
  }

  method BuildAnchorInstruction(discriminator: Bytes, args: Bytes) returns (data: Bytes)
    requires |discriminator| == 8
    ensures |data| == 8 + |args| && data[..8] == discriminator && data[8..] == args
  {
    data := [];
    data := data + discriminator;
    data := data + args;
  }

  function EncodeInstruction(i: Instruction): Option<Bytes> {
    match i.Arguments()
    case None => None
    case Some(args) => Some(i.Discriminator() + args)
  }

  function DecodeNoArgs(i: Instruction, args: Bytes): Option<Instruction> {
    if args == [] then Some(i) else None
  }

  function DecodeInstruction(data: Bytes): Option<Instruction> {
    if |data| < 8 then None
    else
      var d, args := data[..8], data[8..];
      if d == CREATE_AGREEMENT then
        (match TryFromSlice(CREATE_TY, args)
         case None => None
         case Some(v) => TryFromSliceIff(CREATE_TY, args, v); Some(CreateAgreement(CreateOf(v))))
      else if d == SIGN_AGREEMENT then
        (match TryFromSlice(SIGN_TY, args)
         case None => None
         case Some(v) =>
           TryFromSliceIff(SIGN_TY, args, v);
           assert HasType(v.vs[0], SIGN_TY.fields[0]);
           Some(SignAgreement(OptTextOf(v.vs[0]))))
      else if d == CANCEL_AGREEMENT then DecodeNoArgs(CancelAgreement, args)
      else if d == EXPIRE_AGREEMENT then DecodeNoArgs(ExpireAgreement, args)
      else if d == VOTE_REVOKE then DecodeNoArgs(VoteRevoke, args)
      else if d == RETRACT_REVOKE_VOTE then DecodeNoArgs(RetractRevokeVote, args)
      else if d == INITIALIZE_COLLECTION then
        (match TryFromSlice(COLLECTION_TY, args)
         case None => None
         case Some(v) =>
           TryFromSliceIff(COLLECTION_TY, args, v);
           CollectionFields(v);
           Some(InitializeCollection(v.vs[0].bytes, v.vs[1].bytes)))
      else None
  }

  lemma DiscriminatorsDistinct()
    ensures NoDuplicates([CREATE_AGREEMENT, SIGN_AGREEMENT, CANCEL_AGREEMENT, EXPIRE_AGREEMENT, VOTE_REVOKE,
                          RETRACT_REVOKE_VOTE, INITIALIZE_COLLECTION])
  {
    assert CREATE_AGREEMENT[0] == 220 && SIGN_AGREEMENT[0] == 113 && CANCEL_AGREEMENT[0] == 75;
    assert EXPIRE_AGREEMENT[0] == 238 && VOTE_REVOKE[0] == 37 && RETRACT_REVOKE_VOTE[0] == 221;
    assert INITIALIZE_COLLECTION[0] == 112;
  }

  lemma Parts(d: Bytes, args: Bytes)
    requires |d| == 8
    ensures (d + args)[..8] == d && (d + args)[8..] == args
  {}

  lemma CreateEncodedDecodes(c: CreateArgs)
    requires CreateEncodable(c)
    ensures DecodeInstruction(CREATE_AGREEMENT + Encode(CreateVal(c))) == Some(CreateAgreement(c))
  {
    Parts(CREATE_AGREEMENT, Encode(CreateVal(c)));
    CreateTyped(c);
    TryFromSliceIff(CREATE_TY, Encode(CreateVal(c)), CreateVal(c));
    CreateValInjective(c, CreateOf(CreateVal(c)));
  }

  lemma CreateDecodes(c: CreateArgs, data: Bytes)
    ensures DecodeInstruction(data) == Some(CreateAgreement(c)) <==> EncodeInstruction(CreateAgreement(c)) == Some(data)
  {
    CreateTyped(c);
    if EncodeInstruction(CreateAgreement(c)) == Some(data) {
      CreateEncodedDecodes(c);
    }
    if DecodeInstruction(data) == Some(CreateAgreement(c)) {
      DiscriminatorsDistinct();
      TryFromSliceIff(CREATE_TY, data[8..], CreateVal(c));
      assert data == data[..8] + data[8..];
    }
  }

  lemma SignTyped(m: Option<Utf8>)
    ensures HasType(SignVal(m), SIGN_TY) <==> SignEncodable(m)
  {
    assert HasType(SignVal(m).vs[0], SIGN_TY.fields[0]) <==> SignEncodable(m);
  }

  lemma SignDecodes(m: Option<Utf8>, data: Bytes)
    ensures DecodeInstruction(data) == Some(SignAgreement(m)) <==> EncodeInstruction(SignAgreement(m)) == Some(data)
  {
    DiscriminatorsDistinct();
    SignTyped(m);
    if EncodeInstruction(SignAgreement(m)) == Some(data) {
      Parts(SIGN_AGREEMENT, Encode(SignVal(m)));
      TryFromSliceIff(SIGN_TY, data[8..], SignVal(m));
    }
    if DecodeInstruction(data) == Some(SignAgreement(m)) {
      var v := TryFromSlice(SIGN_TY, data[8..]).value;
      TryFromSliceIff(SIGN_TY, data[8..], v);
      assert v.vs == [v.vs[0]];
      assert data == data[..8] + data[8..];
    }
  }

  lemma CollectionFields(v: Val)
    ensures HasType(v, COLLECTION_TY) <==> v.StructVal? && |v.vs| == 2 && HasType(v.vs[0], Str) && HasType(v.vs[1], Str)
  {
    var tys := COLLECTION_TY.fields;
    assert tys[0] == Str && tys[1] == Str;
  }

  lemma CollectionEncodedDecodes(name: Utf8, uri: Utf8)
    requires CollectionEncodable(name, uri)
    ensures DecodeInstruction(INITIALIZE_COLLECTION + Encode(CollectionVal(name, uri)))
         == Some(InitializeCollection(name, uri))
  {
    var v := CollectionVal(name, uri);
    Parts(INITIALIZE_COLLECTION, Encode(v));
    DiscriminatorsDistinct();
    CollectionFields(v);
    TryFromSliceIff(COLLECTION_TY, Encode(v), v);
  }

  lemma CollectionDecodedEncodes(args: Bytes, v: Val)
    requires TryFromSlice(COLLECTION_TY, args) == Some(v)
    ensures HasType(v, COLLECTION_TY) && v.StructVal? && |v.vs| == 2 && HasType(v.vs[0], Str) && HasType(v.vs[1], Str)
    ensures EncodeInstruction(InitializeCollection(v.vs[0].bytes, v.vs[1].bytes)) == Some(INITIALIZE_COLLECTION + args)
  {
    TryFromSliceIff(COLLECTION_TY, args, v);
    CollectionFields(v);
    assert v.vs == [v.vs[0], v.vs[1]];
  }

  lemma CollectionDecodes(name: Utf8, uri: Utf8, data: Bytes)
    ensures DecodeInstruction(data) == Some(InitializeCollection(name, uri))
            <==> EncodeInstruction(InitializeCollection(name, uri)) == Some(data)
  {
    if EncodeInstruction(InitializeCollection(name, uri)) == Some(data) {
      CollectionEncodedDecodes(name, uri);
    }
    if DecodeInstruction(data) == Some(InitializeCollection(name, uri)) {
      CollectionDecodedEncodes(data[8..], TryFromSlice(COLLECTION_TY, data[8..]).value);
      assert data == data[..8] + data[8..];
    }
  }

  lemma PlainDecodes(i: Instruction, data: Bytes)
    requires !i.CreateAgreement? && !i.SignAgreement? && !i.InitializeCollection?
    ensures DecodeInstruction(data) == Some(i) <==> EncodeInstruction(i) == Some(data)
  {
    DiscriminatorsDistinct();
    if EncodeInstruction(i) == Some(data) {
      Parts(i.Discriminator(), []);
    }
    if DecodeInstruction(data) == Some(i) {
      assert data == data[..8] + data[8..];
    }
  }

  /** Instruction data decodes to an instruction exactly when it is that instruction's data, so the kind and all
      arguments are recovered and no two instructions share their data. */
  lemma InstructionIff(i: Instruction, data: Bytes)
    ensures DecodeInstruction(data) == Some(i) <==> EncodeInstruction(i) == Some(data)
  {
    match i
    case CreateAgreement(c) => CreateDecodes(c, data);
    case SignAgreement(m) => SignDecodes(m, data);
    case InitializeCollection(name, uri) => CollectionDecodes(name, uri, data);
    case _ => PlainDecodes(i, data);
  }
}
