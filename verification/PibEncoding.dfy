/** The TLV formats of the PIB: what each entity and parameter is encoded to, what the decoders
    accept, and that decoding undoes encoding. */
module PibEncoding {
  import opened Bytes
  import opened Names
  import opened Optional
  import opened Tlv

  // ------------------------------------------------------------------ type numbers

  const DATA := 6
  const GET_PARAM := 128
  const DEFAULT_PARAM := 129
  const LIST_PARAM := 130
  const UPDATE_PARAM := 131
  const DELETE_PARAM := 132
  const USER := 144
  const IDENTITY := 145
  const PUBLIC_KEY := 146
  const CERTIFICATE := 147
  const BYTES := 148
  const DEFAULT_OPT := 149
  const NAME_LIST := 150
  const TYPE := 151
  const ERROR := 152
  const TPM_LOCATOR := 153
  const ERROR_CODE := 252

  const TYPE_USER := 0
  const TYPE_ID := 1
  const TYPE_KEY := 2
  const TYPE_CERT := 3

  predicate Named(ty: nat) { ty == TYPE_ID || ty == TYPE_KEY || ty == TYPE_CERT }

  /** A Data packet; what is inside does not matter here. */
  datatype Cert = Cert(octets: Octets)

  function EncodeCert(c: Cert): Block { Block(DATA, c.octets) }

  function DecodeCert(b: Block): Option<Cert> { if b.ty == DATA then Some(Cert(b.value)) else None }

  function IntegerBlock(ty: nat, n: Number): Block { Block(ty, NonNegativeInteger(n)) }

  // ------------------------------------------------------------------ entities

  function EncodeIdentity(identity: Name): Block { Nested(IDENTITY, [EncodeName(identity)]) }

  function DecodeIdentity(b: Block): Option<Name> {
    if b.ty != IDENTITY then None
    else
      match OnlyBlock(b.value)
      case None => None
      case Some(inner) => DecodeName(inner)
  }

  function EncodePublicKey(keyName: Name, key: Octets): Block {
    Nested(PUBLIC_KEY, [EncodeName(keyName), Block(BYTES, key)])
  }

  /** Exactly a name and the key bits. */
  function DecodePublicKey(b: Block): Option<(Name, Octets)> {
    match Elements(b, PUBLIC_KEY)
    case None => None
    case Some(e) =>
      if |e| != 2 || e[0].ty != NAME || e[1].ty != BYTES then None
      else
        match DecodeName(e[0])
        case None => None
        case Some(keyName) => Some((keyName, e[1].value))
  }

  function EncodeCertificate(c: Cert): Block { Nested(CERTIFICATE, [EncodeCert(c)]) }

  function DecodeCertificate(b: Block): Option<Cert> {
    if b.ty != CERTIFICATE then None
    else
      match OnlyBlock(b.value)
      case None => None
      case Some(inner) => DecodeCert(inner)
  }

  function NameBlocks(names: seq<Name>): (r: seq<Block>)
    ensures |r| == |names| && forall i :: 0 <= i < |r| ==> r[i] == EncodeName(names[i])
  {
    seq(|names|, i requires 0 <= i < |names| => EncodeName(names[i]))
  }

  function EncodeNameList(names: seq<Name>): Block { Nested(NAME_LIST, NameBlocks(names)) }

  /** The names are added to those that the object already holds.  Elements that are not names
      are skipped; a malformed name is an error. */
  function DecodeNames(held: seq<Name>, e: seq<Block>): Option<seq<Name>>
    decreases |e|
  {
    if e == [] then Some(held)
    else if e[0].ty != NAME then DecodeNames(held, e[1..])
    else
      match DecodeName(e[0])
      case None => None
      case Some(n) => DecodeNames(held + [n], e[1..])
  }

  function DecodeNameList(held: seq<Name>, b: Block): Option<seq<Name>> {
    match Elements(b, NAME_LIST)
    case None => None
    case Some(e) => DecodeNames(held, e)
  }

  function EncodeError(code: Number, msg: Octets): Block {
    Nested(ERROR, [IntegerBlock(ERROR_CODE, code), Block(BYTES, msg)])
  }

  /** A code and a message first; anything may follow. */
  function DecodeError(b: Block): Option<(nat, Octets)> {
    match Elements(b, ERROR)
    case None => None
    case Some(e) =>
      if |e| < 2 || e[0].ty != ERROR_CODE || e[1].ty != BYTES then None
      else
        match ReadNonNegativeInteger(e[0].value)
        case None => None
        case Some(code) => Some((code, e[1].value))
  }

  function EncodeUser(cert: Cert, tpmLocator: Octets): Block {
    Nested(USER, [EncodeCert(cert)] + if tpmLocator == [] then [] else [Block(TPM_LOCATOR, tpmLocator)])
  }

  /** Without a TpmLocator element the object keeps the locator it had. */
  function DecodeUser(oldLocator: Octets, b: Block): Option<(Cert, Octets)> {
    match Elements(b, USER)
    case None => None
    case Some(e) =>
      if |e| < 1 || e[0].ty != DATA then None
      else
        match DecodeCert(e[0])
        case None => None
        case Some(cert) =>
          Some((cert, if |e| >= 2 && e[1].ty == TPM_LOCATOR then e[1].value else oldLocator))
  }

  // ------------------------------------------------------------------ round trips of entities

  lemma OneElement(ty: nat, inner: Block)
    requires Nested(ty, [inner]).Encodable() && inner.ty < MAX_NUMBER
    ensures inner.Encodable() && OnlyBlock(Nested(ty, [inner]).value) == Some(inner)
  {
    hide Wire, ReadBlock, Parse;
    ElementsAreEncodable([inner]);
    assert [inner][0].Encodable() && [inner][1..] == [];
    assert Wires([inner]) == Wire(inner) + [] == Wire(inner);
    OnlyBlockRoundTrip(inner);
  }

  lemma IdentityRoundTrip(identity: Name)
    requires EncodeIdentity(identity).Encodable()
    ensures DecodeIdentity(EncodeIdentity(identity)) == Some(identity)
  {
    OneElement(IDENTITY, EncodeName(identity));
    NameRoundTrip(identity);
  }

  lemma PublicKeyRoundTrip(keyName: Name, key: Octets)
    requires EncodePublicKey(keyName, key).Encodable()
    ensures DecodePublicKey(EncodePublicKey(keyName, key)) == Some((keyName, key))
  {
    var e := [EncodeName(keyName), Block(BYTES, key)];
    NestedRoundTrip(PUBLIC_KEY, e);
    assert e[0].Encodable();
    NameRoundTrip(keyName);
  }

  lemma CertificateRoundTrip(c: Cert)
    requires EncodeCertificate(c).Encodable()
    ensures DecodeCertificate(EncodeCertificate(c)) == Some(c)
  {
    OneElement(CERTIFICATE, EncodeCert(c));
  }

  lemma {:induction false} NamesRoundTrip(held: seq<Name>, names: seq<Name>)
    requires AllEncodable(NameBlocks(names))
    ensures DecodeNames(held, NameBlocks(names)) == Some(held + names)
    decreases |names|
  {
    if names == [] {
      assert held + names == held;
    } else {
      var e := NameBlocks(names);
      assert e[0].Encodable();
      NameRoundTrip(names[0]);
      assert e[1..] == NameBlocks(names[1..]);
      NamesRoundTrip(held + [names[0]], names[1..]);
      assert held + [names[0]] + names[1..] == held + names;
    }
  }

  /** The order of a name list survives, and decoding gives back just the encoded list exactly
      when the object held none before. */
  lemma NameListRoundTrip(held: seq<Name>, names: seq<Name>)
    requires EncodeNameList(names).Encodable()
    ensures DecodeNameList(held, EncodeNameList(names)) == Some(held + names)
    ensures DecodeNameList(held, EncodeNameList(names)) == Some(names) <==> held == []
  {
    NestedRoundTrip(NAME_LIST, NameBlocks(names));
    NamesRoundTrip(held, names);
    if held == [] {
      assert held + names == names;
    } else {
      assert |held + names| > |names|;
    }
  }

  lemma ErrorRoundTrip(code: Number, msg: Octets)
    requires EncodeError(code, msg).Encodable()
    ensures DecodeError(EncodeError(code, msg)) == Some((code, msg))
  {
    NestedRoundTrip(ERROR, [IntegerBlock(ERROR_CODE, code), Block(BYTES, msg)]);
    NonNegativeIntegerRoundTrip(code);
  }

  /** A user comes back exactly when it has a locator or the object held none before. */
  lemma UserRoundTrip(held: Octets, cert: Cert, tpmLocator: Octets)
    requires EncodeUser(cert, tpmLocator).Encodable()
    ensures DecodeUser(held, EncodeUser(cert, tpmLocator)) ==
            Some((cert, if tpmLocator == [] then held else tpmLocator))
    ensures DecodeUser(held, EncodeUser(cert, tpmLocator)) == Some((cert, tpmLocator)) <==>
            tpmLocator != [] || held == []
  {
    NestedRoundTrip(USER, [EncodeCert(cert)] + if tpmLocator == [] then [] else [Block(TPM_LOCATOR, tpmLocator)]);
  }
}
