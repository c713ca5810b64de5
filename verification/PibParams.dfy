/** The TLV formats of the five kinds of command parameters. */
module PibParams {
  import opened Bytes
  import opened Names
  import opened Optional
  import opened Tlv
  import opened PibEncoding

  // ------------------------------------------------------------------ Get and List: a type and maybe a name

  /** GetParam and ListParam differ in their type number only.  The name is encoded for the
      types that have one; other types than these and the user are refused. */
  function EncodeTyped(param: nat, ty: Number, name: Name): Option<Block> {
    if Named(ty) then Some(Nested(param, [IntegerBlock(TYPE, ty), EncodeName(name)]))
    else if ty == TYPE_USER then Some(Nested(param, [IntegerBlock(TYPE, ty)]))
    else None
  }

  /** The object keeps the name it held when the type has none. */
  function DecodeTyped(param: nat, held: Name, b: Block): Option<(nat, Name)> {
    match Elements(b, param)
    case None => None
    case Some(e) =>
      if |e| < 1 || e[0].ty != TYPE then None
      else
        match ReadNonNegativeInteger(e[0].value)
        case None => None
        case Some(ty) =>
          if Named(ty) then
            if |e| < 2 then None
            else
              match DecodeName(e[1])
              case None => None
              case Some(name) => Some((ty, name))
          else if ty == TYPE_USER then Some((ty, held))
          else None
  }

  /** What the getters of a parameter give out: a user has no name. */
  function Observed(ty: nat, name: Name): (nat, Option<Name>) { (ty, if Named(ty) then Some(name) else None) }

  lemma TypedRoundTrip(param: Number, held: Name, ty: Number, name: Name)
    requires EncodeTyped(param, ty, name).Some? && EncodeTyped(param, ty, name).value.Encodable()
    ensures var r := DecodeTyped(param, held, EncodeTyped(param, ty, name).value);
            r.Some? && Observed(r.value.0, r.value.1) == Observed(ty, name)
  {
    hide Wire, Wires, Parse, NonNegativeInteger, ReadNonNegativeInteger, DecodeName;
    NonNegativeIntegerRoundTrip(ty);
    if Named(ty) {
      var e := [IntegerBlock(TYPE, ty), EncodeName(name)];
      NestedRoundTrip(param, e);
      assert e[1].Encodable();
      NameRoundTrip(name);
    } else {
      NestedRoundTrip(param, [IntegerBlock(TYPE, ty)]);
    }
  }

  // ------------------------------------------------------------------ Default: two types and maybe a name

  function EncodeDefault(target: Number, origin: Number, name: Name): Option<Block> {
    var types := [IntegerBlock(TYPE, target), IntegerBlock(TYPE, origin)];
    if Named(origin) then Some(Nested(DEFAULT_PARAM, types + [EncodeName(name)]))
    else if origin == TYPE_USER then Some(Nested(DEFAULT_PARAM, types))
    else None
  }

  function DecodeDefault(held: Name, b: Block): Option<(nat, nat, Name)> {
    match Elements(b, DEFAULT_PARAM)
    case None => None
    case Some(e) =>
      if |e| < 2 || e[0].ty != TYPE || e[1].ty != TYPE then None
      else
        match (ReadNonNegativeInteger(e[0].value), ReadNonNegativeInteger(e[1].value))
        case (Some(target), Some(origin)) =>
          if Named(origin) then
            if |e| < 3 then None
            else
              match DecodeName(e[2])
              case None => None
              case Some(name) => Some((target, origin, name))
          else if origin == TYPE_USER then Some((target, origin, held))
          else None
        case _ => None
  }

  lemma DefaultRoundTrip(held: Name, target: Number, origin: Number, name: Name)
    requires EncodeDefault(target, origin, name).Some? && EncodeDefault(target, origin, name).value.Encodable()
    ensures var r := DecodeDefault(held, EncodeDefault(target, origin, name).value);
            && r.Some? && r.value.0 == target
            && Observed(r.value.1, r.value.2) == Observed(origin, name)
  {
    hide Wire, Wires, Parse, NonNegativeInteger, ReadNonNegativeInteger, DecodeName;
    NonNegativeIntegerRoundTrip(target);
    NonNegativeIntegerRoundTrip(origin);
    var types := [IntegerBlock(TYPE, target), IntegerBlock(TYPE, origin)];
    if Named(origin) {
      NestedRoundTrip(DEFAULT_PARAM, types + [EncodeName(name)]);
      assert (types + [EncodeName(name)])[2].Encodable();
      NameRoundTrip(name);
    } else {
      NestedRoundTrip(DEFAULT_PARAM, types);
    }
  }

  // ------------------------------------------------------------------ Delete: a type and a name

  function EncodeDelete(ty: Number, name: Name): Option<Block> {
    if Named(ty) || ty == TYPE_USER then Some(Nested(DELETE_PARAM, [IntegerBlock(TYPE, ty), EncodeName(name)]))
    else None
  }

  /** Any type is accepted here, and nothing may follow. */
  function DecodeDelete(b: Block): Option<(nat, Name)> {
    match Elements(b, DELETE_PARAM)
    case None => None
    case Some(e) =>
      if |e| != 2 || e[0].ty != TYPE || e[1].ty != NAME then None
      else
        match (ReadNonNegativeInteger(e[0].value), DecodeName(e[1]))
        case (Some(ty), Some(name)) => Some((ty, name))
        case _ => None
  }

  lemma DeleteRoundTrip(ty: Number, name: Name)
    requires EncodeDelete(ty, name).Some? && EncodeDelete(ty, name).value.Encodable()
    ensures DecodeDelete(EncodeDelete(ty, name).value) == Some((ty, name))
  {
    hide Wire, Wires, Parse, NonNegativeInteger, ReadNonNegativeInteger, DecodeName;
    NonNegativeIntegerRoundTrip(ty);
    var e := [IntegerBlock(TYPE, ty), EncodeName(name)];
    NestedRoundTrip(DELETE_PARAM, e);
    assert e[1].Encodable();
    NameRoundTrip(name);
  }

  // ------------------------------------------------------------------ Update: an entity and its default option

  datatype Entity =
    | UserEntity(cert: Cert, tpmLocator: Octets)
    | IdentityEntity(identity: Name)
    | KeyEntity(keyName: Name, key: Octets)
    | CertEntity(cert: Cert)

  function EncodeEntity(e: Entity): Block {
    match e
    case UserEntity(cert, tpmLocator) => EncodeUser(cert, tpmLocator)
    case IdentityEntity(identity) => EncodeIdentity(identity)
    case KeyEntity(keyName, key) => EncodePublicKey(keyName, key)
    case CertEntity(cert) => EncodeCertificate(cert)
  }

  /** The type number tells the four kinds apart; `held` is the locator the object holds. */
  function DecodeEntity(held: Octets, b: Block): Option<Entity> {
    if b.ty == USER then
      match DecodeUser(held, b)
      case None => None
      case Some((cert, tpmLocator)) => Some(UserEntity(cert, tpmLocator))
    else if b.ty == IDENTITY then
      match DecodeIdentity(b)
      case None => None
      case Some(identity) => Some(IdentityEntity(identity))
    else if b.ty == PUBLIC_KEY then
      match DecodePublicKey(b)
      case None => None
      case Some((keyName, key)) => Some(KeyEntity(keyName, key))
    else if b.ty == CERTIFICATE then
      match DecodeCertificate(b)
      case None => None
      case Some(cert) => Some(CertEntity(cert))
    else None
  }

  lemma EntityRoundTrip(held: Octets, e: Entity)
    requires EncodeEntity(e).Encodable()
    ensures DecodeEntity(held, EncodeEntity(e)) == Some(e) <==> !e.UserEntity? || e.tpmLocator != [] || held == []
    ensures DecodeEntity(held, EncodeEntity(e)).Some?
  {
    match e
    case UserEntity(cert, tpmLocator) => UserRoundTrip(held, cert, tpmLocator);
    case IdentityEntity(identity) => IdentityRoundTrip(identity);
    case KeyEntity(keyName, key) => PublicKeyRoundTrip(keyName, key);
    case CertEntity(cert) => CertificateRoundTrip(cert);
  }

  function EncodeUpdate(entity: Entity, defaultOpt: Number): Block {
    Nested(UPDATE_PARAM, [EncodeEntity(entity), IntegerBlock(DEFAULT_OPT, defaultOpt)])
  }

  function DecodeUpdate(held: Octets, b: Block): Option<(Entity, nat)> {
    match Elements(b, UPDATE_PARAM)
    case None => None
    case Some(e) =>
      if |e| != 2 || e[1].ty != DEFAULT_OPT then None
      else
        match (DecodeEntity(held, e[0]), ReadNonNegativeInteger(e[1].value))
        case (Some(entity), Some(defaultOpt)) => Some((entity, defaultOpt))
        case _ => None
  }

  /** An update comes back whatever its entity, except that an object that already holds a TPM
      locator does not lose it to a user without one. */
  lemma UpdateRoundTrip(held: Octets, entity: Entity, defaultOpt: Number)
    requires EncodeUpdate(entity, defaultOpt).Encodable()
    ensures DecodeUpdate(held, EncodeUpdate(entity, defaultOpt)) == Some((entity, defaultOpt)) <==>
            !entity.UserEntity? || entity.tpmLocator != [] || held == []
  {
    hide Wire, Wires, Parse, NonNegativeInteger, ReadNonNegativeInteger, DecodeName, DecodeEntity;
    var e := [EncodeEntity(entity), IntegerBlock(DEFAULT_OPT, defaultOpt)];
    NestedRoundTrip(UPDATE_PARAM, e);
    assert e[0].Encodable();
    EntityRoundTrip(held, entity);
    NonNegativeIntegerRoundTrip(defaultOpt);
  }

  // ------------------------------------------------------------------ elements too many

  /** Elements that follow a complete parameter are ignored by Get, List and Default, and make
      Delete and Update fail. */
  lemma ExtraElements(param: Number, held: Name, locator: Octets, e: seq<Block>, extra: seq<Block>)
    requires Nested(param, e + extra).Encodable() && extra != []
    requires forall i :: 0 <= i < |e + extra| ==> (e + extra)[i].ty < MAX_NUMBER
    ensures DecodeTyped(param, held, Nested(param, e)).Some? ==>
              DecodeTyped(param, held, Nested(param, e + extra)) == DecodeTyped(param, held, Nested(param, e))
    ensures DecodeDefault(held, Nested(param, e)).Some? ==>
              DecodeDefault(held, Nested(param, e + extra)) == DecodeDefault(held, Nested(param, e))
    ensures DecodeDelete(Nested(param, e)).Some? ==> DecodeDelete(Nested(param, e + extra)).None?
    ensures DecodeUpdate(locator, Nested(param, e)).Some? ==> DecodeUpdate(locator, Nested(param, e + extra)).None?
  {
    hide Wire, Wires, Parse, NonNegativeInteger, ReadNonNegativeInteger, DecodeName, DecodeEntity;
    WiresAppend(e, extra);
    forall i | 0 <= i < |e|
      ensures e[i].ty < MAX_NUMBER
    {
      assert (e + extra)[i] == e[i];
    }
    NestedRoundTrip(param, e);
    NestedRoundTrip(param, e + extra);
  }
}
