/** The encoders and decoders as the objects run them: encoders prepend to a buffer from the
    back, or only count; decoders step through elements and assign fields. */
module PibObjects {
  import opened Bytes
  import opened Names
  import opened Optional
  import opened Tlv
  import opened PibEncoding
  import opened PibParams

  /** `s` in front of `octets`, if the encoder writes at all. */
  function Put(writes: bool, s: Octets, octets: Octets): Octets { if writes then s + octets else octets }

  lemma PutTwice(writes: bool, a: Octets, b: Octets, octets: Octets)
    ensures Put(writes, a, Put(writes, b, octets)) == Put(writes, a + b, octets)
    ensures Put(writes, [], octets) == octets
  {
    assert a + (b + octets) == (a + b) + octets && [] + octets == octets;
  }

  /** EncodingImpl<true> is the buffer, EncodingImpl<false> the estimator. */
  class Encoder {
    const writes: bool
    var octets: Octets

    constructor (writes: bool)
      ensures this.writes == writes && octets == []
    {
      this.writes, octets := writes, [];
    }

    method PrependByteArray(s: Octets) returns (n: nat)
      modifies this
      ensures n == |s| && octets == Put(writes, s, old(octets))
    {
      if writes {
        octets := s + octets;
      }
      return |s|;
    }

    method PrependVarNumber(number: nat) returns (n: nat)
      modifies this
      ensures n == |VarNumber(number)| && octets == Put(writes, VarNumber(number), old(octets))
    {
      n := PrependByteArray(VarNumber(number));
    }

    /** The two lines that end every encoder: the length of what was prepended, and the type. */
    method PrependHeader(ty: nat, length: nat, ghost value: Octets, ghost before: Octets) returns (n: nat)
      requires length == |value| && octets == Put(writes, value, before)
      modifies this
      ensures length + n == |Wire(Block(ty, value))| && octets == Put(writes, Wire(Block(ty, value)), before)
    {
      n := PrependVarNumber(length);
      var m := PrependVarNumber(ty);
      n := n + m;
      PutTwice(writes, VarNumber(length), value, before);
      PutTwice(writes, VarNumber(ty), VarNumber(length) + value, before);
      assert VarNumber(ty) + (VarNumber(length) + value) == Wire(Block(ty, value));
    }

    method PrependBlock(b: Block) returns (n: nat)
      modifies this
      ensures n == |Wire(b)| && octets == Put(writes, Wire(b), old(octets))
    {
      n := PrependByteArray(b.value);
      var m := PrependHeader(b.ty, n, b.value, old(octets));
      n := n + m;
    }
  }

  lemma WiresOfTwo(a: Block, b: Block)
    ensures Wires([a]) == Wire(a) && Wires([a, b]) == Wire(a) + Wire(b)
  {
    hide Wire;
    assert [a][1..] == [] && [a, b][1..] == [b] && [b][1..] == [];
    assert Wires([b]) == Wire(b) + [] == Wire(b);
    assert Wires([a]) == Wire(a) + [] == Wire(a);
  }

  class PibIdentity {
    var identity: Name

    constructor (identity: Name)
      ensures this.identity == identity
    {
      this.identity := identity;
    }

    method WireEncode(e: Encoder) returns (totalLength: nat)
      modifies e
      ensures totalLength == |Wire(EncodeIdentity(identity))|
      ensures e.octets == Put(e.writes, Wire(EncodeIdentity(identity)), old(e.octets))
    {
      hide Wire;
      WiresOfTwo(EncodeName(identity), EncodeName(identity));
      totalLength := e.PrependBlock(EncodeName(identity));
      var n := e.PrependHeader(IDENTITY, totalLength, Wire(EncodeName(identity)), old(e.octets));
      totalLength := totalLength + n;
    }

    method WireDecode(wire: Block) returns (ok: bool)
      modifies this
      ensures ok == DecodeIdentity(wire).Some?
      ensures ok ==> Some(identity) == DecodeIdentity(wire)
    {
      if wire.ty != IDENTITY {
        return false;
      }
      var inner := OnlyBlock(wire.value);
      if inner.None? || DecodeName(inner.value).None? {
        return false;
      }
      identity := DecodeName(inner.value).value;
      return true;
    }
  }

  class PibPublicKey {
    var isValueSet: bool
    var keyName: Name
    var key: Octets

    constructor ()
      ensures !isValueSet
    {
      isValueSet, keyName, key := false, [], [];
    }

    method WireEncode(e: Encoder) returns (totalLength: nat)
      modifies e
      ensures totalLength == |Wire(EncodePublicKey(keyName, key))|
      ensures e.octets == Put(e.writes, Wire(EncodePublicKey(keyName, key)), old(e.octets))
    {
      hide Wire;
      var name, bits := EncodeName(keyName), Block(BYTES, key);
      WiresOfTwo(name, bits);
      totalLength := e.PrependBlock(bits);
      var n := e.PrependBlock(name);
      totalLength := totalLength + n;
      PutTwice(e.writes, Wire(name), Wire(bits), old(e.octets));
      n := e.PrependHeader(PUBLIC_KEY, totalLength, Wire(name) + Wire(bits), old(e.octets));
      totalLength := totalLength + n;
    }

    /** The value counts as set only once both elements have been read. */
    method WireDecode(wire: Block) returns (ok: bool)
      modifies this
      ensures ok == DecodePublicKey(wire).Some?
      ensures ok ==> isValueSet && Some((keyName, key)) == DecodePublicKey(wire)
    {
      if wire.ty != PUBLIC_KEY || Parse(wire.value).None? {
        return false;
      }
      var elements, it := Parse(wire.value).value, 0;
      if it < |elements| && elements[it].ty == NAME && DecodeName(elements[it]).Some? {
        keyName := DecodeName(elements[it]).value;
        it := it + 1;
      } else {
        return false;
      }
      if it < |elements| && elements[it].ty == BYTES {
        key := elements[it].value;
        it := it + 1;
      } else {
        return false;
      }
      isValueSet := true;
      return it == |elements|;
    }
  }

  class PibCertificate {
    var isValueSet: bool
    var certificate: Cert

    constructor ()
      ensures !isValueSet
    {
      isValueSet, certificate := false, Cert([]);
    }

    method WireEncode(e: Encoder) returns (totalLength: nat)
      modifies e
      ensures totalLength == |Wire(EncodeCertificate(certificate))|
      ensures e.octets == Put(e.writes, Wire(EncodeCertificate(certificate)), old(e.octets))
    {
      hide Wire;
      WiresOfTwo(EncodeCert(certificate), EncodeCert(certificate));
      totalLength := e.PrependBlock(EncodeCert(certificate));
      var n := e.PrependHeader(CERTIFICATE, totalLength, Wire(EncodeCert(certificate)), old(e.octets));
      totalLength := totalLength + n;
    }

    method WireDecode(wire: Block) returns (ok: bool)
      modifies this
      ensures ok == DecodeCertificate(wire).Some?
      ensures ok ==> isValueSet && Some(certificate) == DecodeCertificate(wire)
    {
      if wire.ty != CERTIFICATE {
        return false;
      }
      var inner := OnlyBlock(wire.value);
      if inner.None? || DecodeCert(inner.value).None? {
        return false;
      }
      certificate := DecodeCert(inner.value).value;
      isValueSet := true;
      return true;
    }
  }

  class PibNameList {
    var names: seq<Name>

    constructor (names: seq<Name>)
      ensures this.names == names
    {
      this.names := names;
    }

    /** The last name is prepended first, so the order survives. */
    method WireEncode(e: Encoder) returns (totalLength: nat)
      modifies e
      ensures totalLength == |Wire(EncodeNameList(names))|
      ensures e.octets == Put(e.writes, Wire(EncodeNameList(names)), old(e.octets))
    {
      hide Wire;
      ghost var blocks := NameBlocks(names);
      totalLength := 0;
      for i := |names| downto 0
        invariant totalLength == |Wires(blocks[i..])|
        invariant e.octets == Put(e.writes, Wires(blocks[i..]), old(e.octets))
      {
        var n := e.PrependBlock(EncodeName(names[i]));
        totalLength := totalLength + n;
        PutTwice(e.writes, Wire(blocks[i]), Wires(blocks[i + 1..]), old(e.octets));
        assert blocks[i..][1..] == blocks[i + 1..];
      }
      assert blocks[0..] == blocks;
      var n := e.PrependHeader(NAME_LIST, totalLength, Wires(blocks), old(e.octets));
      totalLength := totalLength + n;
    }

    /** The estimator's pass gives exactly the size that the buffer's pass fills. */
    method Encoded() returns (octets: Octets)
      ensures octets == Wire(EncodeNameList(names))
    {
      var estimator := new Encoder(false);
      var estimatedSize := WireEncode(estimator);
      var buffer := new Encoder(true);
      var _ := WireEncode(buffer);
      assert |buffer.octets| == estimatedSize;
      return buffer.octets;
    }

    /** Names read are added to those already held, even if a later one is malformed. */
    method WireDecode(wire: Block) returns (ok: bool)
      modifies this
      ensures ok == DecodeNameList(old(names), wire).Some?
      ensures ok ==> Some(names) == DecodeNameList(old(names), wire)
    {
      if wire.ty != NAME_LIST || Parse(wire.value).None? {
        return false;
      }
      var elements := Parse(wire.value).value;
      for it := 0 to |elements|
        invariant DecodeNames(names, elements[it..]) == DecodeNames(old(names), elements)
      {
        assert elements[it..][1..] == elements[it + 1..];
        if elements[it].ty == NAME {
          if DecodeName(elements[it]).None? {
            return false;
          }
          names := names + [DecodeName(elements[it]).value];
        }
      }
      return true;
    }
  }

  class PibError {
    var errCode: nat
    var msg: Octets

    constructor (errCode: nat, msg: Octets)
      ensures this.errCode == errCode && this.msg == msg
    {
      this.errCode, this.msg := errCode, msg;
    }

    method WireEncode(e: Encoder) returns (totalLength: nat)
      requires errCode < MAX_NUMBER
      modifies e
      ensures totalLength == |Wire(EncodeError(errCode, msg))|
      ensures e.octets == Put(e.writes, Wire(EncodeError(errCode, msg)), old(e.octets))
    {
      hide Wire;
      var code, message := IntegerBlock(ERROR_CODE, errCode), Block(BYTES, msg);
      WiresOfTwo(code, message);
      totalLength := e.PrependBlock(message);
      var n := e.PrependBlock(code);
      totalLength := totalLength + n;
      PutTwice(e.writes, Wire(code), Wire(message), old(e.octets));
      n := e.PrependHeader(ERROR, totalLength, Wire(code) + Wire(message), old(e.octets));
      totalLength := totalLength + n;
    }

    method WireDecode(wire: Block) returns (ok: bool)
      modifies this
      ensures ok == DecodeError(wire).Some?
      ensures ok ==> Some((errCode, msg)) == DecodeError(wire)
    {
      if wire.ty != ERROR || Parse(wire.value).None? {
        return false;
      }
      var elements, it := Parse(wire.value).value, 0;
      if it < |elements| && elements[it].ty == ERROR_CODE && ReadNonNegativeInteger(elements[it].value).Some? {
        errCode := ReadNonNegativeInteger(elements[it].value).value;
        it := it + 1;
      } else {
        return false;
      }
      if it < |elements| && elements[it].ty == BYTES {
        msg := elements[it].value;
        it := it + 1;
      } else {
        return false;
      }
      return true;
    }
  }

  class PibUser {
    var mgmtCert: Cert
    var tpmLocator: Octets

    constructor ()
      ensures tpmLocator == []
    {
      mgmtCert, tpmLocator := Cert([]), [];
    }

    method WireEncode(e: Encoder) returns (totalLength: nat)
      modifies e
      ensures totalLength == |Wire(EncodeUser(mgmtCert, tpmLocator))|
      ensures e.octets == Put(e.writes, Wire(EncodeUser(mgmtCert, tpmLocator)), old(e.octets))
    {
      hide Wire;
      var cert, locator := EncodeCert(mgmtCert), Block(TPM_LOCATOR, tpmLocator);
      WiresOfTwo(cert, locator);
      ghost var value := if tpmLocator == [] then [] else Wire(locator);
      assert Wires([cert] + if tpmLocator == [] then [] else [locator]) == Wire(cert) + value;
      totalLength := 0;
      if tpmLocator != [] {
        totalLength := e.PrependBlock(locator);
      }
      var n := e.PrependBlock(cert);
      totalLength := totalLength + n;
      PutTwice(e.writes, Wire(cert), value, old(e.octets));
      n := e.PrependHeader(USER, totalLength, Wire(cert) + value, old(e.octets));
      totalLength := totalLength + n;
    }

    method WireDecode(wire: Block) returns (ok: bool)
      modifies this
      ensures ok == DecodeUser(old(tpmLocator), wire).Some?
      ensures ok ==> Some((mgmtCert, tpmLocator)) == DecodeUser(old(tpmLocator), wire)
    {
      if wire.ty != USER || Parse(wire.value).None? {
        return false;
      }
      var elements, it := Parse(wire.value).value, 0;
      if it < |elements| && elements[it].ty == DATA {
        mgmtCert := DecodeCert(elements[it]).value;
        it := it + 1;
      } else {
        return false;
      }
      if it < |elements| && elements[it].ty == TPM_LOCATOR {
        tpmLocator := elements[it].value;
      }
      return true;
    }
  }

  // ------------------------------------------------------------------ parameters

  /** GetParam and ListParam, told apart by their type number. */
  class TypedParam {
    const param: nat
    var ty: nat
    var name: Name

    constructor (param: nat, ty: nat, name: Name)
      ensures this.param == param && this.ty == ty && this.name == name
    {
      this.param, this.ty, this.name := param, ty, name;
    }

    /** None when the type is not supported, which the source reports by an exception. */
    method WireEncode(e: Encoder) returns (totalLength: Option<nat>)
      requires ty < MAX_NUMBER
      modifies e
      ensures var b := EncodeTyped(param, ty, name);
              && totalLength == (if b.Some? then Some(|Wire(b.value)|) else None)
              && e.octets == if b.Some? then Put(e.writes, Wire(b.value), old(e.octets)) else old(e.octets)
    {
      hide Wire;
      var block, kind := EncodeName(name), IntegerBlock(TYPE, ty);
      WiresOfTwo(kind, block);
      ghost var value := if Named(ty) then Wire(block) else [];
      var total := 0;
      if ty == TYPE_ID || ty == TYPE_KEY || ty == TYPE_CERT {
        total := e.PrependBlock(block);
      } else if ty != TYPE_USER {
        return None;
      }
      var n := e.PrependBlock(kind);
      total := total + n;
      PutTwice(e.writes, Wire(kind), value, old(e.octets));
      assert Wire(kind) + [] == Wire(kind);
      n := e.PrependHeader(param, total, Wire(kind) + value, old(e.octets));
      return Some(total + n);
    }

    method WireDecode(wire: Block) returns (ok: bool)
      modifies this
      ensures ok == DecodeTyped(param, old(name), wire).Some?
      ensures ok ==> Some((ty, name)) == DecodeTyped(param, old(name), wire)
    {
      if wire.ty != param || Parse(wire.value).None? {
        return false;
      }
      var elements, it := Parse(wire.value).value, 0;
      if it < |elements| && elements[it].ty == TYPE && ReadNonNegativeInteger(elements[it].value).Some? {
        ty := ReadNonNegativeInteger(elements[it].value).value;
        it := it + 1;
      } else {
        return false;
      }
      if ty == TYPE_ID || ty == TYPE_KEY || ty == TYPE_CERT {
        if it < |elements| && DecodeName(elements[it]).Some? {
          name := DecodeName(elements[it]).value;
          return true;
        }
        return false;
      }
      return ty == TYPE_USER;
    }
  }

  class DefaultParam {
    var targetType: nat
    var originType: nat
    var originName: Name

    constructor (targetType: nat, originType: nat, originName: Name)
      ensures this.targetType == targetType && this.originType == originType && this.originName == originName
    {
      this.targetType, this.originType, this.originName := targetType, originType, originName;
    }

    method WireEncode(e: Encoder) returns (totalLength: Option<nat>)
      requires targetType < MAX_NUMBER && originType < MAX_NUMBER
      modifies e
      ensures var b := EncodeDefault(targetType, originType, originName);
              && totalLength == (if b.Some? then Some(|Wire(b.value)|) else None)
              && e.octets == if b.Some? then Put(e.writes, Wire(b.value), old(e.octets)) else old(e.octets)
    {
      hide Wire, Wires, NonNegativeInteger, Put;
      var block := EncodeName(originName);
      var target, origin := IntegerBlock(TYPE, targetType), IntegerBlock(TYPE, originType);
      WiresOfTwo(target, origin);
      WiresOfTwo(block, block);
      WiresAppend([target, origin], [block]);
      ghost var value := if Named(originType) then Wire(block) else [];
      var total := 0;
      if originType == TYPE_ID || originType == TYPE_KEY || originType == TYPE_CERT {
        total := e.PrependBlock(block);
      } else if originType != TYPE_USER {
        return None;
      }
      var n := e.PrependBlock(origin);
      PutTwice(e.writes, Wire(origin), value, old(e.octets));
      total := total + n;
      n := e.PrependBlock(target);
      PutTwice(e.writes, Wire(target), Wire(origin) + value, old(e.octets));
      total := total + n;
      assert Wire(target) + (Wire(origin) + value) == Wire(target) + Wire(origin) + value;
      assert Wire(target) + Wire(origin) + [] == Wire(target) + Wire(origin);
      n := e.PrependHeader(DEFAULT_PARAM, total, Wire(target) + Wire(origin) + value, old(e.octets));
      return Some(total + n);
    }

    method WireDecode(wire: Block) returns (ok: bool)
      modifies this
      ensures ok == DecodeDefault(old(originName), wire).Some?
      ensures ok ==> Some((targetType, originType, originName)) == DecodeDefault(old(originName), wire)
    {
      if wire.ty != DEFAULT_PARAM || Parse(wire.value).None? {
        return false;
      }
      var elements, it := Parse(wire.value).value, 0;
      if it < |elements| && elements[it].ty == TYPE && ReadNonNegativeInteger(elements[it].value).Some? {
        targetType := ReadNonNegativeInteger(elements[it].value).value;
        it := it + 1;
      } else {
        return false;
      }
      if it < |elements| && elements[it].ty == TYPE && ReadNonNegativeInteger(elements[it].value).Some? {
        originType := ReadNonNegativeInteger(elements[it].value).value;
        it := it + 1;
      } else {
        return false;
      }
      if originType == TYPE_ID || originType == TYPE_KEY || originType == TYPE_CERT {
        if it < |elements| && DecodeName(elements[it]).Some? {
          originName := DecodeName(elements[it]).value;
          return true;
        }
        return false;
      }
      return originType == TYPE_USER;
    }
  }

  class DeleteParam {
    var targetType: nat
    var targetName: Name

    constructor (targetName: Name, targetType: nat)
      ensures this.targetName == targetName && this.targetType == targetType
    {
      this.targetName, this.targetType := targetName, targetType;
    }

    method WireEncode(e: Encoder) returns (totalLength: Option<nat>)
      requires targetType < MAX_NUMBER
      modifies e
      ensures var b := EncodeDelete(targetType, targetName);
              && totalLength == (if b.Some? then Some(|Wire(b.value)|) else None)
              && e.octets == if b.Some? then Put(e.writes, Wire(b.value), old(e.octets)) else old(e.octets)
    {
      hide Wire;
      if targetType != TYPE_ID && targetType != TYPE_KEY && targetType != TYPE_CERT && targetType != TYPE_USER {
        return None;
      }
      var block, kind := EncodeName(targetName), IntegerBlock(TYPE, targetType);
      WiresOfTwo(kind, block);
      var total := e.PrependBlock(block);
      var n := e.PrependBlock(kind);
      total := total + n;
      PutTwice(e.writes, Wire(kind), Wire(block), old(e.octets));
      n := e.PrependHeader(DELETE_PARAM, total, Wire(kind) + Wire(block), old(e.octets));
      return Some(total + n);
    }

    method WireDecode(wire: Block) returns (ok: bool)
      modifies this
      ensures ok == DecodeDelete(wire).Some?
      ensures ok ==> Some((targetType, targetName)) == DecodeDelete(wire)
    {
      if wire.ty != DELETE_PARAM || Parse(wire.value).None? {
        return false;
      }
      var elements, it := Parse(wire.value).value, 0;
      if it < |elements| && elements[it].ty == TYPE && ReadNonNegativeInteger(elements[it].value).Some? {
        targetType := ReadNonNegativeInteger(elements[it].value).value;
        it := it + 1;
      } else {
        return false;
      }
      if it < |elements| && elements[it].ty == NAME && DecodeName(elements[it]).Some? {
        targetName := DecodeName(elements[it]).value;
        it := it + 1;
      } else {
        return false;
      }
      return it == |elements|;
    }
  }

  class UpdateParam {
    var entityType: nat
    var defaultOpt: nat
    const user: PibUser
    const identity: PibIdentity
    const key: PibPublicKey
    const certificate: PibCertificate

    constructor ()
      ensures defaultOpt == 0 && fresh(user) && fresh(identity) && fresh(key) && fresh(certificate)
      ensures user.tpmLocator == []
    {
      entityType, defaultOpt := IDENTITY, 0;
      user := new PibUser();
      identity := new PibIdentity([]);
      key := new PibPublicKey();
      certificate := new PibCertificate();
    }

    /** The entity of the kind that the type says. */
    ghost function Entity(): Option<Entity>
      reads this, user, identity, key, certificate
    {
      if entityType == USER then Some(UserEntity(user.mgmtCert, user.tpmLocator))
      else if entityType == IDENTITY then Some(IdentityEntity(identity.identity))
      else if entityType == PUBLIC_KEY then Some(KeyEntity(key.keyName, key.key))
      else if entityType == CERTIFICATE then Some(CertEntity(certificate.certificate))
      else None
    }

    method WireEncode(e: Encoder) returns (totalLength: Option<nat>)
      requires defaultOpt < MAX_NUMBER
      modifies e
      ensures Entity() == old(Entity()) && totalLength.Some? == Entity().Some?
      ensures totalLength.Some? ==>
                var b := EncodeUpdate(Entity().value, defaultOpt);
                totalLength.value == |Wire(b)| && e.octets == Put(e.writes, Wire(b), old(e.octets))
    {
      hide Wire, EncodeUser, EncodeIdentity, EncodePublicKey, EncodeCertificate;
      var opt := IntegerBlock(DEFAULT_OPT, defaultOpt);
      var total := e.PrependBlock(opt);
      var n := 0;
      if entityType == IDENTITY {
        n := identity.WireEncode(e);
      } else if entityType == PUBLIC_KEY {
        n := key.WireEncode(e);
      } else if entityType == CERTIFICATE {
        n := certificate.WireEncode(e);
      } else if entityType == USER {
        n := user.WireEncode(e);
      } else {
        return None;
      }
      total := total + n;
      ghost var entity := EncodeEntity(Entity().value);
      WiresOfTwo(entity, opt);
      PutTwice(e.writes, Wire(entity), Wire(opt), old(e.octets));
      n := e.PrependHeader(UPDATE_PARAM, total, Wire(entity) + Wire(opt), old(e.octets));
      return Some(total + n);
    }

    method Encoded() returns (octets: Option<Octets>)
      requires defaultOpt < MAX_NUMBER
      ensures octets == if Entity().Some? then Some(Wire(EncodeUpdate(Entity().value, defaultOpt))) else None
    {
      var estimator := new Encoder(false);
      var estimatedSize := WireEncode(estimator);
      if estimatedSize.None? {
        return None;
      }
      var buffer := new Encoder(true);
      var _ := WireEncode(buffer);
      ghost var wire := Wire(EncodeUpdate(Entity().value, defaultOpt));
      assert buffer.octets == wire + [] == wire && |wire| == estimatedSize.value;
      return Some(buffer.octets);
    }

    method WireDecode(wire: Block) returns (ok: bool)
      modifies this, user, identity, key, certificate
      ensures ok == DecodeUpdate(old(user.tpmLocator), wire).Some?
      ensures ok ==> Entity().Some? && Some((Entity().value, defaultOpt)) == DecodeUpdate(old(user.tpmLocator), wire)
    {
      hide DecodeUser, DecodeIdentity, DecodePublicKey, DecodeCertificate;
      if wire.ty != UPDATE_PARAM || Parse(wire.value).None? {
        return false;
      }
      var elements, it := Parse(wire.value).value, 0;
      if it == |elements| {
        return false;
      }
      var read := DecodeFirst(elements[it]);
      if !read {
        return false;
      }
      it := it + 1;
      if it < |elements| && elements[it].ty == DEFAULT_OPT && ReadNonNegativeInteger(elements[it].value).Some? {
        defaultOpt := ReadNonNegativeInteger(elements[it].value).value;
        it := it + 1;
      } else {
        return false;
      }
      return it == |elements|;
    }

    /** The first element must be an entity. */
    method DecodeFirst(element: Block) returns (read: bool)
      modifies this`entityType, user, identity, key, certificate
      ensures read == DecodeEntity(old(user.tpmLocator), element).Some?
      ensures read ==> Entity() == DecodeEntity(old(user.tpmLocator), element)
    {
      hide DecodeUser, DecodeIdentity, DecodePublicKey, DecodeCertificate;
      if element.ty == IDENTITY {
        entityType := IDENTITY;
        read := identity.WireDecode(element);
      } else if element.ty == PUBLIC_KEY {
        entityType := PUBLIC_KEY;
        read := key.WireDecode(element);
      } else if element.ty == CERTIFICATE {
        entityType := CERTIFICATE;
        read := certificate.WireDecode(element);
      } else if element.ty == USER {
        entityType := USER;
        read := user.WireDecode(element);
      } else {
        return false;
      }
    }
  }
}
