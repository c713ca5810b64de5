/** The TLV formats of the PIB from the outside: exactly which blocks the decoders accept, and which
    parameters the encoders refuse. */
module PibFormats {
  import opened Bytes
  import opened Names
  import opened Optional
  import opened Tlv
  import opened PibEncoding
  import opened PibParams

  // ------------------------------------------------------------------ names

  lemma OneBlockExactly(s: Octets, b: Block)
    ensures OnlyBlock(s) == Some(b) <==> Parse(s) == Some([b])
  {
    match ReadBlock(s)
    case None =>
    case Some((first, rest)) =>
      assert [first] + [] == [first] && [b][0] == b;
      if rest != [] && Parse(rest).Some? {
        ParseIsNotEmpty(rest);
        assert |Parse(s).value| >= 2;
      }
  }

  lemma ParseIsNotEmpty(s: Octets)
    requires s != [] && Parse(s).Some?
    ensures |Parse(s).value| >= 1
  {
  }

  /** A block is accepted as a name exactly when it consists of the name's components. */
  lemma NameAcceptedExactly(b: Block, n: Name)
    ensures DecodeName(b) == Some(n) <==> b.ty == 7 && Parse(b.value) == Some(ComponentBlocks(n))
    ensures forall i :: 0 <= i < |n| ==> ComponentBlocks(n)[i] == Block(8, n[i])
  {
    hide Parse;
    if DecodeName(b) == Some(n) {
      var e := Parse(b.value).value;
      assert e == ComponentBlocks(n);
    }
    if b.ty == 7 && Parse(b.value) == Some(ComponentBlocks(n)) {
      assert ComponentsOf(ComponentBlocks(n)) == n;
    }
  }

  // ------------------------------------------------------------------ entities

  /** A block of the given type that consists of these elements. */
  ghost predicate Holds(b: Block, ty: nat, e: seq<Block>) { b.ty == ty && Parse(b.value) == Some(e) }

  lemma IdentityAcceptedExactly(b: Block, n: Name)
    ensures DecodeIdentity(b) == Some(n) <==>
            exists name: Block :: Holds(b, 145, [name]) && DecodeName(name) == Some(n)
  {
    hide Parse, ReadBlock, DecodeName;
    if DecodeIdentity(b).Some? {
      OneBlockExactly(b.value, OnlyBlock(b.value).value);
    }
    if name: Block :| Holds(b, 145, [name]) && DecodeName(name) == Some(n) {
      OneBlockExactly(b.value, name);
    }
  }

  lemma CertificateAcceptedExactly(b: Block, c: Cert)
    ensures DecodeCertificate(b) == Some(c) <==> Holds(b, 147, [Block(6, c.octets)])
  {
    hide Parse, ReadBlock;
    if DecodeCertificate(b).Some? {
      OneBlockExactly(b.value, OnlyBlock(b.value).value);
    }
    OneBlockExactly(b.value, Block(6, c.octets));
  }

  lemma PublicKeyAcceptedExactly(b: Block, keyName: Name, key: Octets)
    ensures DecodePublicKey(b) == Some((keyName, key)) <==>
            exists name: Block :: Holds(b, 146, [name, Block(148, key)]) && DecodeName(name) == Some(keyName)
  {
    hide Parse;
    if DecodePublicKey(b) == Some((keyName, key)) {
      var e := Parse(b.value).value;
      NameAcceptedExactly(e[0], keyName);
      hide DecodeName;
      assert e == [e[0], Block(148, key)];
    }
    if name: Block :| Holds(b, 146, [name, Block(148, key)]) && DecodeName(name) == Some(keyName) {
      NameAcceptedExactly(name, keyName);
    }
  }

  /** The elements that are names. */
  function NameElements(e: seq<Block>): seq<Block> {
    if e == [] then [] else (if e[0].ty == 7 then [e[0]] else []) + NameElements(e[1..])
  }

  ghost predicate AllNames(e: seq<Block>, names: seq<Name>) {
    |e| == |names| && forall i :: 0 <= i < |e| ==> DecodeName(e[i]) == Some(names[i])
  }

  lemma {:induction false} NamesAcceptedExactly(held: seq<Name>, e: seq<Block>, names: seq<Name>)
    ensures DecodeNames(held, e) == Some(held + names) <==> AllNames(NameElements(e), names)
    ensures DecodeNames(held, e).Some? ==> held <= DecodeNames(held, e).value
    decreases |e|
  {
    hide DecodeName;
    if e == [] {
      assert held + [] == held;
      if held == held + names {
        assert |names| == 0;
      }
    } else if e[0].ty != NAME {
      NamesAcceptedExactly(held, e[1..], names);
      assert NameElements(e) == NameElements(e[1..]);
    } else {
      var rest := NameElements(e[1..]);
      assert NameElements(e) == [e[0]] + rest;
      match DecodeName(e[0])
      case None =>
        assert NameElements(e)[0] == e[0];
      case Some(n) =>
        FirstName(e[0], rest, n, names);
        if names != [] && names[0] == n {
          NamesAcceptedExactly(held + [n], e[1..], names[1..]);
          assert held + [n] + names[1..] == held + names;
        } else {
          NamesAcceptedExactly(held + [n], e[1..], []);
          if held + [n] <= held + names {
            NextIs(held, n, names);
            assert false;
          }
        }
    }
  }

  lemma NextIs(held: seq<Name>, n: Name, names: seq<Name>)
    requires held + [n] <= held + names
    ensures names != [] && names[0] == n
  {
    assert (held + [n])[|held|] == n;
  }

  lemma FirstName(b: Block, rest: seq<Block>, n: Name, names: seq<Name>)
    requires DecodeName(b) == Some(n)
    ensures AllNames([b] + rest, names) <==> names != [] && names[0] == n && AllNames(rest, names[1..])
  {
    hide DecodeName;
    if AllNames([b] + rest, names) {
      assert ([b] + rest)[0] == b;
      forall i | 0 <= i < |rest|
        ensures DecodeName(rest[i]) == Some(names[1..][i])
      {
        assert ([b] + rest)[i + 1] == rest[i];
      }
    }
  }

  /** A name list is accepted exactly when all its elements that are names decode, in their order;
      others are skipped. */
  lemma NameListAcceptedExactly(held: seq<Name>, b: Block, names: seq<Name>)
    ensures DecodeNameList(held, b) == Some(held + names) <==>
            exists e: seq<Block> :: Holds(b, 150, e) && AllNames(NameElements(e), names)
  {
    hide Parse, AllNames, DecodeNames;
    if b.ty == 150 && Parse(b.value).Some? {
      NamesAcceptedExactly(held, Parse(b.value).value, names);
    }
  }

  lemma ErrorAcceptedExactly(b: Block, code: nat, msg: Octets)
    ensures DecodeError(b) == Some((code, msg)) <==>
            exists e: seq<Block> :: Holds(b, 152, e) && |e| >= 2 && e[0].ty == 252 && e[1] == Block(148, msg)
                        && ReadNonNegativeInteger(e[0].value) == Some(code)
  {
    hide Parse, ReadNonNegativeInteger;
    if DecodeError(b).Some? {
      var e := Parse(b.value).value;
      assert Holds(b, 152, e) && e[1] == Block(148, e[1].value);
    }
  }

  lemma UserAcceptedExactly(held: Octets, b: Block, cert: Cert, tpmLocator: Octets)
    ensures DecodeUser(held, b) == Some((cert, tpmLocator)) <==>
            exists e: seq<Block> :: Holds(b, 144, e) && |e| >= 1 && e[0] == Block(6, cert.octets)
                        && (if |e| >= 2 && e[1].ty == 153 then e[1].value == tpmLocator else tpmLocator == held)
  {
    hide Parse;
    if DecodeUser(held, b).Some? {
      var e := Parse(b.value).value;
      assert Holds(b, 144, e) && e[0] == Block(6, e[0].value);
    }
  }

  // ------------------------------------------------------------------ parameters

  /** The first element is this type. */
  ghost predicate Types(e: seq<Block>, i: nat, ty: nat) {
    i < |e| && e[i].ty == 151 && ReadNonNegativeInteger(e[i].value) == Some(ty)
  }

  lemma TypedAcceptedExactly(param: nat, held: Name, b: Block, ty: nat, name: Name)
    ensures DecodeTyped(param, held, b) == Some((ty, name)) <==>
            exists e: seq<Block> :: Holds(b, param, e) && Types(e, 0, ty)
                        && (|| (1 <= ty <= 3 && |e| >= 2 && DecodeName(e[1]) == Some(name))
                            || (ty == 0 && name == held))
  {
    hide Parse, ReadNonNegativeInteger, DecodeName;
    if DecodeTyped(param, held, b).Some? {
      assert Holds(b, param, Parse(b.value).value);
    }
  }

  lemma DefaultAcceptedExactly(held: Name, b: Block, target: nat, origin: nat, name: Name)
    ensures DecodeDefault(held, b) == Some((target, origin, name)) <==>
            exists e: seq<Block> :: Holds(b, 129, e) && Types(e, 0, target) && Types(e, 1, origin)
                        && (|| (1 <= origin <= 3 && |e| >= 3 && DecodeName(e[2]) == Some(name))
                            || (origin == 0 && name == held))
  {
    hide Parse, ReadNonNegativeInteger, DecodeName;
    if DecodeDefault(held, b).Some? {
      assert Holds(b, 129, Parse(b.value).value);
    }
  }

  lemma DeleteAcceptedExactly(b: Block, ty: nat, name: Name)
    ensures DecodeDelete(b) == Some((ty, name)) <==>
            exists e: seq<Block> :: Holds(b, 132, e) && |e| == 2 && Types(e, 0, ty) && DecodeName(e[1]) == Some(name)
  {
    hide Parse, ReadNonNegativeInteger;
    if DecodeDelete(b).Some? {
      assert Holds(b, 132, Parse(b.value).value);
    }
  }

  lemma UpdateAcceptedExactly(held: Octets, b: Block, entity: Entity, defaultOpt: nat)
    ensures DecodeUpdate(held, b) == Some((entity, defaultOpt)) <==>
            exists e: seq<Block> :: Holds(b, 131, e) && |e| == 2 && DecodeEntity(held, e[0]) == Some(entity)
                        && e[1].ty == 149 && ReadNonNegativeInteger(e[1].value) == Some(defaultOpt)
  {
    hide Parse, ReadNonNegativeInteger, DecodeEntity;
    if DecodeUpdate(held, b).Some? {
      assert Holds(b, 131, Parse(b.value).value);
    }
  }

  /** The kind of an entity is that of its block: user, identity, key or certificate. */
  lemma EntityAcceptedExactly(held: Octets, b: Block, entity: Entity)
    ensures DecodeEntity(held, b) == Some(entity) <==>
            match entity
            case UserEntity(cert, tpmLocator) => DecodeUser(held, b) == Some((cert, tpmLocator))
            case IdentityEntity(identity) => DecodeIdentity(b) == Some(identity)
            case KeyEntity(keyName, key) => DecodePublicKey(b) == Some((keyName, key))
            case CertEntity(cert) => DecodeCertificate(b) == Some(cert)
  {
    hide Parse, ReadBlock, DecodeName;
  }

  /** Get, List and Delete are encoded for the types user, identity, key and certificate, Default for
      these origin types; others are refused. */
  lemma EncodedExactly(param: nat, ty: Number, origin: Number, name: Name)
    ensures EncodeTyped(param, ty, name).Some? <==> ty <= 3
    ensures EncodeDefault(ty, origin, name).Some? <==> origin <= 3
    ensures EncodeDelete(ty, name).Some? <==> ty <= 3
  {
    hide Wires, NonNegativeInteger;
  }
}
