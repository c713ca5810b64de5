/** The PIB database object: its SQL statements, triggers and cascades as updates of tables in
    place, and the signals it sends, proved against PibDbSpec.dfy. */
module PibDatabase {
  import opened Bytes
  import opened Names
  import opened Optional
  import opened Counting
  import opened PibTable
  import opened PibStore
  import opened PibDbSpec
  import opened PibDbTheorems

  /** Some row called `n` is in `t` and no longer in `r`. */
  ghost predicate Removed<T>(t: Table<T>, r: Table<T>, n: Name) {
    exists i :: i in t && i !in r && t[i].name == n
  }

  /** The signals of a deletion: one for each row that is gone, and no others. */
  ghost predicate SentFor(d: Db, r: Db, sent: seq<Signal>) {
    && Distinct(sent)
    && (forall s :: s in sent <==>
          match s
          case IdentityDeleted(n) => Removed(d.identities, r.identities, n)
          case KeyDeleted(n) => Removed(d.keys, r.keys, n)
          case CertDeleted(n) => Removed(d.certs, r.certs, n)
          case _ => false)
  }

  /** `r` has lost rows of `d`, and nothing else has changed. */
  ghost predicate Less(d: Db, r: Db) {
    && r == d.(identities := r.identities, keys := r.keys, certs := r.certs)
    && Fewer(d.identities, r.identities) && Fewer(d.keys, r.keys) && Fewer(d.certs, r.certs)
  }

  ghost predicate Fewer<T>(t: Table<T>, r: Table<T>) { forall i :: i in r ==> i in t && r[i] == t[i] }

  ghost predicate Unique(d: Db) { UniqueNames(d.identities) && UniqueNames(d.keys) && UniqueNames(d.certs) }

  lemma RemovedInTurn<T>(t: Table<T>, m: Table<T>, r: Table<T>, n: Name)
    requires UniqueNames(t) && Fewer(t, m) && Fewer(m, r)
    ensures Removed(t, r, n) <==> Removed(t, m, n) || Removed(m, r, n)
    ensures !(Removed(t, m, n) && Removed(m, r, n))
  {
    if Removed(m, r, n) {
      var i :| i in m && i !in r && m[i].name == n;
      assert t[i].name == n;
    }
    if Removed(t, m, n) {
      var i :| i in t && i !in m && t[i].name == n;
      assert i !in r;
    }
    if Removed(t, r, n) {
      var i :| i in t && i !in r && t[i].name == n;
      assert i in m ==> m[i].name == n;
    }
  }

  /** Two deletions in a row. */
  lemma SentInTurn(d: Db, m: Db, r: Db, first: seq<Signal>, second: seq<Signal>)
    requires Unique(d) && Less(d, m) && Less(m, r) && SentFor(d, m, first) && SentFor(m, r, second)
    ensures Less(d, r) && SentFor(d, r, first + second)
  {
    hide Removed, UniqueNames, Fewer;
    assert Less(d, r) by {
      FewerInTurn(d.identities, m.identities, r.identities);
      FewerInTurn(d.keys, m.keys, r.keys);
      FewerInTurn(d.certs, m.certs, r.certs);
    }
    forall n
      ensures Removed(d.identities, r.identities, n) <==>
              Removed(d.identities, m.identities, n) || Removed(m.identities, r.identities, n)
      ensures !(Removed(d.identities, m.identities, n) && Removed(m.identities, r.identities, n))
      ensures Removed(d.keys, r.keys, n) <==> Removed(d.keys, m.keys, n) || Removed(m.keys, r.keys, n)
      ensures !(Removed(d.keys, m.keys, n) && Removed(m.keys, r.keys, n))
      ensures Removed(d.certs, r.certs, n) <==> Removed(d.certs, m.certs, n) || Removed(m.certs, r.certs, n)
      ensures !(Removed(d.certs, m.certs, n) && Removed(m.certs, r.certs, n))
    {
      RemovedInTurn(d.identities, m.identities, r.identities, n);
      RemovedInTurn(d.keys, m.keys, r.keys, n);
      RemovedInTurn(d.certs, m.certs, r.certs, n);
    }
    DistinctInTurn(first, second);
  }

  lemma FewerInTurn<T>(t: Table<T>, m: Table<T>, r: Table<T>)
    requires Fewer(t, m) && Fewer(m, r)
    ensures Fewer(t, r)
  {
  }

  lemma DistinctInTurn<T>(a: seq<T>, b: seq<T>)
    requires Distinct(a) && Distinct(b) && forall x :: x in a ==> x !in b
    ensures Distinct(a + b) && forall x :: x in a + b <==> x in a || x in b
  {
    forall i, j | 0 <= i < j < |a + b|
      ensures (a + b)[i] != (a + b)[j]
    {
      if i < |a| <= j {
        assert a[i] in a && b[j - |a|] in b;
      }
    }
  }

  lemma CertRowGone(d: Db, id: int)
    requires Unique(d) && id in d.certs
    ensures var r := DeleteCertRows(d, {id});
            Less(d, r) && Unique(r) && SentFor(d, r, [CertDeleted(d.certs[id].name)])
  {
    var r := DeleteCertRows(d, {id});
    assert Removed(d.certs, r.certs, d.certs[id].name);
  }

  lemma KeyRowGone(d: Db, id: int)
    requires Unique(d) && id in d.keys
    ensures var r := d.(keys := d.keys - {id});
            Less(d, r) && Unique(r) && SentFor(d, r, [KeyDeleted(d.keys[id].name)])
  {
    var r := d.(keys := d.keys - {id});
    assert Removed(d.keys, r.keys, d.keys[id].name);
  }

  lemma IdentityRowGone(d: Db, id: int)
    requires Unique(d) && id in d.identities
    ensures var r := d.(identities := d.identities - {id});
            Less(d, r) && Unique(r) && SentFor(d, r, [IdentityDeleted(d.identities[id].name)])
  {
    var r := d.(identities := d.identities - {id});
    assert Removed(d.identities, r.identities, d.identities[id].name);
  }

  lemma NothingGone(d: Db)
    ensures Less(d, d) && SentFor(d, d, [])
  {
  }

  lemma RemovedByName<T>(t: Table<T>, r: Table<T>, n: Name)
    requires UniqueNames(t) && Fewer(t, r)
    ensures Removed(t, r, n) <==> n in NamesOf(t) && n !in NamesOf(r)
  {
    NamesAt(t, n);
    NamesAt(r, n);
    if n in NamesOf(t) && n !in NamesOf(r) {
      assert IdOf(t, n) !in r;
    }
  }

  /** By name, the signals of a deletion are those of what the store has lost. */
  lemma SentIsAnnounced(d: Db, r: Db, sent: seq<Signal>)
    requires Valid(d) && Less(d, r) && SentFor(d, r, sent)
    ensures Announced(ByName(d), ByName(r), sent)
  {
    hide Removed, NamesOf, Values;
    NamesAreKeys(d.keys);
    NamesAreKeys(d.certs);
    NamesAreKeys(r.keys);
    NamesAreKeys(r.certs);
    forall n
      ensures Removed(d.identities, r.identities, n) <==> n in NamesOf(d.identities) && n !in NamesOf(r.identities)
      ensures Removed(d.keys, r.keys, n) <==> n in NamesOf(d.keys) && n !in NamesOf(r.keys)
      ensures Removed(d.certs, r.certs, n) <==> n in NamesOf(d.certs) && n !in NamesOf(r.certs)
      ensures n in NamesOf(r.certs) ==> n in NamesOf(d.certs)
    {
      RemovedByName(d.identities, r.identities, n);
      RemovedByName(d.keys, r.keys, n);
      RemovedByName(d.certs, r.certs, n);
      FewerNames(d.certs, r.certs, n);
    }
  }

  lemma FewerNames<T>(t: Table<T>, r: Table<T>, n: Name)
    requires Fewer(t, r)
    ensures n in NamesOf(r) ==> n in NamesOf(t)
  {
    NamesAt(t, n);
    NamesAt(r, n);
    if n in NamesOf(r) {
      assert t[IdOf(r, n)].name == n;
    }
  }

  lemma ValidTables(d: Db)
    requires Valid(d)
    ensures Unique(d)
  {
  }

  /** After addIdentity the subselect of addKey finds one row. */
  lemma IdentityIsThere(d: Db, identity: Name, ids: RowIds)
    requires Valid(d) && ids.identity !in d.identities
    ensures var r := PibDbSpec.AddIdentity(d, identity, ids);
            UniqueNames(r.identities) && HasName(r.identities, identity) && r.keys == d.keys
  {
    AddIdentityRefines(d, identity, ids);
    hide UniqueNames, Rooted, OneDefault, Insert, HasName, HasDefault;
  }

  /** A certificate is announced exactly when its row is inserted. */
  lemma NewCertAnnounced(d: Db, cert: Certificate, ids: RowIds)
    requires Valid(d) && Unused(d, ids)
    ensures var d1 := if HasName(d.keys, cert.keyName) then d else PibDbSpec.AddKey(d, cert.keyName, cert.publicKey, ids);
            Announced(ByName(d), ByName(PibDbSpec.AddCertificate(d, cert, ids)),
                      if HasName(d1.keys, cert.keyName) && !HasName(d1.certs, cert.name)
                      then [CertInserted(cert.name)] else [])
  {
    hide Valid, Values, NamesOf, HasName, Insert, PibDbSpec.AddKey, PibDbSpec.AddCertificate, Announced, PutKey;
    var d1 := if HasName(d.keys, cert.keyName) then d else PibDbSpec.AddKey(d, cert.keyName, cert.publicKey, ids);
    AddCertificateRefines(d, cert, ids);
    if !HasName(d.keys, cert.keyName) {
      AddKeyRefines(d, cert.keyName, cert.publicKey, ids);
    }
    ValuesAt(d.keys, cert.keyName);
    ValuesAt(d1.keys, cert.keyName);
    ValuesAt(d1.certs, cert.name);
    PutAnnounced(ByName(d), cert);
  }

  lemma PutAnnounced(s: Store, cert: Certificate)
    ensures var r := PutCertificate(s, cert);
            var s1 := if cert.keyName in s.keys then s else PutKey(s, cert.keyName, cert.publicKey);
            Announced(s, r, if cert.name in s1.certs || cert.keyName !in s1.keys then [] else [CertInserted(cert.name)])
  {
  }

  class PibDb {
    var identities: Table<()>
    var keys: Table<Octets>
    var certs: Table<Certificate>
    var mgmt: Option<Certificate>
    var mgmtOwner: Option<Component>
    var owner: Option<Component>
    var lastInsertRowId: int

    /** The signals sent so far. */
    ghost var signals: seq<Signal>

    ghost function View(): Db
      reads this
    {
      Db(identities, keys, certs, mgmt, mgmtOwner, owner, lastInsertRowId)
    }

    constructor ()
      ensures View() == EMPTY && signals == []
    {
      identities, keys, certs := map[], map[], map[];
      mgmt, mgmtOwner, owner, lastInsertRowId := None, None, None, 0;
      signals := [];
    }

    // ---------------------------------------------------------------- deleting

    /** DELETE of one certificate row, and its trigger. */
    method DeleteCertRow(id: int)
      requires id in certs
      modifies this`certs, this`signals
      ensures certs == old(certs) - {id}
      ensures signals == old(signals) + [CertDeleted(old(certs)[id].name)]
    {
      var name := certs[id].name;
      certs := certs - {id};
      signals := signals + [CertDeleted(name)];
    }

    /** The cascade from one key row to its certificates. */
    method DeleteCertsOfKey(id: int, ghost d: Db) returns (ghost sent: seq<Signal>)
      requires Unique(d) && certs == d.certs
      modifies this`certs, this`signals
      ensures certs == d.certs - RowsUnder(d.certs, {id}) && signals == old(signals) + sent
      ensures Less(d, d.(certs := certs)) && SentFor(d, d.(certs := certs), sent)
    {
      hide SentFor, Less;
      var rest := RowsUnder(certs, {id});
      sent := [];
      NothingGone(d);
      while exists row :: row in rest
        invariant rest == RowsUnder(certs, {id}) && signals == old(signals) + sent
        invariant certs == d.certs - (RowsUnder(d.certs, {id}) - rest)
        invariant Less(d, d.(certs := certs)) && SentFor(d, d.(certs := certs), sent)
        decreases |rest|
      {
        var c: int :| c in rest;
        ghost var m := d.(certs := certs);
        CertRowGone(m, c);
        SentInTurn(d, m, DeleteCertRows(m, {c}), sent, [CertDeleted(m.certs[c].name)]);
        sent := sent + [CertDeleted(m.certs[c].name)];
        DeleteCertRow(c);
        rest := rest - {c};
      }
    }

    /** DELETE of one key row: the row goes first, then its certificates, and last its own
        signal is sent. */
    method DeleteKeyRow(id: int, ghost d: Db) returns (ghost sent: seq<Signal>)
      requires Unique(d) && id in keys && keys == d.keys && certs == d.certs
      modifies this`keys, this`certs, this`signals
      ensures var r := DeleteKeyRows(d, {id});
              && keys == r.keys && certs == r.certs && signals == old(signals) + sent
              && Less(d, r) && Unique(r) && SentFor(d, r, sent)
      ensures sent != [] && sent[|sent| - 1] == KeyDeleted(d.keys[id].name)
    {
      hide SentFor, Less;
      var name := keys[id].name;
      keys := keys - {id};
      sent := DeleteCertsOfKey(id, d);
      ghost var m := d.(certs := certs);
      KeyRowGone(m, id);
      SentInTurn(d, m, m.(keys := m.keys - {id}), sent, [KeyDeleted(name)]);
      sent := sent + [KeyDeleted(name)];
      signals := signals + [KeyDeleted(name)];
    }

    /** The cascade from one identity row to its keys. */
    method DeleteKeysOfIdentity(id: int, ghost d: Db) returns (ghost sent: seq<Signal>)
      requires Unique(d) && keys == d.keys && certs == d.certs
      modifies this`keys, this`certs, this`signals
      ensures var r := DeleteKeyRows(d, RowsUnder(d.keys, {id}));
              && keys == r.keys && certs == r.certs && signals == old(signals) + sent
              && Less(d, r) && Unique(r) && SentFor(d, r, sent)
    {
      hide SentFor, Less, Unique, DeleteKeyRows, RowsUnder;
      var rest := RowsUnder(keys, {id});
      ghost var under, gone, m := rest, {}, d;
      sent := [];
      NothingGone(d);
      NoKeyGone(d, under, id);
      while exists row :: row in rest
        invariant rest == under - gone && gone <= under
        invariant m == DeleteKeyRows(d, gone) && keys == m.keys && certs == m.certs
        invariant signals == old(signals) + sent
        invariant Less(d, m) && SentFor(d, m, sent) && Unique(m)
        decreases |rest|
      {
        var k: int :| k in rest;
        OneMoreKey(d, gone, k);
        ghost var more := DeleteKeyRow(k, m);
        SentInTurn(d, m, DeleteKeyRows(m, {k}), sent, more);
        sent := sent + more;
        rest, gone, m := rest - {k}, gone + {k}, DeleteKeyRows(m, {k});
      }
      assert gone == under;
    }

    /** DELETE of one identity row. */
    method DeleteIdentityRow(id: int) returns (ghost sent: seq<Signal>)
      requires Unique(View()) && id in identities
      modifies this`identities, this`keys, this`certs, this`signals
      ensures View() == DeleteIdentityRows(old(View()), {id}) && signals == old(signals) + sent
      ensures Less(old(View()), View()) && SentFor(old(View()), View(), sent)
      ensures sent != [] && sent[|sent| - 1] == IdentityDeleted(old(identities)[id].name)
    {
      hide SentFor, Less;
      ghost var d := View();
      var name := identities[id].name;
      identities := identities - {id};
      sent := DeleteKeysOfIdentity(id, d);
      ghost var m := DeleteKeyRows(d, RowsUnder(d.keys, {id}));
      IdentityRowGone(m, id);
      SentInTurn(d, m, m.(identities := m.identities - {id}), sent, [IdentityDeleted(name)]);
      sent := sent + [IdentityDeleted(name)];
      signals := signals + [IdentityDeleted(name)];
    }

    // DELETE ... WHERE name=?: the unique index leaves at most one row to delete.

    method DeleteIdentity(identity: Name) returns (ghost sent: seq<Signal>)
      requires Valid(View())
      modifies this`identities, this`keys, this`certs, this`signals
      ensures View() == DeleteIdentityRows(old(View()), RowsNamed(old(identities), identity))
      ensures signals == old(signals) + sent
      ensures Announced(ByName(old(View())), ByName(View()), sent)
    {
      hide Valid, SentFor, Less, Announced, ByName, DeleteIdentityRows, RowsNamed;
      sent := [];
      ValidTables(View());
      NothingGone(View());
      OnlyRow(identities, identity);
      NoIdentityGone(View());
      if HasName(identities, identity) {
        var id := SelectId(identities, identity);
        sent := DeleteIdentityRow(id);
      }
      SentIsAnnounced(old(View()), View(), sent);
    }

    method DeleteKey(keyName: Name) returns (ghost sent: seq<Signal>)
      requires Valid(View())
      modifies this`keys, this`certs, this`signals
      ensures View() == DeleteKeyRows(old(View()), RowsNamed(old(keys), keyName))
      ensures signals == old(signals) + sent
      ensures Announced(ByName(old(View())), ByName(View()), sent)
    {
      hide Valid, SentFor, Less, Announced, ByName, RowsNamed;
      sent := [];
      ValidTables(View());
      NothingGone(View());
      OnlyRow(keys, keyName);
      NoKeyGone(View(), {}, 0);
      if HasName(keys, keyName) {
        var id := SelectId(keys, keyName);
        sent := DeleteKeyRow(id, View());
      }
      SentIsAnnounced(old(View()), View(), sent);
    }

    method DeleteCertificate(certName: Name) returns (ghost sent: seq<Signal>)
      requires Valid(View())
      modifies this`certs, this`signals
      ensures View() == DeleteCertRows(old(View()), RowsNamed(old(certs), certName))
      ensures signals == old(signals) + sent
      ensures Announced(ByName(old(View())), ByName(View()), sent)
    {
      hide Valid, SentFor, Less, Announced, ByName, RowsNamed;
      sent := [];
      ValidTables(View());
      NothingGone(View());
      OnlyRow(certs, certName);
      if HasName(certs, certName) {
        var id := SelectId(certs, certName);
        CertRowGone(View(), id);
        sent := [CertDeleted(certName)];
        DeleteCertRow(id);
      }
      SentIsAnnounced(old(View()), View(), sent);
    }

    // ---------------------------------------------------------------- adding

    method AddIdentity(identity: Name, ids: RowIds) returns (rowId: int)
      requires ids.identity !in identities
      modifies this`identities, this`lastInsertRowId
      ensures View() == PibDbSpec.AddIdentity(old(View()), identity, ids) && rowId == lastInsertRowId
    {
      if !HasName(identities, identity) {
        identities := Insert(identities, ids.identity, NO_PARENT, identity, ());
        lastInsertRowId := ids.identity;
      }
      return lastInsertRowId;
    }

    method AddKey(keyName: Name, key: Octets, ids: RowIds) returns (rowId: int)
      requires Valid(View()) && ids.identity !in identities && ids.key !in keys
      modifies this`identities, this`keys, this`lastInsertRowId
      ensures View() == PibDbSpec.AddKey(old(View()), keyName, key, ids)
      ensures rowId == if keyName == [] then 0 else lastInsertRowId
    {
      hide Valid, Insert, HasName, UniqueNames, IdOf;
      if keyName == [] {
        return 0;
      }
      var identity := Parent(keyName);
      IdentityIsThere(View(), identity, ids);
      var _ := AddIdentity(identity, ids);
      if !HasName(keys, keyName) {
        var parent := SelectId(identities, identity);
        keys := Insert(keys, ids.key, parent, keyName, key);
        lastInsertRowId := ids.key;
      }
      return lastInsertRowId;
    }

    method AddCertificate(cert: Certificate, ids: RowIds) returns (rowId: int, ghost sent: seq<Signal>)
      requires Valid(View()) && Unused(View(), ids)
      modifies this`identities, this`keys, this`certs, this`lastInsertRowId, this`signals
      ensures View() == PibDbSpec.AddCertificate(old(View()), cert, ids) && rowId == lastInsertRowId
      ensures signals == old(signals) + sent && Announced(ByName(old(View())), ByName(View()), sent)
    {
      hide Valid, ByName, Insert, HasName, PibDbSpec.AddKey, PutCertificate, Announced;
      ghost var d := View();
      NewCertAnnounced(d, cert, ids);
      ValidTables(d);
      if !HasName(keys, cert.keyName) {
        AddKeyRefines(d, cert.keyName, cert.publicKey, ids);
        ValidTables(PibDbSpec.AddKey(d, cert.keyName, cert.publicKey, ids));
        var _ := AddKey(cert.keyName, cert.publicKey, ids);
      }
      sent := [];
      if HasName(keys, cert.keyName) && !HasName(certs, cert.name) {
        var parent := SelectId(keys, cert.keyName);
        certs := Insert(certs, ids.cert, parent, cert.name, cert);
        lastInsertRowId := ids.cert;
        sent := [CertInserted(cert.name)];
        signals := signals + sent;
      }
      return lastInsertRowId, sent;
    }

    // ---------------------------------------------------------------- defaults

    method SetDefaultIdentity(identity: Name)
      modifies this`identities
      ensures identities == SetDefault(old(identities), identity)
    {
      identities := SetDefault(identities, identity);
    }

    method SetDefaultKeyNameOfIdentity(keyName: Name)
      modifies this`keys
      ensures keys == SetDefault(old(keys), keyName)
    {
      keys := SetDefault(keys, keyName);
    }

    method SetDefaultCertNameOfKey(certName: Name)
      modifies this`certs
      ensures certs == SetDefault(old(certs), certName)
    {
      certs := SetDefault(certs, certName);
    }

    // ---------------------------------------------------------------- management

    /** False when the certificate is refused, which the source reports by an exception. */
    method UpdateMgmtCertificate(cert: Certificate, rowId: int) returns (accepted: bool)
      modifies this`mgmt, this`mgmtOwner, this`owner, this`lastInsertRowId, this`signals
      ensures View() == PibDbSpec.UpdateMgmtCertificate(old(View()), cert, rowId)
      ensures accepted == !MgmtRefused(old(View()), cert)
      ensures signals == if accepted then old(signals) + [MgmtChanged] else old(signals)
    {
      if |cert.keyName| != 5 || cert.keyName[..2] != LOCALHOST_PIB || cert.keyName[3] != MGMT_LABEL {
        return false;
      }
      var owner := cert.keyName[2];
      if this.owner.Some? {
        if this.owner.value != owner {
          return false;
        }
        if mgmtOwner == Some(owner) {
          mgmt := Some(cert);
        }
      } else {
        mgmt, mgmtOwner, lastInsertRowId := Some(cert), Some(owner), rowId;
      }
      this.owner := Some(owner);
      signals := signals + [MgmtChanged];
      return true;
    }

    // ---------------------------------------------------------------- reading

    /** SELECT identity FROM identities, in whatever order the rows come. */
    method ListIdentities() returns (names: seq<Name>)
      requires Valid(View())
      ensures Distinct(names) && forall n :: n in names <==> n in ByName(View()).identities
    {
      names := SelectNames(identities, identities.Keys);
    }

    method ListKeyNamesOfIdentity(identity: Name) returns (names: seq<Name>)
      requires Valid(View())
      ensures Distinct(names)
      ensures forall n :: n in names <==> n in ByName(View()).keys && Parent(n) == identity
    {
      names := SelectJoined(identities, keys, IdentityOf, identity);
    }

    method ListCertNamesOfKey(keyName: Name) returns (names: seq<Name>)
      requires Valid(View())
      ensures Distinct(names)
      ensures forall n :: n in names <==> n in ByName(View()).certs && ByName(View()).certs[n].keyName == keyName
    {
      names := SelectJoined(keys, certs, KeyOf, keyName);
    }

    method GetKey(keyName: Name) returns (key: Option<Octets>)
      requires Valid(View())
      ensures key == var all := ByName(View()).keys; if keyName in all then Some(all[keyName]) else None
    {
      key := SelectValue(keys, keyName);
    }

    method GetCertificate(certName: Name) returns (cert: Option<Certificate>)
      requires Valid(View())
      ensures cert == var all := ByName(View()).certs; if certName in all then Some(all[certName]) else None
    {
      cert := SelectValue(certs, certName);
    }

    /** The one default key of an identity; None stands for NON_EXISTING_KEY. */
    method GetDefaultKeyNameOfIdentity(identity: Name) returns (keyName: Option<Name>)
      requires Valid(View())
      ensures keyName == if HasName(identities, identity) then DefaultName(keys, IdOf(identities, identity)) else None
      ensures keyName.Some? ==> keyName.value in ByName(View()).keys && Parent(keyName.value) == identity
    {
      keyName := SelectDefault(identities, keys, IdentityOf, identity);
    }

    method GetDefaultCertNameOfKey(keyName: Name) returns (certName: Option<Name>)
      requires Valid(View())
      ensures certName == if HasName(keys, keyName) then DefaultName(certs, IdOf(keys, keyName)) else None
      ensures certName.Some? ==>
                certName.value in ByName(View()).certs && ByName(View()).certs[certName.value].keyName == keyName
    {
      certName := SelectDefault(keys, certs, KeyOf, keyName);
    }
  }

  // ------------------------------------------------------------------ SELECT statements

  /** The subselect for one row id. */
  method SelectId<T>(t: Table<T>, name: Name) returns (id: int)
    requires UniqueNames(t) && HasName(t, name)
    ensures id == IdOf(t, name)
  {
    id :| id in t && t[id].name == name;
  }

  /** The names of some rows, each once, in whatever order. */
  method SelectNames<T>(t: Table<T>, rows: set<int>) returns (names: seq<Name>)
    requires UniqueNames(t) && forall i :: i in rows ==> i in t
    ensures Distinct(names) && forall n :: n in names <==> exists i :: i in rows && t[i].name == n
  {
    var rest := rows;
    names := [];
    while exists i :: i in rest
      invariant rest <= rows && Distinct(names)
      invariant forall n :: n in names <==> exists i :: i in rows - rest && t[i].name == n
      decreases |rest|
    {
      var i: int :| i in rest;
      ghost var seen := names;
      assert t[i].name !in seen;
      names := names + [t[i].name];
      rest := rest - {i};
      assert forall n :: n in names <==> n in seen || n == t[i].name;
    }
    assert rows - rest == rows;
  }

  method SelectValue<T>(t: Table<T>, name: Name) returns (value: Option<T>)
    requires Sound(t)
    ensures value == if name in Values(t) then Some(Values(t)[name]) else None
  {
    ValuesAt(t, name);
    if HasName(t, name) {
      var id := SelectId(t, name);
      return Some(t[id].value);
    }
    return None;
  }

  /** SELECT name FROM t JOIN p ON t.parent=p.id WHERE p.name=?; the joined rows are those whose
      own name and value stand for `parentName`. */
  method SelectJoined<S, T>(p: Table<S>, t: Table<T>, ghost f: (Name, T) -> Name, parentName: Name)
    returns (names: seq<Name>)
    requires Sound(p) && Sound(t) && Rooted(p, t, f)
    ensures Distinct(names)
    ensures forall n :: n in names <==> n in Values(t) && f(n, Values(t)[n]) == parentName
  {
    var joined := RowsUnder(t, RowsNamed(p, parentName));
    names := SelectNames(t, joined);
    forall n
      ensures n in names <==> n in Values(t) && f(n, Values(t)[n]) == parentName
    {
      if n in Values(t) {
        var i := RowOf(t, n);
        assert i in joined <==> p[t[i].parent].name == parentName;
      }
      if n in names {
        ghost var i :| i in joined && t[i].name == n;
        FindIs(t, i);
        ValuesAt(t, n);
      }
    }
  }

  /** The name of the default row of a group. */
  ghost function DefaultName<T>(t: Table<T>, parent: int): Option<Name> {
    if HasDefault(t, parent) then
      var i :| i in t && t[i].parent == parent && t[i].isDefault;
      Some(t[i].name)
    else None
  }

  /** What is set as default is read back as the default of its group, and the defaults of the
      other groups are as before. */
  lemma SetDefaultIsReadBack<T>(t: Table<T>, name: Name, parent: int)
    requires Sound(t) && HasName(t, name)
    ensures DefaultName(SetDefault(t, name), parent) ==
            if parent == t[IdOf(t, name)].parent then Some(name) else DefaultName(t, parent)
  {
    SetDefaultMeans(t, name);
    var r, id := SetDefault(t, name), IdOf(t, name);
    if parent == t[id].parent {
      assert r[id].isDefault && r[id].parent == parent;
    } else {
      assert forall i :: i in t && t[i].parent == parent ==> r[i].isDefault == t[i].isDefault;
      if HasDefault(t, parent) {
        var i :| i in t && t[i].parent == parent && t[i].isDefault;
        assert r[i].isDefault && r[i].parent == parent;
      }
    }
  }

  /** The first row of a group, and the first one after the default was deleted, becomes the
      default; any other insertion leaves the default as it is. */
  lemma InsertedDefaultIsReadBack<T>(t: Table<T>, id: int, parent: int, name: Name, value: T)
    requires Sound(t) && id !in t && !HasName(t, name)
    ensures var r := Insert(t, id, parent, name, value);
            DefaultName(r, parent) == if HasDefault(t, parent) then DefaultName(t, parent) else Some(name)
  {
    InsertMeans(t, id, parent, name, value);
    var r := Insert(t, id, parent, name, value);
    assert r[id].parent == parent && r[id].name == name;
    if HasDefault(t, parent) {
      var i :| i in t && t[i].parent == parent && t[i].isDefault;
      assert r[i] == t[i];
    }
  }

  /** SELECT name FROM t JOIN p ON t.parent=p.id WHERE p.name=? AND is_default=1. */
  method SelectDefault<S, T>(p: Table<S>, t: Table<T>, ghost f: (Name, T) -> Name, parentName: Name)
    returns (name: Option<Name>)
    requires Sound(p) && Sound(t) && Rooted(p, t, f)
    ensures name == if HasName(p, parentName) then DefaultName(t, IdOf(p, parentName)) else None
    ensures name.Some? ==> name.value in Values(t) && f(name.value, Values(t)[name.value]) == parentName
  {
    name := None;
    if HasName(p, parentName) {
      var id := SelectId(p, parentName);
      if HasDefault(t, id) {
        var i :| i in t && t[i].parent == id && t[i].isDefault;
        FindIs(t, i);
        ValuesAt(t, t[i].name);
        name := Some(t[i].name);
      }
    }
  }

  lemma NoIdentityGone(d: Db)
    ensures DeleteIdentityRows(d, {}) == d
  {
    assert RowsUnder(d.keys, {}) == {} && d.identities - {} == d.identities;
    NoKeyGone(d, {}, 0);
  }

  lemma NoKeyGone(d: Db, under: set<int>, id: int)
    requires under <= RowsUnder(d.keys, {id})
    ensures DeleteKeyRows(d, {}) == d && forall k :: k in under ==> k in d.keys
  {
    assert RowsUnder(d.certs, {}) == {};
    assert d.certs - {} == d.certs && d.keys - {} == d.keys;
  }

  lemma OneMoreKey(d: Db, gone: set<int>, k: int)
    requires k in d.keys && k !in gone
    ensures k in DeleteKeyRows(d, gone).keys
    ensures DeleteKeyRows(DeleteKeyRows(d, gone), {k}) == DeleteKeyRows(d, gone + {k})
  {
    var m := DeleteKeyRows(d, gone);
    assert RowsUnder(d.certs, gone + {k}) == RowsUnder(d.certs, gone) + RowsUnder(m.certs, {k});
    assert d.keys - gone - {k} == d.keys - (gone + {k});
  }

  lemma OnlyRow<T>(t: Table<T>, name: Name)
    requires UniqueNames(t)
    ensures !HasName(t, name) ==> RowsNamed(t, name) == {} && t - {} == t
    ensures forall id :: id in t && t[id].name == name ==> RowsNamed(t, name) == {id}
  {
    if id :| id in t && t[id].name == name {
      assert forall row :: row in RowsNamed(t, name) <==> row == id;
      assert RowsNamed(t, name) == {id};
    } else {
      assert forall row :: row !in RowsNamed(t, name);
      assert RowsNamed(t, name) == {};
    }
  }
}
