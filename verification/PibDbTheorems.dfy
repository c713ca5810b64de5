/** The database keeps its invariant over every sequence of operations, and is, by name, the
    simple store. */
module PibDbTheorems {
  import opened Bytes
  import opened Names
  import opened Optional
  import opened PibTable
  import opened PibDbSpec
  import opened PibStore

  /** The database by name. */
  ghost function ByName(d: Db): Store { Store(NamesOf(d.identities), Values(d.keys), Values(d.certs)) }

  /** One operation keeps the invariant and does to the names what the simple store does. */
  ghost predicate Refines(d: Db, r: Db, s: Store) { Valid(r) && ByName(r) == s }

  // ------------------------------------------------------------------ adding

  lemma AddIdentityRefines(d: Db, identity: Name, ids: RowIds)
    requires Valid(d) && ids.identity !in d.identities
    ensures Refines(d, AddIdentity(d, identity, ids), PutIdentity(ByName(d), identity))
    ensures HasName(AddIdentity(d, identity, ids).identities, identity)
  {
    hide Insert, UniqueNames, OneDefault, HasDefault, Rooted, NamesOf, Values;
    InsertMeans(d.identities, ids.identity, NO_PARENT, identity, ());
    InsertNames(d.identities, ids.identity, NO_PARENT, identity, ());
    var r := AddIdentity(d, identity, ids);
    GrowingKeepsRoots(d.identities, r.identities, d.keys, IdentityOf);
  }

  /** One more key row, under the identity that its name extends. */
  lemma KeyRowRefines(d: Db, keyName: Name, key: Octets, id: int)
    requires Valid(d) && id !in d.keys && keyName != [] && !HasName(d.keys, keyName)
    requires HasName(d.identities, Parent(keyName))
    ensures var r := d.(keys := Insert(d.keys, id, IdOf(d.identities, Parent(keyName)), keyName, key), lastRowId := id);
            Refines(d, r, ByName(d).(keys := ByName(d).keys[keyName := key]))
  {
    hide Insert, UniqueNames, OneDefault, HasDefault, HasName, Rooted, NamesOf, Values;
    var parent := IdOf(d.identities, Parent(keyName));
    InsertMeans(d.keys, id, parent, keyName, key);
    InsertValues(d.keys, id, parent, keyName, key);
    ValuesAt(d.keys, keyName);
    var r := Insert(d.keys, id, parent, keyName, key);
    InsertKeepsRoots(d.identities, d.keys, IdentityOf, id, parent, keyName, key);
    GrowingKeepsRoots(d.keys, r, d.certs, KeyOf);
  }

  lemma AddKeyRefines(d: Db, keyName: Name, key: Octets, ids: RowIds)
    requires Valid(d) && ids.identity !in d.identities && ids.key !in d.keys
    ensures Refines(d, AddKey(d, keyName, key, ids), PutKey(ByName(d), keyName, key))
    ensures AddKey(d, keyName, key, ids).certs == d.certs
  {
    hide Valid, Values, NamesOf, HasName, Insert;
    if keyName != [] {
      var d1 := AddIdentity(d, Parent(keyName), ids);
      AddIdentityRefines(d, Parent(keyName), ids);
      ValuesAt(d.keys, keyName);
      if !HasName(d.keys, keyName) {
        KeyRowRefines(d1, keyName, key, ids.key);
      }
    }
  }

  /** One more certificate row, under the key that its name stands for. */
  lemma CertRowRefines(d: Db, cert: Certificate, id: int)
    requires Valid(d) && id !in d.certs && !HasName(d.certs, cert.name) && HasName(d.keys, cert.keyName)
    ensures var r := d.(certs := Insert(d.certs, id, IdOf(d.keys, cert.keyName), cert.name, cert), lastRowId := id);
            Refines(d, r, ByName(d).(certs := ByName(d).certs[cert.name := cert]))
  {
    hide Insert, UniqueNames, OneDefault, HasDefault, HasName, Rooted, NamesOf, Values;
    var parent := IdOf(d.keys, cert.keyName);
    InsertMeans(d.certs, id, parent, cert.name, cert);
    InsertValues(d.certs, id, parent, cert.name, cert);
    ValuesAt(d.certs, cert.name);
    InsertKeepsRoots(d.keys, d.certs, KeyOf, id, parent, cert.name, cert);
  }

  lemma AddCertificateRefines(d: Db, cert: Certificate, ids: RowIds)
    requires Valid(d) && Unused(d, ids)
    ensures Refines(d, AddCertificate(d, cert, ids), PutCertificate(ByName(d), cert))
  {
    hide Valid, Values, NamesOf, HasName, Insert, AddKey, PutKey;
    ValuesAt(d.keys, cert.keyName);
    var d1 := if HasName(d.keys, cert.keyName) then d else AddKey(d, cert.keyName, cert.publicKey, ids);
    if !HasName(d.keys, cert.keyName) {
      AddKeyRefines(d, cert.keyName, cert.publicKey, ids);
    }
    ValuesAt(d1.keys, cert.keyName);
    ValuesAt(d1.certs, cert.name);
    if !HasName(d1.certs, cert.name) && HasName(d1.keys, cert.keyName) {
      CertRowRefines(d1, cert, ids.cert);
    }
  }

  // ------------------------------------------------------------------ deleting

  lemma DeleteCertRowsKeeps(d: Db, gone: set<int>)
    requires Valid(d)
    ensures Valid(DeleteCertRows(d, gone))
  {
  }

  lemma DeleteKeyRowsKeeps(d: Db, gone: set<int>)
    requires Valid(d)
    ensures Valid(DeleteKeyRows(d, gone))
  {
    hide UniqueNames, OneDefault, Rooted, Values, RowsUnder;
    var away := RowsUnder(d.certs, gone);
    Cascade(d.keys, d.certs, KeyOf, gone);
    RemoveKeeps(d.keys, gone);
    RemoveKeeps(d.certs, away);
    RootsStay(d.identities, d.keys, IdentityOf, gone);
  }

  lemma RootsStay<S, T>(p: Table<S>, t: Table<T>, f: (Name, T) -> Name, gone: set<int>)
    requires Rooted(p, t, f)
    ensures Rooted(p, t - gone, f)
  {
  }

  lemma DeleteIdentityRowsKeeps(d: Db, gone: set<int>)
    requires Valid(d)
    ensures Valid(DeleteIdentityRows(d, gone))
  {
    hide UniqueNames, OneDefault, Rooted, Values, RowsUnder;
    DeleteKeyRowsKeeps(d, RowsUnder(d.keys, gone));
    Cascade(d.identities, d.keys, IdentityOf, gone);
    RemoveKeeps(d.identities, gone);
  }

  lemma DeleteCertRefines(d: Db, certName: Name)
    requires Valid(d)
    ensures Refines(d, DeleteCertRows(d, RowsNamed(d.certs, certName)), DropCertificate(ByName(d), certName))
  {
    DeleteCertRowsKeeps(d, RowsNamed(d.certs, certName));
    RemovedNamed(d.certs, certName);
  }

  lemma NamesAreKeys<T>(t: Table<T>)
    ensures Values(t).Keys == NamesOf(t)
  {
  }

  lemma DeleteKeyRefines(d: Db, keyName: Name)
    requires Valid(d)
    ensures Refines(d, DeleteKeyRows(d, RowsNamed(d.keys, keyName)), DropKey(ByName(d), keyName))
  {
    hide UniqueNames, OneDefault, Rooted, Values, RowsUnder, RowsNamed, NamesOf;
    var gone := RowsNamed(d.keys, keyName);
    DeleteKeyRowsKeeps(d, gone);
    RemovedNamed(d.keys, keyName);
    NamesAreKeys(d.keys);
    NamesAreKeys(d.keys - gone);
    Cascade(d.keys, d.certs, KeyOf, gone);
    assert DropKey(ByName(d), keyName).certs == Values(d.certs - RowsUnder(d.certs, gone));
  }

  lemma KeysOfIdentityGone(d: Db, identity: Name)
    requires Valid(d)
    ensures var gone := RowsNamed(d.identities, identity);
            Values(d.keys - RowsUnder(d.keys, gone)) == DropIdentity(ByName(d), identity).keys
  {
    hide UniqueNames, OneDefault, Rooted, Values, RowsUnder, RowsNamed, NamesOf;
    RemovedNames(d.identities, identity);
    Cascade(d.identities, d.keys, IdentityOf, RowsNamed(d.identities, identity));
  }

  lemma CertsOfIdentityGone(d: Db, identity: Name)
    requires Valid(d)
    ensures var goneKeys := RowsUnder(d.keys, RowsNamed(d.identities, identity));
            Values(d.certs - RowsUnder(d.certs, goneKeys)) == DropIdentity(ByName(d), identity).certs
  {
    hide UniqueNames, OneDefault, Rooted, Values, RowsUnder, RowsNamed, NamesOf;
    var goneKeys := RowsUnder(d.keys, RowsNamed(d.identities, identity));
    KeysOfIdentityGone(d, identity);
    NamesAreKeys(d.keys);
    NamesAreKeys(d.keys - goneKeys);
    Cascade(d.keys, d.certs, KeyOf, goneKeys);
  }

  lemma DeleteIdentityRefines(d: Db, identity: Name)
    requires Valid(d)
    ensures Refines(d, DeleteIdentityRows(d, RowsNamed(d.identities, identity)), DropIdentity(ByName(d), identity))
  {
    hide Valid, Values, RowsUnder, RowsNamed, NamesOf;
    DeleteIdentityRowsKeeps(d, RowsNamed(d.identities, identity));
    RemovedNames(d.identities, identity);
    KeysOfIdentityGone(d, identity);
    CertsOfIdentityGone(d, identity);
  }

  // ------------------------------------------------------------------ defaults and management

  lemma SetDefaultIdentityRefines(d: Db, identity: Name)
    requires Valid(d)
    ensures Refines(d, d.(identities := SetDefault(d.identities, identity)), ByName(d))
  {
    hide UniqueNames, OneDefault, Rooted, Values, NamesOf, SetDefault;
    SetDefaultMeans(d.identities, identity);
    SetDefaultNames(d.identities, identity);
    GrowingKeepsRoots(d.identities, SetDefault(d.identities, identity), d.keys, IdentityOf);
  }

  lemma SetDefaultKeyRefines(d: Db, keyName: Name)
    requires Valid(d)
    ensures Refines(d, d.(keys := SetDefault(d.keys, keyName)), ByName(d))
  {
    hide UniqueNames, OneDefault, Rooted, Values, NamesOf, SetDefault;
    SetDefaultMeans(d.keys, keyName);
    SameValues(d.keys, SetDefault(d.keys, keyName));
    SetDefaultKeepsRoots(d.identities, d.keys, IdentityOf, keyName);
    GrowingKeepsRoots(d.keys, SetDefault(d.keys, keyName), d.certs, KeyOf);
  }

  lemma SetDefaultCertRefines(d: Db, certName: Name)
    requires Valid(d)
    ensures Refines(d, d.(certs := SetDefault(d.certs, certName)), ByName(d))
  {
    hide UniqueNames, OneDefault, Rooted, Values, NamesOf, SetDefault;
    SetDefaultMeans(d.certs, certName);
    SameValues(d.certs, SetDefault(d.certs, certName));
    SetDefaultKeepsRoots(d.keys, d.certs, KeyOf, certName);
  }

  // ------------------------------------------------------------------ whole runs

  lemma ApplyRefines(d: Db, op: Op)
    requires Valid(d) && Chosen(d, op)
    ensures Refines(d, Apply(d, op), Perform(ByName(d), op))
  {
    hide Valid, ByName;
    match op
    case AddIdentityOp(identity, ids) => AddIdentityRefines(d, identity, ids);
    case DeleteIdentityOp(identity) => DeleteIdentityRefines(d, identity);
    case SetDefaultIdentityOp(identity) => SetDefaultIdentityRefines(d, identity);
    case AddKeyOp(keyName, key, ids) => AddKeyRefines(d, keyName, key, ids);
    case DeleteKeyOp(keyName) => DeleteKeyRefines(d, keyName);
    case SetDefaultKeyOp(keyName) => SetDefaultKeyRefines(d, keyName);
    case AddCertificateOp(cert, ids) => AddCertificateRefines(d, cert, ids);
    case DeleteCertificateOp(certName) => DeleteCertRefines(d, certName);
    case SetDefaultCertOp(certName) => SetDefaultCertRefines(d, certName);
    case UpdateMgmtOp(cert, rowId) => UpdateMgmtRefines(d, cert, rowId);
  }

  lemma UpdateMgmtRefines(d: Db, cert: Certificate, rowId: int)
    requires Valid(d)
    ensures Refines(d, UpdateMgmtCertificate(d, cert, rowId), ByName(d))
  {
  }

  /** The row ids are unused at every step. */
  ghost predicate Playable(d: Db, ops: seq<Op>)
    decreases |ops|
  {
    ops == [] || (Chosen(d, ops[0]) && Playable(Apply(d, ops[0]), ops[1..]))
  }

  ghost function Run(d: Db, ops: seq<Op>): Db
    requires Playable(d, ops)
    decreases |ops|
  {
    if ops == [] then d else Run(Apply(d, ops[0]), ops[1..])
  }

  function PerformAll(s: Store, ops: seq<Op>): Store
    decreases |ops|
  {
    if ops == [] then s else PerformAll(Perform(s, ops[0]), ops[1..])
  }

  lemma {:induction false} RunRefines(d: Db, ops: seq<Op>)
    requires Valid(d) && Playable(d, ops)
    ensures Valid(Run(d, ops)) && ByName(Run(d, ops)) == PerformAll(ByName(d), ops)
    decreases |ops|
  {
    hide Valid, ByName, Apply, Perform;
    if ops != [] {
      ApplyRefines(d, ops[0]);
      RunRefines(Apply(d, ops[0]), ops[1..]);
    }
  }

  lemma EmptyIsValid()
    ensures Valid(EMPTY) && ByName(EMPTY) == Store({}, map[], map[])
  {
    hide Valid;
    EmptyInvariant();
    NamesAreKeys(EMPTY.keys);
    NamesAreKeys(EMPTY.certs);
    assert Values(EMPTY.keys) == map[] && Values(EMPTY.certs) == map[];
  }

  lemma EmptyInvariant()
    ensures Valid(EMPTY)
  {
    hide UpdateMgmtCertificate, Insert, SetDefault, HasName, HasDefault, Values, NamesOf;
  }

  /** Whatever sequence of operations is applied to an empty PIB, with whatever row ids, the
      names unique, the defaults at most one to a group, every key rooted in the identity its
      name extends and every certificate in its key; and the content is the simple store's. */
  lemma DatabaseRefinesStore(ops: seq<Op>)
    requires Playable(EMPTY, ops)
    ensures var d := Run(EMPTY, ops);
            Valid(d) && ByName(d) == PerformAll(Store({}, map[], map[]), ops)
  {
    hide Valid, ByName, Run, Playable;
    EmptyIsValid();
    RunRefines(EMPTY, ops);
  }

  // ------------------------------------------------------------------ the management certificate

  /** /localhost/pib/user/mgmt/key-id */
  ghost predicate ManagementKey(keyName: Name, user: Component) {
    exists keyId :: keyName == [Spelled("localhost"), Spelled("pib"), user, Spelled("mgmt"), keyId]
  }

  /** A management certificate is refused exactly when its key name is not a management key's, or a
      user's other than that of the certificate there is. */
  lemma AcceptedExactly(d: Db, cert: Certificate)
    requires Valid(d)
    ensures !MgmtRefused(d, cert) <==>
            exists user :: ManagementKey(cert.keyName, user)
                           && (d.mgmt.Some? ==> ManagementKey(d.mgmt.value.keyName, user))
  {
    NamedByConvention(cert.keyName);
    if d.mgmt.Some? {
      NamedByConvention(d.mgmt.value.keyName);
    }
  }

  lemma NamedByConvention(n: Name)
    ensures FollowsConvention(n) ==> ManagementKey(n, n[2])
    ensures forall user :: ManagementKey(n, user) ==> FollowsConvention(n) && n[2] == user
  {
    if FollowsConvention(n) {
      assert n[0] == n[..2][0] && n[1] == n[..2][1];
      assert n == [Spelled("localhost"), Spelled("pib"), n[2], Spelled("mgmt"), n[4]];
    }
    forall user | ManagementKey(n, user)
      ensures FollowsConvention(n) && n[2] == user
    {
      assert n[..2] == [n[0], n[1]];
    }
  }

  /** An accepted certificate is stored, whether the row was there or not, and its row id is the last
      one if the row is new; a refused one changes nothing. */
  lemma AcceptedIsStored(d: Db, cert: Certificate, rowId: int)
    requires Valid(d)
    ensures var r := UpdateMgmtCertificate(d, cert, rowId);
            if MgmtRefused(d, cert) then r == d
            else
              && r.mgmt == Some(cert) && r.owner == r.mgmtOwner == Some(cert.keyName[2])
              && r.lastRowId == (if d.mgmt.None? then rowId else d.lastRowId)
              && r.identities == d.identities && r.keys == d.keys && r.certs == d.certs
  {
  }

  /** The certificate that the updates among the operations leave: the last one of the user whose
      came first. */
  ghost function LastAccepted(m: Option<Certificate>, ops: seq<Op>): Option<Certificate>
    decreases |ops|
  {
    if ops == [] then m
    else
      var accepted := ops[0].UpdateMgmtOp? &&
        exists user :: ManagementKey(ops[0].cert.keyName, user) && (m.Some? ==> ManagementKey(m.value.keyName, user));
      LastAccepted(if accepted then Some(ops[0].cert) else m, ops[1..])
  }

  lemma OthersKeepMgmt(d: Db, op: Op)
    requires Chosen(d, op) && !op.UpdateMgmtOp?
    ensures Apply(d, op).mgmt == d.mgmt
  {
    hide Insert, HasName, IdOf, RowsUnder, RowsNamed, SetDefault;
  }

  lemma {:induction false} RunKeepsMgmt(d: Db, ops: seq<Op>)
    requires Valid(d) && Playable(d, ops)
    ensures Run(d, ops).mgmt == LastAccepted(d.mgmt, ops)
    decreases |ops|
  {
    hide Valid, ByName, Apply, ManagementKey, MgmtRefused;
    if ops != [] {
      var op := ops[0];
      ApplyRefines(d, op);
      if op.UpdateMgmtOp? {
        AcceptedExactly(d, op.cert);
        AcceptedIsStored(d, op.cert, op.rowId);
        UpdateApplies(d, op);
      } else {
        OthersKeepMgmt(d, op);
      }
      RunKeepsMgmt(Apply(d, op), ops[1..]);
    }
  }

  lemma UpdateApplies(d: Db, op: Op)
    requires op.UpdateMgmtOp?
    ensures Apply(d, op) == UpdateMgmtCertificate(d, op.cert, op.rowId)
  {
  }

  /** Over every sequence of operations from an empty PIB the management certificate is that of the
      last accepted update. */
  lemma MgmtIsLastAccepted(ops: seq<Op>)
    requires Playable(EMPTY, ops)
    ensures Run(EMPTY, ops).mgmt == LastAccepted(None, ops)
  {
    hide Valid, Run, Playable, LastAccepted;
    EmptyIsValid();
    RunKeepsMgmt(EMPTY, ops);
  }

  // ------------------------------------------------------------------ defaults

  /** Setting a default makes the identity, key or certificate of that name the only default among all
      identities, the keys of its identity or the certificates of its key, and changes nothing else. */
  lemma DefaultsExactly(d: Db, name: Name)
    requires Valid(d)
    ensures var r := Apply(d, SetDefaultIdentityOp(name));
            r == d.(identities := r.identities) && MadeDefault(d.identities, r.identities, name)
    ensures var r := Apply(d, SetDefaultKeyOp(name));
            r == d.(keys := r.keys) && MadeDefault(d.keys, r.keys, name)
    ensures var r := Apply(d, SetDefaultCertOp(name));
            r == d.(certs := r.certs) && MadeDefault(d.certs, r.certs, name)
  {
    hide MadeDefault, SetDefault, UniqueNames, OneDefault, Rooted;
    SetDefaultMakes(d.identities, name);
    SetDefaultMakes(d.keys, name);
    SetDefaultMakes(d.certs, name);
  }

  // ------------------------------------------------------------------ row ids returned

  /** What addIdentity is documented to return: the row id of the identity it has added, and 0
      when the insert fails. */
  ghost predicate ReturnsAsPromised(d: Db, identity: Name, ids: RowIds)
    requires ids.identity !in d.identities
  {
    var r := AddIdentity(d, identity, ids);
    if HasName(d.identities, identity) then r.lastRowId == 0
    else HasName(r.identities, identity) && r.lastRowId == IdOf(r.identities, identity)
  }

  /** It does so exactly when the identity is new or nothing has been inserted on the connection,
      whose last row id is then 0: a failed insert returns the last row id, whatever it is.  That
      is the identity's own exactly when the two numbers are the same. */
  lemma AddIdentityReturns(d: Db, identity: Name, ids: RowIds)
    requires Valid(d) && ids.identity !in d.identities
    ensures ReturnsAsPromised(d, identity, ids) <==> !HasName(d.identities, identity) || d.lastRowId == 0
    ensures var r := AddIdentity(d, identity, ids);
            && HasName(r.identities, identity)
            && (r.lastRowId == IdOf(r.identities, identity) <==>
                  !HasName(d.identities, identity) || d.lastRowId == IdOf(d.identities, identity))
  {
    InsertNames(d.identities, ids.identity, NO_PARENT, identity, ());
    InsertMeans(d.identities, ids.identity, NO_PARENT, identity, ());
  }

  /** addKey returns the row id of a key that is new; otherwise nothing is inserted, and it returns the
      last row id. */
  lemma AddKeyReturns(d: Db, keyName: Name, key: Octets, ids: RowIds)
    requires Valid(d) && ids.identity !in d.identities && ids.key !in d.keys && keyName != []
    ensures var r := AddKey(d, keyName, key, ids);
            if HasName(d.keys, keyName) then r.lastRowId == d.lastRowId
            else HasName(r.keys, keyName) && r.lastRowId == IdOf(r.keys, keyName)
  {
    AddIdentityRefines(d, Parent(keyName), ids);
    if HasName(d.keys, keyName) {
      KeyHasIdentity(d, keyName);
    } else {
      var parent := IdOf(AddIdentity(d, Parent(keyName), ids).identities, Parent(keyName));
      NewRow(d.keys, ids.key, parent, keyName, key);
    }
  }

  lemma KeyHasIdentity(d: Db, keyName: Name)
    requires Valid(d) && HasName(d.keys, keyName)
    ensures HasName(d.identities, Parent(keyName))
  {
    var k := IdOf(d.keys, keyName);
    assert d.identities[d.keys[k].parent].name == Parent(keyName);
  }

  lemma NewRow<T>(t: Table<T>, id: int, parent: int, name: Name, value: T)
    requires Sound(t) && id !in t && !HasName(t, name)
    ensures var r := Insert(t, id, parent, name, value); HasName(r, name) && IdOf(r, name) == id
  {
    hide Insert, HasDefault, OneDefault;
    InsertMeans(t, id, parent, name, value);
    var r := Insert(t, id, parent, name, value);
    assert r[id].name == name;
    FindIs(r, id);
  }

  /** addCertificate returns the row id of a certificate that is new and has a key. */
  lemma AddCertificateReturns(d: Db, cert: Certificate, ids: RowIds)
    requires Valid(d) && Unused(d, ids) && !HasName(d.certs, cert.name) && cert.keyName != []
    ensures var r := AddCertificate(d, cert, ids);
            HasName(r.certs, cert.name) && r.lastRowId == IdOf(r.certs, cert.name) == ids.cert
  {
    var d1 := if HasName(d.keys, cert.keyName) then d else AddKey(d, cert.keyName, cert.publicKey, ids);
    AddKeyRefines(d, cert.keyName, cert.publicKey, ids);
    KeyIsThere(d, cert.keyName, cert.publicKey, ids);
    NewRow(d.certs, ids.cert, IdOf(d1.keys, cert.keyName), cert.name, cert);
  }

  lemma KeyIsThere(d: Db, keyName: Name, key: Octets, ids: RowIds)
    requires Valid(d) && ids.identity !in d.identities && ids.key !in d.keys && keyName != []
    ensures HasName(AddKey(d, keyName, key, ids).keys, keyName) && AddKey(d, keyName, key, ids).certs == d.certs
  {
    hide Valid, Insert, HasName, HasDefault, IdOf;
    AddKeyReturns(d, keyName, key, ids);
  }

  /** SQLite numbers rows from 1. */
  ghost predicate Numbered(op: Op) {
    && (op.AddIdentityOp? || op.AddKeyOp? || op.AddCertificateOp? ==>
          op.ids.identity >= 1 && op.ids.key >= 1 && op.ids.cert >= 1)
    && (op.UpdateMgmtOp? ==> op.rowId >= 1)
  }

  /** Where there is an identity, something has been inserted. */
  ghost predicate Touched(d: Db) { d.identities != map[] ==> d.lastRowId >= 1 }

  lemma ApplyTouches(d: Db, op: Op)
    requires Touched(d) && Chosen(d, op) && Numbered(op)
    ensures Touched(Apply(d, op))
  {
    hide HasName, Insert, IdOf, RowsUnder, RowsNamed, Clears;
    if op.SetDefaultIdentityOp? {
      assert Apply(d, op).identities.Keys == d.identities.Keys;
    }
  }

  lemma {:induction false} RunTouches(d: Db, ops: seq<Op>)
    requires Touched(d) && Playable(d, ops) && forall op :: op in ops ==> Numbered(op)
    ensures Touched(Run(d, ops))
    decreases |ops|
  {
    hide Apply, Touched, Chosen, Numbered;
    if ops != [] {
      ApplyTouches(d, ops[0]);
      RunTouches(Apply(d, ops[0]), ops[1..]);
    }
  }

  /** Whatever has been done since the PIB was empty, addIdentity returns what is promised exactly
      when the identity is new: a failed insert never returns 0. */
  lemma FailedAddNeverReturnsZero(ops: seq<Op>, identity: Name, ids: RowIds)
    requires Playable(EMPTY, ops) && forall op :: op in ops ==> Numbered(op)
    requires ids.identity !in Run(EMPTY, ops).identities
    ensures ReturnsAsPromised(Run(EMPTY, ops), identity, ids) <==> !HasName(Run(EMPTY, ops).identities, identity)
  {
    hide Valid, ByName, Run, Playable, Numbered, ReturnsAsPromised;
    DatabaseRefinesStore(ops);
    RunTouches(EMPTY, ops);
    AddIdentityReturns(Run(EMPTY, ops), identity, ids);
  }

  /** An identity added twice, with another one in between: the second answer is the row id
      of the other one. */
  lemma FailedAddReturnsAnotherRow(a: Name, b: Name)
    requires a != b
    ensures var d := AddIdentity(AddIdentity(EMPTY, a, RowIds(1, 1, 1)), b, RowIds(2, 1, 1));
            var r := AddIdentity(d, a, RowIds(3, 1, 1));
            r.identities == d.identities && HasName(r.identities, b) && r.lastRowId == 2 == IdOf(r.identities, b)
  {
    hide Valid, Insert, HasName, Values, NamesOf, HasDefault;
    EmptyIsValid();
    var d0 := AddIdentity(EMPTY, a, RowIds(1, 1, 1));
    AddIdentityRefines(EMPTY, a, RowIds(1, 1, 1));
    NamesAt(EMPTY.identities, a);
    NamesAt(d0.identities, b);
    NewIdentityRow(EMPTY, a, RowIds(1, 1, 1));
    AddIdentityRefines(d0, b, RowIds(2, 1, 1));
    NewIdentityRow(d0, b, RowIds(2, 1, 1));
    NamesAt(AddIdentity(d0, b, RowIds(2, 1, 1)).identities, a);
  }

  lemma NewIdentityRow(d: Db, identity: Name, ids: RowIds)
    requires Valid(d) && ids.identity !in d.identities && !HasName(d.identities, identity)
    ensures var r := AddIdentity(d, identity, ids);
            && HasName(r.identities, identity) && IdOf(r.identities, identity) == ids.identity
            && r.identities.Keys == d.identities.Keys + {ids.identity}
  {
    hide Insert, HasDefault;
    InsertMeans(d.identities, ids.identity, NO_PARENT, identity, ());
    var r := AddIdentity(d, identity, ids);
    assert r.identities[ids.identity].name == identity;
    FindIs(r.identities, ids.identity);
  }
}
