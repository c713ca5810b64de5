/** The PIB database as a state machine: three tables with triggers and cascades, and the
    signals their deletions and insertions send. */
module PibDbSpec {
  import opened Bytes
  import opened Names
  import opened Optional
  import opened PibTable

  /** An identity certificate; `keyName` is the public key name that its name stands for. */
  datatype Certificate = Certificate(name: Name, keyName: Name, publicKey: Octets, wire: Octets)

  datatype Db = Db(
    identities: Table<()>,
    keys: Table<Octets>,
    certs: Table<Certificate>,
    mgmt: Option<Certificate>,      // local_management_cert of the only mgmt row
    mgmtOwner: Option<Component>,   // its owner
    owner: Option<Component>,       // m_owner
    lastRowId: int)                 // sqlite3_last_insert_rowid

  const NO_PARENT := 0
  const EMPTY := Db(map[], map[], map[], None, None, None, 0)

  // ------------------------------------------------------------------ adding

  /** Row ids that SQLite picks for the rows an operation may insert. */
  datatype RowIds = RowIds(identity: int, key: int, cert: int)

  ghost predicate Unused(d: Db, ids: RowIds) {
    ids.identity !in d.identities && ids.key !in d.keys && ids.cert !in d.certs
  }

  function AddIdentity(d: Db, identity: Name, ids: RowIds): Db
    requires ids.identity !in d.identities
  {
    if HasName(d.identities, identity) then d
    else d.(identities := Insert(d.identities, ids.identity, NO_PARENT, identity, ()), lastRowId := ids.identity)
  }

  ghost function AddKey(d: Db, keyName: Name, key: Octets, ids: RowIds): Db
    requires ids.identity !in d.identities && ids.key !in d.keys
  {
    if keyName == [] then d
    else
      var d1 := AddIdentity(d, Parent(keyName), ids);
      if HasName(d1.keys, keyName) || !HasName(d1.identities, Parent(keyName)) then d1
      else d1.(keys := Insert(d1.keys, ids.key, IdOf(d1.identities, Parent(keyName)), keyName, key),
               lastRowId := ids.key)
  }

  /** The row that the subselect finds for the key is NULL when the key could not be added,
      and then NOT NULL refuses the certificate. */
  ghost function AddCertificate(d: Db, cert: Certificate, ids: RowIds): Db
    requires Unused(d, ids)
  {
    var d1 := if HasName(d.keys, cert.keyName) then d else AddKey(d, cert.keyName, cert.publicKey, ids);
    if HasName(d1.certs, cert.name) || !HasName(d1.keys, cert.keyName) then d1
    else d1.(certs := Insert(d1.certs, ids.cert, IdOf(d1.keys, cert.keyName), cert.name, cert),
             lastRowId := ids.cert)
  }

  // ------------------------------------------------------------------ deleting

  function DeleteCertRows(d: Db, gone: set<int>): Db { d.(certs := d.certs - gone) }

  function DeleteKeyRows(d: Db, gone: set<int>): Db {
    DeleteCertRows(d, RowsUnder(d.certs, gone)).(keys := d.keys - gone)
  }

  function DeleteIdentityRows(d: Db, gone: set<int>): Db {
    DeleteKeyRows(d, RowsUnder(d.keys, gone)).(identities := d.identities - gone)
  }

  // ------------------------------------------------------------------ the management certificate

  const LOCALHOST_PIB: Name := [Spelled("localhost"), Spelled("pib")]
  const MGMT_LABEL: Component := Spelled("mgmt")

  predicate FollowsConvention(keyName: Name) {
    |keyName| == 5 && keyName[..2] == LOCALHOST_PIB && keyName[3] == MGMT_LABEL
  }

  /** Whether updateMgmtCertificate throws. */
  predicate MgmtRefused(d: Db, cert: Certificate) {
    !FollowsConvention(cert.keyName) || (d.owner.Some? && d.owner.value != cert.keyName[2])
  }

  /** `rowId` is what SQLite picks for the row if one is inserted. */
  function UpdateMgmtCertificate(d: Db, cert: Certificate, rowId: int): Db {
    if MgmtRefused(d, cert) then d
    else
      var owner := Some(cert.keyName[2]);
      if d.owner.Some? then
        // UPDATE mgmt ... WHERE owner=?
        d.(mgmt := if d.mgmtOwner == owner then Some(cert) else d.mgmt, owner := owner)
      else
        // INSERT INTO mgmt, after the trigger that deletes every other row
        d.(mgmt := Some(cert), mgmtOwner := owner, owner := owner, lastRowId := rowId)
  }

  // ------------------------------------------------------------------ operations

  datatype Op =
    | AddIdentityOp(identity: Name, ids: RowIds)
    | DeleteIdentityOp(identity: Name)
    | SetDefaultIdentityOp(identity: Name)
    | AddKeyOp(keyName: Name, key: Octets, ids: RowIds)
    | DeleteKeyOp(keyName: Name)
    | SetDefaultKeyOp(keyName: Name)
    | AddCertificateOp(cert: Certificate, ids: RowIds)
    | DeleteCertificateOp(certName: Name)
    | SetDefaultCertOp(certName: Name)
    | UpdateMgmtOp(cert: Certificate, rowId: int)

  /** Row ids chosen for an operation are not in use. */
  ghost predicate Chosen(d: Db, op: Op) {
    op.AddIdentityOp? || op.AddKeyOp? || op.AddCertificateOp? ==> Unused(d, op.ids)
  }

  ghost function Apply(d: Db, op: Op): Db
    requires Chosen(d, op)
  {
    match op
    case AddIdentityOp(identity, ids) => AddIdentity(d, identity, ids)
    case DeleteIdentityOp(identity) => DeleteIdentityRows(d, RowsNamed(d.identities, identity))
    case SetDefaultIdentityOp(identity) => d.(identities := SetDefault(d.identities, identity))
    case AddKeyOp(keyName, key, ids) => AddKey(d, keyName, key, ids)
    case DeleteKeyOp(keyName) => DeleteKeyRows(d, RowsNamed(d.keys, keyName))
    case SetDefaultKeyOp(keyName) => d.(keys := SetDefault(d.keys, keyName))
    case AddCertificateOp(cert, ids) => AddCertificate(d, cert, ids)
    case DeleteCertificateOp(certName) => DeleteCertRows(d, RowsNamed(d.certs, certName))
    case SetDefaultCertOp(certName) => d.(certs := SetDefault(d.certs, certName))
    case UpdateMgmtOp(cert, rowId) => UpdateMgmtCertificate(d, cert, rowId)
  }

  // ------------------------------------------------------------------ the store invariant

  function IdentityOf(keyName: Name, key: Octets): Name { Parent(keyName) }

  function KeyOf(certName: Name, cert: Certificate): Name { cert.keyName }

  /** Every key row belongs to the identity whose name is the key's without its last component. */
  ghost predicate KeysRooted(d: Db) {
    Rooted(d.identities, d.keys, IdentityOf) && forall k :: k in d.keys ==> d.keys[k].name != []
  }

  /** Every certificate row belongs to the key its certificate names. */
  ghost predicate CertsRooted(d: Db) {
    Rooted(d.keys, d.certs, KeyOf) && forall c :: c in d.certs ==> d.certs[c].name == d.certs[c].value.name
  }

  ghost predicate OneGroup(d: Db) { forall i :: i in d.identities ==> d.identities[i].parent == NO_PARENT }

  /** The cached owner is the one in the table, and it is the one its certificate names. */
  ghost predicate OwnerMatches(d: Db) {
    && d.owner == d.mgmtOwner && (d.mgmt.Some? <==> d.owner.Some?)
    && (d.mgmt.Some? ==> FollowsConvention(d.mgmt.value.keyName) && d.owner.value == d.mgmt.value.keyName[2])
  }

  ghost predicate Valid(d: Db) {
    && Sound(d.identities) && Sound(d.keys) && Sound(d.certs)
    && OneGroup(d) && KeysRooted(d) && CertsRooted(d) && OwnerMatches(d)
  }
}
