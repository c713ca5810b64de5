/** The PIB by name only, with no row ids, triggers or foreign keys: the simple machine that
    the database refines. */
module PibStore {
  import opened Bytes
  import opened Names
  import opened Counting
  import opened PibDbSpec

  datatype Store = Store(identities: set<Name>, keys: map<Name, Octets>, certs: map<Name, Certificate>)

  function PutIdentity(s: Store, identity: Name): Store { s.(identities := s.identities + {identity}) }

  /** A key brings its identity with it; an existing key keeps its bits. */
  function PutKey(s: Store, keyName: Name, key: Octets): Store {
    if keyName == [] then s
    else
      PutIdentity(s, Parent(keyName)).(keys := if keyName in s.keys then s.keys else s.keys[keyName := key])
  }

  /** A certificate brings its key with it, unless that has the empty name. */
  function PutCertificate(s: Store, cert: Certificate): Store {
    var s1 := if cert.keyName in s.keys then s else PutKey(s, cert.keyName, cert.publicKey);
    if cert.name in s1.certs || cert.keyName !in s1.keys then s1
    else s1.(certs := s1.certs[cert.name := cert])
  }

  function DropCertificate(s: Store, certName: Name): Store { s.(certs := s.certs - {certName}) }

  /** A key takes its certificates with it. */
  function DropKey(s: Store, keyName: Name): Store {
    s.(keys := s.keys - {keyName},
       certs := map c | c in s.certs && s.certs[c].keyName != keyName :: s.certs[c])
  }

  /** An identity takes its keys and their certificates with it. */
  function DropIdentity(s: Store, identity: Name): Store {
    Store(s.identities - {identity},
          map k | k in s.keys && Parent(k) != identity :: s.keys[k],
          map c | c in s.certs && Parent(s.certs[c].keyName) != identity :: s.certs[c])
  }

  function Perform(s: Store, op: Op): Store {
    match op
    case AddIdentityOp(identity, _) => PutIdentity(s, identity)
    case DeleteIdentityOp(identity) => DropIdentity(s, identity)
    case SetDefaultIdentityOp(_) => s
    case AddKeyOp(keyName, key, _) => PutKey(s, keyName, key)
    case DeleteKeyOp(keyName) => DropKey(s, keyName)
    case SetDefaultKeyOp(_) => s
    case AddCertificateOp(cert, _) => PutCertificate(s, cert)
    case DeleteCertificateOp(certName) => DropCertificate(s, certName)
    case SetDefaultCertOp(_) => s
    case UpdateMgmtOp(_, _) => s
  }

  // ------------------------------------------------------------------ signals

  datatype Signal =
    | IdentityDeleted(identity: Name)
    | KeyDeleted(keyName: Name)
    | CertDeleted(certName: Name)
    | CertInserted(certName: Name)
    | MgmtChanged

  ghost predicate ToAnnounce(s: Store, r: Store, signal: Signal) {
    match signal
    case IdentityDeleted(n) => n in s.identities && n !in r.identities
    case KeyDeleted(n) => n in s.keys && n !in r.keys
    case CertDeleted(n) => n in s.certs && n !in r.certs
    case CertInserted(n) => n in r.certs && n !in s.certs
    case MgmtChanged => false
  }

  /** Exactly the rows that went or came, each once. */
  ghost predicate Announced(s: Store, r: Store, signals: seq<Signal>) {
    && Distinct(signals)
    && forall signal :: signal in signals && signal != MgmtChanged <==> ToAnnounce(s, r, signal)
  }

  lemma AllToAnnounce(s: Store, r: Store) returns (all: set<Signal>)
    ensures forall signal :: signal in all <==> ToAnnounce(s, r, signal)
  {
    all := (set n | n in s.identities - r.identities :: IdentityDeleted(n))
         + (set n | n in s.keys.Keys - r.keys.Keys :: KeyDeleted(n))
         + (set n | n in s.certs.Keys - r.certs.Keys :: CertDeleted(n))
         + (set n | n in r.certs.Keys - s.certs.Keys :: CertInserted(n));
  }

  /** Every change of the store can be announced, together with a change of the management
      certificate or without. */
  lemma Announceable(s: Store, r: Store, mgmt: bool) returns (signals: seq<Signal>)
    ensures Announced(s, r, signals) && (MgmtChanged in signals <==> mgmt)
  {
    var all := AllToAnnounce(s, r);
    signals := Listed(all + if mgmt then {MgmtChanged} else {});
    assert forall signal :: signal != MgmtChanged ==> (signal in signals <==> signal in all);
  }
}
