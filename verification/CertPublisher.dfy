/** The certificate publisher: its storage and its registered prefixes follow the database
    through the signals of inserted and deleted certificates only. */
module CertPublishing {
  import opened Names
  import opened Optional
  import opened Counting
  import opened PibDbSpec
  import opened PibDbTheorems
  import opened PibStore
  import opened PibTable
  import PibDatabase

  type Certs = map<Name, Certificate>

  /** The in-memory storage, the prefixes with an Interest filter, and whether an assertion has
      failed. */
  datatype Publisher = Publisher(storage: Certs, prefixes: set<Name>, failed: bool)

  const NOTHING := Publisher(map[], {}, false)

  /** Erasing from the storage takes everything under a prefix. */
  function EraseUnder(storage: Certs, prefix: Name): Certs { map n | n in storage && !(prefix <= n) :: storage[n] }

  predicate FindsUnder(storage: Certs, prefix: Name) { exists n :: n in storage && prefix <= n }

  /** `cert` is what getCertificate returns. */
  function Started(p: Publisher, certName: Name, cert: Option<Certificate>): Publisher {
    if cert.None? || certName == [] then p.(failed := true)
    else Publisher(p.storage[cert.value.name := cert.value], p.prefixes + {Parent(certName)}, p.failed)
  }

  function Stopped(p: Publisher, certName: Name): Publisher {
    var storage := EraseUnder(p.storage, certName);
    if certName == [] then p.(failed := true)
    else if FindsUnder(storage, Parent(certName)) then p.(storage := storage)
    else
      Publisher(storage, p.prefixes - {Parent(certName)}, p.failed || Parent(certName) !in p.prefixes)
  }

  /** The handlers; `certs` are the certificates of the database when the signals are sent. */
  function OnSignal(p: Publisher, certs: Certs, s: Signal): Publisher {
    match s
    case CertInserted(n) => Started(p, n, if n in certs then Some(certs[n]) else None)
    case CertDeleted(n) => Stopped(p, n)
    case _ => p
  }

  function OnSignals(p: Publisher, certs: Certs, sent: seq<Signal>): Publisher
    decreases |sent|
  {
    if sent == [] then p else OnSignals(OnSignal(p, certs, sent[0]), certs, sent[1..])
  }

  // ------------------------------------------------------------------ certificate names

  const ID_CERT: Component := Spelled("ID-CERT")

  /** identity/KEY/key-id/ID-CERT/version: ID-CERT is the last component but one and occurs
      nowhere else. */
  ghost predicate WellNamed(n: Name) {
    |n| >= 2 && forall i :: 0 <= i < |n| ==> (n[i] == ID_CERT <==> i == |n| - 2)
  }

  /** Neither certificate is under the other's prefix, unless they share it. */
  predicate Apart(a: Name, b: Name) { Parent(a) == Parent(b) || (!(Parent(b) <= a) && !(Parent(a) <= b)) }

  lemma WellNamedAreApart(a: Name, b: Name)
    requires WellNamed(a) && WellNamed(b)
    ensures Apart(a, b)
  {
    if Parent(b) <= a {
      UnderWellNamed(a, b);
    }
    if Parent(a) <= b {
      UnderWellNamed(b, a);
    }
  }

  lemma UnderWellNamed(a: Name, b: Name)
    requires WellNamed(a) && WellNamed(b) && Parent(b) <= a
    ensures Parent(a) == Parent(b)
  {
    assert a[|b| - 2] == Parent(b)[|b| - 2] == ID_CERT;
  }

  ghost predicate AllApart(names: set<Name>) {
    [] !in names && forall a, b :: a in names && b in names ==> Apart(a, b)
  }

  // ------------------------------------------------------------------ agreement

  function Prefixes(certs: Certs): set<Name> { set n | n in certs :: Parent(n) }

  /** Exactly these certificates are published, and exactly their names without the version are
      registered. */
  ghost predicate Agrees(p: Publisher, certs: Certs) {
    p.storage == certs && p.prefixes == Prefixes(certs) && !p.failed
  }

  ghost predicate OwnNames(certs: Certs) { forall n :: n in certs ==> certs[n].name == n }

  lemma StartKeeps(p: Publisher, certs: Certs, n: Name, cert: Certificate)
    requires Agrees(p, certs) && n != [] && cert.name == n
    ensures Agrees(Started(p, n, Some(cert)), certs[n := cert])
  {
    assert Prefixes(certs[n := cert]) == Prefixes(certs) + {Parent(n)} by {
      assert n in certs[n := cert];
      assert forall m :: m in certs ==> m in certs[n := cert];
    }
  }

  lemma StopKeeps(p: Publisher, certs: Certs, n: Name)
    requires Agrees(p, certs) && n in certs && AllApart(certs.Keys)
    ensures Agrees(Stopped(p, n), certs - {n})
  {
    var rest := certs - {n};
    forall m | m in certs && n <= m
      ensures m == n
    {
      assert Apart(n, m) && Parent(n) <= m;
    }
    assert EraseUnder(certs, n) == rest;
    assert forall m :: m in rest && Parent(n) <= m ==> Parent(m) == Parent(n) by {
      assert forall m :: m in rest ==> Apart(n, m);
    }
    assert forall m :: m in rest && Parent(m) == Parent(n) ==> Parent(n) <= m;
    assert FindsUnder(rest, Parent(n)) <==> Parent(n) in Prefixes(rest);
    assert forall q :: q != Parent(n) ==> (q in Prefixes(rest) <==> q in Prefixes(certs)) by {
      forall q | q != Parent(n) && q in Prefixes(certs)
        ensures q in Prefixes(rest)
      {
        var m :| m in certs && Parent(m) == q;
        assert m in rest;
      }
    }
  }

  /** Two names that are not apart mislead the publisher: once both are published and the one
      whose prefix the other is under is withdrawn again, it no longer agrees. */
  lemma NotApartMisleads(a: Certificate, b: Certificate)
    requires a.name != [] && b.name != [] && Parent(b.name) <= a.name && Parent(a.name) != Parent(b.name)
    ensures var p := Stopped(Started(Started(NOTHING, a.name, Some(a)), b.name, Some(b)), b.name);
            !Agrees(p, map[a.name := a])
  {
    var both := Started(Started(NOTHING, a.name, Some(a)), b.name, Some(b));
    var p := Stopped(both, b.name);
    if a.name in p.storage {
      assert FindsUnder(p.storage, Parent(b.name));
      assert Parent(b.name) in p.prefixes;
    }
  }

  // ------------------------------------------------------------------ operations on the database

  /** What is left of `certs`, and what of `later` is new, once the signals have been sent. */
  ghost function After(certs: Certs, later: Certs, sent: seq<Signal>): Certs {
    map n | n in certs.Keys + later.Keys && (if n in certs then CertDeleted(n) !in sent else CertInserted(n) in sent) ::
      if n in certs then certs[n] else later[n]
  }

  /** The signals are of certificates that are there, and of certificates that are not. */
  ghost predicate ToCome(certs: Certs, later: Certs, sent: seq<Signal>) {
    && Distinct(sent)
    && (forall n :: CertDeleted(n) in sent ==> n in certs && n !in later)
    && (forall n :: CertInserted(n) in sent ==> n !in certs && n in later)
  }

  /** `certs` after one signal. */
  function Change(certs: Certs, later: Certs, s: Signal): Certs {
    match s
    case CertDeleted(n) => certs - {n}
    case CertInserted(n) => if n in later then certs[n := later[n]] else certs
    case _ => certs
  }

  lemma OneSignal(p: Publisher, certs: Certs, later: Certs, sent: seq<Signal>)
    requires Agrees(p, certs) && OwnNames(later) && ToCome(certs, later, sent) && sent != []
    requires AllApart(certs.Keys + later.Keys)
    ensures Agrees(OnSignal(p, later, sent[0]), Change(certs, later, sent[0]))
  {
    assert sent[0] in sent;
    match sent[0]
    case CertDeleted(n) =>
      assert AllApart(certs.Keys);
      StopKeeps(p, certs, n);
    case CertInserted(n) =>
      StartKeeps(p, certs, n, later[n]);
    case _ =>
  }

  lemma Tail(sent: seq<Signal>)
    requires Distinct(sent) && sent != []
    ensures Distinct(sent[1..]) && forall s :: s in sent[1..] <==> s in sent && s != sent[0]
  {
    assert sent == [sent[0]] + sent[1..];
  }

  lemma RestToCome(certs: Certs, later: Certs, sent: seq<Signal>)
    requires ToCome(certs, later, sent) && sent != []
    ensures ToCome(Change(certs, later, sent[0]), later, sent[1..])
    ensures Change(certs, later, sent[0]).Keys + later.Keys <= certs.Keys + later.Keys
  {
    Tail(sent);
    hide Distinct;
    assert sent[0] in sent;
  }

  lemma RestAfter(certs: Certs, later: Certs, sent: seq<Signal>)
    requires ToCome(certs, later, sent) && sent != []
    ensures After(Change(certs, later, sent[0]), later, sent[1..]) == After(certs, later, sent)
  {
    Tail(sent);
    assert sent[0] in sent;
    var next, rest := Change(certs, later, sent[0]), sent[1..];
    forall n | n in certs.Keys + later.Keys
      ensures (if n in next then CertDeleted(n) !in rest else CertInserted(n) in rest) <==>
              (if n in certs then CertDeleted(n) !in sent else CertInserted(n) in sent)
    {
    }
  }

  lemma {:induction false} SignalsKeep(p: Publisher, certs: Certs, later: Certs, sent: seq<Signal>)
    requires Agrees(p, certs) && OwnNames(later) && ToCome(certs, later, sent)
    requires AllApart(certs.Keys + later.Keys)
    ensures Agrees(OnSignals(p, later, sent), After(certs, later, sent))
    decreases |sent|
  {
    hide Agrees, OwnNames, ToCome, After, Change, OnSignal;
    if sent == [] {
      NothingToCome(certs, later);
    } else {
      OneSignal(p, certs, later, sent);
      RestToCome(certs, later, sent);
      RestAfter(certs, later, sent);
      SignalsKeep(OnSignal(p, later, sent[0]), Change(certs, later, sent[0]), later, sent[1..]);
    }
  }

  lemma NothingToCome(certs: Certs, later: Certs)
    ensures After(certs, later, []) == certs
  {
  }

  /** Certificates of the store carry their own names, and the ones that survive an operation
      are the same. */
  lemma CertsPersist(s: Store, op: Op)
    requires OwnNames(s.certs)
    ensures var r := Perform(s, op);
            && OwnNames(r.certs)
            && (forall n :: n in s.certs && n in r.certs ==> r.certs[n] == s.certs[n])
            && (forall n :: n in r.certs ==> n in s.certs || (op.AddCertificateOp? && n == op.cert.name))
  {
  }

  /** An operation and its signals keep the publisher in agreement. */
  lemma OperationKeeps(p: Publisher, s: Store, op: Op, sent: seq<Signal>)
    requires Agrees(p, s.certs) && OwnNames(s.certs) && Announced(s, Perform(s, op), sent)
    requires AllApart(s.certs.Keys + Perform(s, op).certs.Keys)
    ensures Agrees(OnSignals(p, Perform(s, op).certs, sent), Perform(s, op).certs)
  {
    hide Agrees, Perform, OnSignals, AllApart;
    var r := Perform(s, op);
    CertsPersist(s, op);
    SignalsKeep(p, s.certs, r.certs, sent);
    assert After(s.certs, r.certs, sent) == r.certs;
  }

  // ------------------------------------------------------------------ whole runs

  datatype Operation = Operation(op: Op, sent: seq<Signal>)

  datatype World = World(db: Db, publisher: Publisher)

  /** An operation with its signals, which adds no certificate with a malformed name. */
  ghost predicate Possible(d: Db, o: Operation) {
    && Chosen(d, o.op) && Announced(ByName(d), ByName(Apply(d, o.op)), o.sent)
    && (o.op.AddCertificateOp? ==> WellNamed(o.op.cert.name))
  }

  ghost function Next(w: World, o: Operation): World
    requires Possible(w.db, o)
  {
    var r := Apply(w.db, o.op);
    World(r, OnSignals(w.publisher, ByName(r).certs, o.sent))
  }

  ghost predicate Playable(w: World, run: seq<Operation>)
    decreases |run|
  {
    run == [] || (Possible(w.db, run[0]) && Playable(Next(w, run[0]), run[1..]))
  }

  ghost function Run(w: World, run: seq<Operation>): World
    requires Playable(w, run)
    decreases |run|
  {
    if run == [] then w else Run(Next(w, run[0]), run[1..])
  }

  ghost predicate InStep(w: World) {
    && Valid(w.db) && Agrees(w.publisher, ByName(w.db).certs) && OwnNames(ByName(w.db).certs)
    && forall n :: n in ByName(w.db).certs ==> WellNamed(n)
  }

  lemma WellNamedSetsAreApart(names: set<Name>)
    requires forall n :: n in names ==> WellNamed(n)
    ensures AllApart(names)
  {
    forall a, b | a in names && b in names
      ensures Apart(a, b)
    {
      WellNamedAreApart(a, b);
    }
  }

  lemma NextKeeps(w: World, o: Operation)
    requires InStep(w) && Possible(w.db, o)
    ensures InStep(Next(w, o))
  {
    hide Valid, ByName, Apply, Perform, Announced, WellNamed, OnSignals, AllApart, OwnNames, Agrees;
    var s, r := ByName(w.db), ByName(Apply(w.db, o.op));
    ApplyRefines(w.db, o.op);
    CertsPersist(s, o.op);
    WellNamedSetsAreApart(s.certs.Keys + r.certs.Keys);
    OperationKeeps(w.publisher, s, o.op, o.sent);
  }

  lemma {:induction false} RunKeeps(w: World, run: seq<Operation>)
    requires InStep(w) && Playable(w, run)
    ensures InStep(Run(w, run))
    decreases |run|
  {
    hide InStep, Possible, Next;
    if run != [] {
      NextKeeps(w, run[0]);
      RunKeeps(Next(w, run[0]), run[1..]);
    }
  }

  /** From any database whose certificates have names of their form and a publisher that agrees
      with it, as one that has been constructed over it does: whatever is added, deleted and
      cascades, the published certificates are exactly the stored ones, the registered prefixes
      are exactly their names without the version, and no assertion fails. */
  lemma PublisherFollowsStore(w: World, run: seq<Operation>)
    requires Valid(w.db) && forall n :: n in ByName(w.db).certs ==> WellNamed(n)
    requires Agrees(w.publisher, ByName(w.db).certs) && Playable(w, run)
    ensures var r := Run(w, run); Valid(r.db) && Agrees(r.publisher, ByName(r.db).certs)
  {
    hide Valid, ByName, Run, Agrees;
    StoredUnderOwnNames(w.db);
    RunKeeps(w, run);
  }

  // ------------------------------------------------------------------ the object

  class CertPublisher {
    const db: PibDatabase.PibDb
    var storage: Certs
    var registeredPrefixes: set<Name>

    ghost function View(): Publisher
      reads this
    {
      Publisher(storage, registeredPrefixes, false)
    }

    /** startPublishAll: everything stored is published from the start. */
    constructor (db: PibDatabase.PibDb)
      requires Valid(db.View()) && [] !in ByName(db.View()).certs
      ensures this.db == db && Agrees(View(), ByName(db.View()).certs)
    {
      this.db := db;
      storage, registeredPrefixes := map[], {};
      new;
      StoredUnderOwnNames(db.View());
      StartPublishAll();
    }

    method RegisterCertPrefix(certName: Name)
      requires certName != []
      modifies this`registeredPrefixes
      ensures registeredPrefixes == old(registeredPrefixes) + {Parent(certName)}
    {
      var prefix := Parent(certName);
      if prefix !in registeredPrefixes {
        registeredPrefixes := registeredPrefixes + {prefix};
      }
    }

    /** The face could not register the prefix: retry, unless it is no longer needed.  A publisher
        in agreement with its database stays so. */
    method OnRegisterFailed(certName: Name)
      requires certName != []
      modifies this`registeredPrefixes
      ensures View() == old(View())
    {
      var prefix := Parent(certName);
      if prefix !in registeredPrefixes {
        return;
      }
      registeredPrefixes := registeredPrefixes - {prefix};
      RegisterCertPrefix(certName);
    }

    method StartPublish(certName: Name)
      requires Valid(db.View()) && certName in ByName(db.View()).certs && certName != []
      modifies this
      ensures View() == Started(old(View()), certName, Some(ByName(db.View()).certs[certName]))
    {
      var cert := db.GetCertificate(certName);
      storage := storage[cert.value.name := cert.value];
      RegisterCertPrefix(certName);
    }

    /** Never called when its assertion would fail: see StopKeeps. */
    method StopPublish(certName: Name)
      requires !Stopped(View(), certName).failed
      modifies this
      ensures View() == Stopped(old(View()), certName)
    {
      storage := EraseUnder(storage, certName);
      var prefix := Parent(certName);
      if FindsUnder(storage, prefix) {
        return;
      }
      assert prefix in registeredPrefixes;
      registeredPrefixes := registeredPrefixes - {prefix};
    }

    method StartPublishAll()
      requires View() == NOTHING
      requires Valid(db.View()) && OwnNames(ByName(db.View()).certs) && [] !in ByName(db.View()).certs
      modifies this
      ensures Agrees(View(), ByName(db.View()).certs)
    {
      hide Valid, ByName, Agrees;
      ghost var certs, done := ByName(db.View()).certs, {};
      NothingDone(certs);
      var identities := db.ListIdentities();
      for i := 0 to |identities|
        invariant Published(View(), certs, done)
        invariant forall n :: n in certs && Parent(certs[n].keyName) in identities[..i] ==> n in done
      {
        done := PublishIdentity(identities[i], done);
      }
      AllRooted(db.View());
      AllDone(View(), certs, done);
    }

    /** The middle loop, over the keys of one identity. */
    method PublishIdentity(identity: Name, ghost done: set<Name>) returns (ghost more: set<Name>)
      requires Valid(db.View()) && OwnNames(ByName(db.View()).certs) && [] !in ByName(db.View()).certs
      requires Published(View(), ByName(db.View()).certs, done)
      modifies this
      ensures done <= more && Published(View(), ByName(db.View()).certs, more)
      ensures var certs := ByName(db.View()).certs;
              forall n :: n in certs && Parent(certs[n].keyName) == identity ==> n in more
    {
      hide Valid, ByName, Published;
      ghost var certs := ByName(db.View()).certs;
      AllRooted(db.View());
      var keyNames := db.ListKeyNamesOfIdentity(identity);
      more := done;
      for k := 0 to |keyNames|
        invariant done <= more && Published(View(), certs, more)
        invariant forall n :: n in certs && certs[n].keyName in keyNames[..k] ==> n in more
      {
        more := PublishKey(keyNames[k], more);
      }
    }

    /** The inner loop, over the certificates of one key. */
    method PublishKey(keyName: Name, ghost done: set<Name>) returns (ghost more: set<Name>)
      requires Valid(db.View()) && OwnNames(ByName(db.View()).certs) && [] !in ByName(db.View()).certs
      requires Published(View(), ByName(db.View()).certs, done)
      modifies this
      ensures done <= more && Published(View(), ByName(db.View()).certs, more)
      ensures forall n :: n in ByName(db.View()).certs && ByName(db.View()).certs[n].keyName == keyName ==> n in more
    {
      var certNames := db.ListCertNamesOfKey(keyName);
      more := done;
      for c := 0 to |certNames|
        invariant done <= more && Published(View(), ByName(db.View()).certs, more)
        invariant forall n :: n in certNames[..c] ==> n in more
      {
        ghost var before := View();
        StartPublish(certNames[c]);
        OneMore(before, ByName(db.View()).certs, more, certNames[c]);
        more := more + {certNames[c]};
      }
    }
  }

  lemma AllRooted(d: Db)
    requires Valid(d)
    ensures var s := ByName(d);
            forall n :: n in s.certs ==> s.certs[n].keyName in s.keys && Parent(s.certs[n].keyName) in s.identities
  {
    hide UniqueNames, OneDefault, Rooted, Values, NamesOf;
    Cascade(d.identities, d.keys, IdentityOf, {});
    Cascade(d.keys, d.certs, KeyOf, {});
    NamesAreKeys(d.keys);
  }

  lemma StoredUnderOwnNames(d: Db)
    requires Valid(d)
    ensures OwnNames(ByName(d).certs)
  {
    hide UniqueNames, OneDefault, Rooted, Values, NamesOf;
    var certs := ByName(d).certs;
    forall n | n in certs
      ensures certs[n].name == n
    {
      var i := RowOf(d.certs, n);
    }
  }

  lemma NothingDone(certs: Certs)
    ensures Published(NOTHING, certs, {})
  {
    var done: set<Name> := {};
    var some := map n | n in certs && n in done :: certs[n];
    assert some == map[];
  }

  lemma AllDone(p: Publisher, certs: Certs, done: set<Name>)
    requires Published(p, certs, done) && forall n :: n in certs ==> n in done
    ensures Agrees(p, certs)
  {
    assert (map n | n in certs && n in done :: certs[n]) == certs;
  }

  lemma OneMore(p: Publisher, certs: Certs, done: set<Name>, n: Name)
    requires Published(p, certs, done) && n in certs && n != [] && certs[n].name == n
    ensures Published(Started(p, n, Some(certs[n])), certs, done + {n})
  {
    var some := map m | m in certs && m in done :: certs[m];
    StartKeeps(p, some, n, certs[n]);
    assert (map m | m in certs && m in done + {n} :: certs[m]) == some[n := certs[n]];
  }

  /** Of `certs`, those in `done` are published. */
  ghost predicate Published(p: Publisher, certs: Certs, done: set<Name>) {
    done <= certs.Keys && Agrees(p, map n | n in certs && n in done :: certs[n])
  }
}
