/** The validator of signed commands.  It looks keys up in a cache that only the database's
    signals keep in step with the database; it decides as if it read the database alone. */
module PibValidation {
  import opened Bytes
  import opened Names
  import opened Optional
  import opened PibDbSpec
  import opened PibDbTheorems
  import opened PibStore
  import K = KeyCaching
  import PibDatabase

  /** What is read off the signature of an Interest.  `keyName` is the public key name that the
      locator's certificate name stands for, if it stands for one. */
  datatype Signature = Malformed | NoKeyLocator | LocatorNotName | Locator(name: Name, keyName: Option<Name>)

  datatype Interest = Interest(size: nat, user: Component, signature: Signature)

  const SIGNED_PIB_INTEREST_SIZE := 9

  datatype Reason =
    | NotInitialized | NotSigned | WrongUser | BadSignature | NoLocator | NotAName | NoSigningKey | NotTrusted

  /** The Interest is refused, or its signature is checked with `key`. */
  datatype Verdict = Reject(reason: Reason) | VerifyWith(key: Octets)

  /** What the validator remembers of the database's management row. */
  datatype Mgmt = Mgmt(isReady: bool, owner: Option<Component>, cert: Option<Certificate>)

  datatype Validator = Validator(mgmt: Mgmt, cache: K.Cache)

  /** The key to check with, as far as it can be told without looking at normal keys. */
  datatype Choice = Settled(verdict: Verdict) | NormalKey(keyName: Name)

  function Choose(m: Mgmt, i: Interest): Choice {
    if !m.isReady || m.cert.None? then Settled(Reject(NotInitialized))
    else if i.size != SIGNED_PIB_INTEREST_SIZE then Settled(Reject(NotSigned))
    else if Some(i.user) != m.owner then Settled(Reject(WrongUser))
    else
      match i.signature
      case Malformed => Settled(Reject(BadSignature))
      case NoKeyLocator => Settled(Reject(NoLocator))
      case LocatorNotName => Settled(Reject(NotAName))
      case Locator(name, keyName) =>
        if name == Parent(m.cert.value.name) then Settled(VerifyWith(m.cert.value.publicKey))
        else if keyName.None? then Settled(Reject(NoSigningKey))
        else NormalKey(keyName.value)
  }

  function KeyVerdict(key: Option<Octets>): Verdict {
    if key.Some? then VerifyWith(key.value) else Reject(NotTrusted)
  }

  function Lookup(keys: map<Name, Octets>, keyName: Name): Option<Octets> {
    if keyName in keys then Some(keys[keyName]) else None
  }

  /** checkPolicy, given the normal keys that the database holds. */
  function Checked(v: Validator, keys: map<Name, Octets>, capacity: nat, i: Interest): (Verdict, Validator) {
    match Choose(v.mgmt, i)
    case Settled(verdict) => (verdict, v)
    case NormalKey(keyName) =>
      if K.Has(v.cache, keyName) then
        (KeyVerdict(K.Found(v.cache, keyName)), v.(cache := K.Adjusted(v.cache, keyName)))
      else if keyName in keys then
        (VerifyWith(keys[keyName]), v.(cache := K.Inserted(v.cache, capacity, keyName, keys[keyName])))
      else (Reject(NotTrusted), v)
  }

  /** The decision that reads nothing but the database. */
  ghost function Direct(d: Db, i: Interest): Verdict {
    match Choose(Mgmt(d.owner.Some? && d.mgmt.Some?, d.owner, d.mgmt), i)
    case Settled(verdict) => verdict
    case NormalKey(keyName) => KeyVerdict(Lookup(ByName(d).keys, keyName))
  }

  /** An Interest is checked with `key` exactly when it has nine components, the user is the one
      that the management certificate was issued for, and its locator names either that
      certificate without the version, whose key `key` then is, or a stored key. */
  lemma VerifiedExactly(d: Db, i: Interest, key: Octets)
    requires Valid(d)
    ensures Direct(d, i) == VerifyWith(key) <==>
            && d.mgmt.Some? && i.size == SIGNED_PIB_INTEREST_SIZE && i.user == d.mgmt.value.keyName[2]
            && i.signature.Locator?
            && (if i.signature.name == Parent(d.mgmt.value.name) then key == d.mgmt.value.publicKey
                else i.signature.keyName.Some? && Lookup(ByName(d).keys, i.signature.keyName.value) == Some(key))
  {
    hide ByName;
  }

  // ------------------------------------------------------------------ signals

  function Reload(m: Mgmt, d: Db): Mgmt {
    Mgmt(m.isReady || (d.owner.Some? && d.mgmt.Some?), d.owner, d.mgmt)
  }

  /** The handlers; `d` is the database when the signal is sent. */
  function OnSignal(v: Validator, d: Db, s: Signal): Validator {
    match s
    case KeyDeleted(keyName) => v.(cache := K.Erased(v.cache, keyName))
    case MgmtChanged => v.(mgmt := Reload(v.mgmt, d))
    case _ => v
  }

  function OnSignals(v: Validator, d: Db, sent: seq<Signal>): Validator
    decreases |sent|
  {
    if sent == [] then v else OnSignals(OnSignal(v, d, sent[0]), d, sent[1..])
  }

  function Fresh(d: Db): Validator { Validator(Mgmt(d.owner.Some? && d.mgmt.Some?, d.owner, d.mgmt), []) }

  // ------------------------------------------------------------------ agreement

  /** Every cached key is the one that the database holds now. */
  ghost predicate CacheAgrees(c: K.Cache, keys: map<Name, Octets>) {
    forall i :: 0 <= i < |c| ==> c[i].name in keys && keys[c[i].name] == c[i].key
  }

  ghost predicate MgmtAgrees(m: Mgmt, d: Db) { m == Mgmt(d.owner.Some? && d.mgmt.Some?, d.owner, d.mgmt) }

  ghost predicate Agrees(v: Validator, d: Db, capacity: nat) {
    && MgmtAgrees(v.mgmt, d) && CacheAgrees(v.cache, ByName(d).keys)
    && K.UniqueEntries(v.cache) && |v.cache| <= K.Bound(capacity)
  }

  lemma FoundAgrees(c: K.Cache, keys: map<Name, Octets>, keyName: Name)
    requires CacheAgrees(c, keys) && K.Has(c, keyName)
    ensures K.Found(c, keyName) == Lookup(keys, keyName)
  {
  }

  /** In agreement, checkPolicy decides as the database alone would, and stays in agreement. */
  lemma CheckIsDirect(v: Validator, d: Db, capacity: nat, i: Interest)
    requires Agrees(v, d, capacity)
    ensures var (verdict, r) := Checked(v, ByName(d).keys, capacity, i);
            verdict == Direct(d, i) && Agrees(r, d, capacity)
  {
    hide ByName;
    var keys := ByName(d).keys;
    if Choose(v.mgmt, i).NormalKey? {
      var keyName := Choose(v.mgmt, i).keyName;
      if K.Has(v.cache, keyName) {
        FoundAgrees(v.cache, keys, keyName);
        UsedKeeps(v.cache, keys, capacity, K.FindOp(keyName));
      } else if keyName in keys {
        UsedKeeps(v.cache, keys, capacity, K.InsertOp(keyName, keys[keyName]));
      }
    }
  }

  /** A stored key that has been used is the most recently used entry of the cache. */
  lemma UsedKeyIsCached(v: Validator, d: Db, capacity: nat, i: Interest, keyName: Name)
    requires Agrees(v, d, capacity) && Choose(v.mgmt, i) == NormalKey(keyName) && keyName in ByName(d).keys
    ensures var c := Checked(v, ByName(d).keys, capacity, i).1.cache;
            c != [] && c[|c| - 1] == K.Entry(keyName, ByName(d).keys[keyName])
  {
    hide ByName;
    if K.Has(v.cache, keyName) {
      FoundAgrees(v.cache, ByName(d).keys, keyName);
    }
  }

  /** What the cache keeps on any use that inserts nothing but the current key. */
  lemma UsedKeeps(c: K.Cache, keys: map<Name, Octets>, capacity: nat, op: K.Op)
    requires CacheAgrees(c, keys) && K.UniqueEntries(c) && |c| <= K.Bound(capacity)
    requires op.InsertOp? ==> op.name in keys && keys[op.name] == op.key
    ensures var r := K.Step(c, capacity, op);
            CacheAgrees(r, keys) && K.UniqueEntries(r) && |r| <= K.Bound(capacity)
  {
    K.StepKeepsBound(c, capacity, op);
    K.StepKeepsUnique(c, capacity, op);
    K.OnlyOldEntries(c, capacity, op);
  }

  // ------------------------------------------------------------------ operations on the database

  /** The signals of an operation: for the rows that went or came, and for an accepted
      management certificate. */
  ghost predicate Emits(d: Db, op: Op, sent: seq<Signal>)
    requires Chosen(d, op)
  {
    && Announced(ByName(d), ByName(Apply(d, op)), sent)
    && (MgmtChanged in sent <==> op.UpdateMgmtOp? && !MgmtRefused(d, op.cert))
  }

  /** Every operation has signals that meet this. */
  lemma SignalsExist(d: Db, op: Op) returns (sent: seq<Signal>)
    requires Chosen(d, op)
    ensures Emits(d, op, sent)
  {
    hide ByName, Apply;
    sent := Announceable(ByName(d), ByName(Apply(d, op)),
                         op.UpdateMgmtOp? && !MgmtRefused(d, op.cert));
  }

  /** Erasing on every KeyDeleted signal leaves exactly the entries of keys not deleted. */
  lemma {:induction false} SignalsErase(v: Validator, d: Db, sent: seq<Signal>, capacity: nat)
    requires K.UniqueEntries(v.cache) && |v.cache| <= K.Bound(capacity)
    ensures var r := OnSignals(v, d, sent);
            && K.UniqueEntries(r.cache) && |r.cache| <= K.Bound(capacity)
            && (forall e :: e in r.cache <==> e in v.cache && KeyDeleted(e.name) !in sent)
            && r.mgmt == if MgmtChanged in sent then Reload(v.mgmt, d) else v.mgmt
    decreases |sent|
  {
    hide OnSignal, K.UniqueEntries, K.Bound;
    if sent != [] {
      OneSignalErases(v, d, sent[0], capacity);
      SignalsErase(OnSignal(v, d, sent[0]), d, sent[1..], capacity);
      assert sent == [sent[0]] + sent[1..];
    }
  }

  lemma OneSignalErases(v: Validator, d: Db, signal: Signal, capacity: nat)
    requires K.UniqueEntries(v.cache) && |v.cache| <= K.Bound(capacity)
    ensures var r := OnSignal(v, d, signal);
            && K.UniqueEntries(r.cache) && |r.cache| <= K.Bound(capacity)
            && (forall e :: e in r.cache <==> e in v.cache && KeyDeleted(e.name) != signal)
            && r.mgmt == if signal == MgmtChanged then Reload(v.mgmt, d) else v.mgmt
  {
    if signal.KeyDeleted? {
      K.StepKeepsUnique(v.cache, capacity, K.EraseOp(signal.keyName));
      K.StepKeepsBound(v.cache, capacity, K.EraseOp(signal.keyName));
      K.EntriesExactly(v.cache, capacity, signal.keyName, []);
      hide K.UniqueEntries, K.Bound, K.Erased;
    }
  }

  /** A key that is there before and after an operation is the same key. */
  lemma KeysPersist(s: Store, op: Op, n: Name)
    requires n in s.keys && n in Perform(s, op).keys
    ensures Perform(s, op).keys[n] == s.keys[n]
  {
  }

  lemma MgmtFollows(d: Db, op: Op)
    requires Valid(d) && Chosen(d, op)
    ensures var r := Apply(d, op);
            && (d.owner.Some? && d.mgmt.Some? ==> r.owner.Some? && r.mgmt.Some?)
            && (!(op.UpdateMgmtOp? && !MgmtRefused(d, op.cert)) ==> r.owner == d.owner && r.mgmt == d.mgmt)
  {
  }

  /** After an operation and its signals the validator agrees with the database again. */
  lemma OperationKeeps(v: Validator, d: Db, capacity: nat, op: Op, sent: seq<Signal>)
    requires Valid(d) && Chosen(d, op) && Emits(d, op, sent) && Agrees(v, d, capacity)
    ensures Agrees(OnSignals(v, Apply(d, op), sent), Apply(d, op), capacity)
  {
    hide Valid, ByName, Apply, Perform, K.UniqueEntries;
    var r := Apply(d, op);
    ApplyRefines(d, op);
    MgmtFollows(d, op);
    SignalsErase(v, r, sent, capacity);
    var c := OnSignals(v, r, sent).cache;
    forall i | 0 <= i < |c|
      ensures c[i].name in ByName(r).keys && ByName(r).keys[c[i].name] == c[i].key
    {
      var j :| 0 <= j < |v.cache| && v.cache[j] == c[i];
      KeysPersist(ByName(d), op, c[i].name);
    }
  }

  // ------------------------------------------------------------------ whole runs

  datatype Event = Operate(op: Op, sent: seq<Signal>) | Validate(interest: Interest)

  datatype World = World(db: Db, validator: Validator)

  ghost predicate Possible(d: Db, e: Event) { e.Operate? ==> Chosen(d, e.op) && Emits(d, e.op, e.sent) }

  ghost function Next(w: World, capacity: nat, e: Event): World
    requires Possible(w.db, e)
  {
    match e
    case Operate(op, sent) => World(Apply(w.db, op), OnSignals(w.validator, Apply(w.db, op), sent))
    case Validate(i) => w.(validator := Checked(w.validator, ByName(w.db).keys, capacity, i).1)
  }

  ghost predicate Playable(w: World, capacity: nat, events: seq<Event>)
    decreases |events|
  {
    events == [] || (Possible(w.db, events[0]) && Playable(Next(w, capacity, events[0]), capacity, events[1..]))
  }

  ghost function Run(w: World, capacity: nat, events: seq<Event>): World
    requires Playable(w, capacity, events)
    decreases |events|
  {
    if events == [] then w else Run(Next(w, capacity, events[0]), capacity, events[1..])
  }

  lemma {:induction false} RunAgrees(w: World, capacity: nat, events: seq<Event>)
    requires Valid(w.db) && Agrees(w.validator, w.db, capacity) && Playable(w, capacity, events)
    ensures var r := Run(w, capacity, events); Valid(r.db) && Agrees(r.validator, r.db, capacity)
    decreases |events|
  {
    hide Valid, Agrees, ByName, Apply, Emits, Checked, OnSignals;
    if events != [] {
      match events[0]
      case Operate(op, sent) =>
        ApplyRefines(w.db, op);
        OperationKeeps(w.validator, w.db, capacity, op, sent);
        RunAgrees(Next(w, capacity, events[0]), capacity, events[1..]);
      case Validate(i) =>
        CheckIsDirect(w.validator, w.db, capacity, i);
        RunAgrees(Next(w, capacity, events[0]), capacity, events[1..]);
    }
  }

  /** For a validator created on any database, after any interleaving of operations with
      validations: the next decision is the one that the database alone determines, although
      keys may come from the cache, and the cache is within its bound. */
  lemma CachedValidationIsDirect(d: Db, capacity: nat, events: seq<Event>, i: Interest)
    requires Valid(d) && Playable(World(d, Fresh(d)), capacity, events)
    ensures var w := Run(World(d, Fresh(d)), capacity, events);
            && Checked(w.validator, ByName(w.db).keys, capacity, i).0 == Direct(w.db, i)
            && |w.validator.cache| <= K.Bound(capacity)
  {
    hide Valid, ByName, Checked, Direct;
    RunAgrees(World(d, Fresh(d)), capacity, events);
    var w := Run(World(d, Fresh(d)), capacity, events);
    CheckIsDirect(w.validator, w.db, capacity, i);
  }

  /** An Interest that names nine components and the user of the management certificate. */
  ghost predicate Addressed(d: Db, i: Interest) {
    d.mgmt.Some? && i.size == 9 && |d.mgmt.value.keyName| == 5 && i.user == d.mgmt.value.keyName[2]
  }

  /** Why an Interest is refused: the first of these conditions that it does not meet. */
  lemma RefusedExactly(d: Db, i: Interest)
    requires Valid(d)
    ensures Direct(d, i) == Reject(NotInitialized) <==> d.mgmt.None?
    ensures Direct(d, i) == Reject(NotSigned) <==> d.mgmt.Some? && i.size != 9
    ensures Direct(d, i) == Reject(WrongUser) <==> d.mgmt.Some? && i.size == 9 && !Addressed(d, i)
    ensures Direct(d, i) == Reject(BadSignature) <==> Addressed(d, i) && i.signature.Malformed?
    ensures Direct(d, i) == Reject(NoLocator) <==> Addressed(d, i) && i.signature.NoKeyLocator?
    ensures Direct(d, i) == Reject(NotAName) <==> Addressed(d, i) && i.signature.LocatorNotName?
    ensures Direct(d, i) == Reject(NoSigningKey) <==>
              && Addressed(d, i) && i.signature.Locator? && i.signature.name != Parent(d.mgmt.value.name)
              && i.signature.keyName.None?
    ensures Direct(d, i) == Reject(NotTrusted) <==>
              && Addressed(d, i) && i.signature.Locator? && i.signature.name != Parent(d.mgmt.value.name)
              && i.signature.keyName.Some? && i.signature.keyName.value !in ByName(d).keys
  {
    hide ByName;
  }

  /** Whatever has been done since the PIB was empty: a locator that names the last accepted
      management certificate is checked with that certificate's key, and while none has been accepted
      every Interest is refused. */
  lemma LastAcceptedIsTrusted(ops: seq<Op>, i: Interest)
    requires PibDbTheorems.Playable(EMPTY, ops)
    ensures var d := PibDbTheorems.Run(EMPTY, ops);
            match LastAccepted(None, ops)
            case None => Direct(d, i) == Reject(NotInitialized)
            case Some(cert) =>
              && ManagementKey(cert.keyName, if |cert.keyName| == 5 then cert.keyName[2] else [])
              && (i.size == 9 && i.user == cert.keyName[2]
                  && i.signature.Locator? && i.signature.name == Parent(cert.name) ==>
                    Direct(d, i) == VerifyWith(cert.publicKey))
  {
    hide Valid, ByName, Direct, LastAccepted, PibDbTheorems.Run, PibDbTheorems.Playable;
    var d := PibDbTheorems.Run(EMPTY, ops);
    DatabaseRefinesStore(ops);
    MgmtIsLastAccepted(ops);
    RefusedExactly(d, i);
    if d.mgmt.Some? {
      StoredFollowsConvention(d);
      NamedByConvention(d.mgmt.value.keyName);
      VerifiedExactly(d, i, d.mgmt.value.publicKey);
    }
  }

  lemma StoredFollowsConvention(d: Db)
    requires Valid(d) && d.mgmt.Some?
    ensures FollowsConvention(d.mgmt.value.keyName)
  {
  }

  // ------------------------------------------------------------------ the object

  class PibValidator {
    const db: PibDatabase.PibDb
    const keyCache: K.KeyCache
    var isMgmtReady: bool
    var owner: Option<Component>
    var mgmtCert: Option<Certificate>

    ghost function View(): Validator
      reads this, keyCache
    {
      Validator(Mgmt(isMgmtReady, owner, mgmtCert), keyCache.keys)
    }

    /** The size asked for is not passed on: the cache always has the default capacity. */
    constructor (db: PibDatabase.PibDb, maxCacheSize: nat)
      ensures this.db == db && View() == Fresh(db.View()) && fresh(keyCache)
      ensures keyCache.capacity == K.DEFAULT_CAPACITY
    {
      this.db := db;
      keyCache := new K.KeyCache(K.DEFAULT_CAPACITY);
      owner, mgmtCert := db.owner, db.mgmt;
      isMgmtReady := db.owner.Some? && db.mgmt.Some?;
    }

    /** Connected to mgmtCertificateChanged. */
    method OnMgmtCertificateChanged()
      modifies this
      ensures View() == OnSignal(old(View()), db.View(), MgmtChanged)
    {
      owner := db.owner;
      mgmtCert := db.mgmt;
      if owner.Some? && mgmtCert.Some? {
        isMgmtReady := true;
      }
    }

    /** Connected to keyDeleted. */
    method OnKeyDeleted(keyName: Name)
      modifies keyCache
      ensures View() == OnSignal(old(View()), db.View(), KeyDeleted(keyName))
    {
      keyCache.Erase(keyName);
    }

    /** An Interest is validated exactly when the database alone determines a key for it and its
        signature verifies with that key. */
    method CheckPolicy(i: Interest, verifySignature: Octets -> bool) returns (validated: bool)
      requires Valid(db.View()) && Agrees(View(), db.View(), keyCache.capacity)
      modifies keyCache
      ensures var verdict := Direct(db.View(), i);
              validated <==> verdict.VerifyWith? && verifySignature(verdict.key)
      ensures View() == Checked(old(View()), ByName(db.View()).keys, keyCache.capacity, i).1
      ensures Agrees(View(), db.View(), keyCache.capacity)
    {
      var verdict := ChooseKey(i);
      validated := verdict.VerifyWith? && verifySignature(verdict.key);
    }

    /** The part of checkPolicy that determines the key: the decision is the database's own,
        whether or not the key was cached. */
    method ChooseKey(i: Interest) returns (verdict: Verdict)
      requires Valid(db.View()) && Agrees(View(), db.View(), keyCache.capacity)
      modifies keyCache
      ensures (verdict, View()) == Checked(old(View()), ByName(db.View()).keys, keyCache.capacity, i)
      ensures verdict == Direct(db.View(), i) && Agrees(View(), db.View(), keyCache.capacity)
    {
      hide Valid, ByName, Agrees, Direct;
      CheckIsDirect(View(), db.View(), keyCache.capacity, i);
      match Choose(Mgmt(isMgmtReady, owner, mgmtCert), i)
      case Settled(settled) => return settled;
      case NormalKey(keyName) =>
        var key := keyCache.Find(keyName);
        if key.None? {
          key := db.GetKey(keyName);
          if key.None? {
            return Reject(NotTrusted);
          }
          keyCache.Insert(keyName, key.value);
        }
        return VerifyWith(key.value);
    }
  }
}
