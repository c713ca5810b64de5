/** The validator's key cache: bounded, with the least recently used key evicted first. */
module KeyCaching {
  import opened Bytes
  import opened Names
  import opened Optional

  datatype Entry = Entry(name: Name, key: Octets)

  const DEFAULT_CAPACITY := 100

  /** The entries in the order of their last use, the longest unused first. */
  type Cache = seq<Entry>

  predicate Has(c: Cache, name: Name) { exists i :: 0 <= i < |c| && c[i].name == name }

  function IndexOf(c: Cache, name: Name): (i: nat)
    requires Has(c, name)
    ensures i < |c| && c[i].name == name && forall j :: 0 <= j < i ==> c[j].name != name
  {
    if c[0].name == name then 0
    else
      assert Has(c[1..], name) by {
        var k :| 0 <= k < |c| && c[k].name == name;
        assert c[1..][k - 1].name == name;
      }
      1 + IndexOf(c[1..], name)
  }

  function Without(c: Cache, i: nat): Cache
    requires i < |c|
  {
    c[..i] + c[i + 1..]
  }

  /** The entry becomes the most recently used one. */
  function Adjusted(c: Cache, name: Name): Cache
    requires Has(c, name)
  {
    var i := IndexOf(c, name);
    Without(c, i) + [c[i]]
  }

  function Evicted(c: Cache): Cache { if c == [] then c else c[1..] }

  /** A name that is cached keeps its old key. */
  function Inserted(c: Cache, capacity: nat, name: Name, key: Octets): Cache {
    if Has(c, name) then Adjusted(c, name)
    else (if |c| >= capacity then Evicted(c) else c) + [Entry(name, key)]
  }

  function Found(c: Cache, name: Name): Option<Octets> {
    if Has(c, name) then Some(c[IndexOf(c, name)].key) else None
  }

  function Erased(c: Cache, name: Name): Cache {
    if Has(c, name) then Without(c, IndexOf(c, name)) else c
  }

  // ------------------------------------------------------------------ runs

  datatype Op = InsertOp(name: Name, key: Octets) | FindOp(name: Name) | EraseOp(name: Name)

  function Step(c: Cache, capacity: nat, op: Op): Cache {
    match op
    case InsertOp(name, key) => Inserted(c, capacity, name, key)
    case FindOp(name) => if Has(c, name) then Adjusted(c, name) else c
    case EraseOp(name) => Erased(c, name)
  }

  function Run(c: Cache, capacity: nat, ops: seq<Op>): Cache {
    if ops == [] then c else Step(Run(c, capacity, ops[..|ops| - 1]), capacity, ops[|ops| - 1])
  }

  ghost predicate UniqueEntries(c: Cache) { forall i, j :: 0 <= i < j < |c| ==> c[i].name != c[j].name }

  lemma WithoutKeepsUnique(c: Cache, i: nat)
    requires UniqueEntries(c) && i < |c|
    ensures UniqueEntries(Without(c, i))
    ensures forall k :: 0 <= k < |c| - 1 ==>
              Without(c, i)[k] == (if k < i then c[k] else c[k + 1]) && Without(c, i)[k].name != c[i].name
  {
  }

  /** Names stay unique, and an erased name is gone. */
  lemma StepKeepsUnique(c: Cache, capacity: nat, op: Op)
    requires UniqueEntries(c)
    ensures var r := Step(c, capacity, op); UniqueEntries(r) && (op.EraseOp? ==> !Has(r, op.name))
  {
    if Has(c, op.name) {
      WithoutKeepsUnique(c, IndexOf(c, op.name));
    }
  }

  /** No entry appears but the one inserted. */
  lemma OnlyOldEntries(c: Cache, capacity: nat, op: Op)
    ensures var r := Step(c, capacity, op);
            forall i :: 0 <= i < |r| ==> r[i] in c || (op.InsertOp? && r[i] == Entry(op.name, op.key))
  {
  }

  /** The last operation that used a name: an insertion or a lookup of it. */
  function LastUse(ops: seq<Op>, name: Name): (at: int)
    ensures -1 <= at < |ops|
  {
    if ops == [] then -1
    else if !ops[|ops| - 1].EraseOp? && ops[|ops| - 1].name == name then |ops| - 1
    else LastUse(ops[..|ops| - 1], name)
  }

  /** The entries are in the order of their last use. */
  ghost predicate ByLastUse(c: Cache, ops: seq<Op>) {
    forall i, j :: 0 <= i < j < |c| ==> LastUse(ops, c[i].name) < LastUse(ops, c[j].name)
  }

  /** The cached entries are those of `c` but one, and `last`. */
  lemma RequeuedKeepsOrder(c: Cache, i: nat, last: Entry, ops: seq<Op>, op: Op)
    requires UniqueEntries(c) && ByLastUse(c, ops) && i < |c| && last.name == op.name && !op.EraseOp?
    requires forall j :: 0 <= j < |c| && j != i ==> c[j].name != op.name
    ensures UniqueEntries(Without(c, i) + [last]) && ByLastUse(Without(c, i) + [last], ops + [op])
  {
    WithoutKeepsOrder(c, i, ops);
    AppendedKeepsOrder(Without(c, i), last, ops, op);
  }

  lemma WithoutKeepsOrder(c: Cache, i: nat, ops: seq<Op>)
    requires UniqueEntries(c) && ByLastUse(c, ops) && i < |c|
    ensures UniqueEntries(Without(c, i)) && ByLastUse(Without(c, i), ops)
    ensures forall k :: 0 <= k < |c| - 1 ==> Without(c, i)[k].name != c[i].name
  {
    WithoutKeepsUnique(c, i);
  }

  lemma AppendedKeepsOrder(c: Cache, last: Entry, ops: seq<Op>, op: Op)
    requires UniqueEntries(c) && ByLastUse(c, ops) && last.name == op.name && !op.EraseOp?
    requires forall j :: 0 <= j < |c| ==> c[j].name != op.name
    ensures UniqueEntries(c + [last]) && ByLastUse(c + [last], ops + [op])
  {
    var more := ops + [op];
    assert more[..|more| - 1] == ops;
    forall i | 0 <= i < |c|
      ensures LastUse(more, c[i].name) == LastUse(ops, c[i].name) < |ops| == LastUse(more, op.name)
    {
    }
  }

  lemma OtherUseKeepsOrder(c: Cache, ops: seq<Op>, op: Op)
    requires ByLastUse(c, ops) && (op.EraseOp? || forall j :: 0 <= j < |c| ==> c[j].name != op.name)
    ensures ByLastUse(c, ops + [op])
  {
    assert (ops + [op])[..|ops|] == ops;
  }

  lemma StepKeepsOrder(c: Cache, capacity: nat, ops: seq<Op>, op: Op)
    requires UniqueEntries(c) && ByLastUse(c, ops)
    ensures var r := Step(c, capacity, op); UniqueEntries(r) && ByLastUse(r, ops + [op])
  {
    if Has(c, op.name) {
      var i := IndexOf(c, op.name);
      if op.EraseOp? {
        WithoutKeepsOrder(c, i, ops);
        OtherUseKeepsOrder(Without(c, i), ops, op);
      } else {
        RequeuedKeepsOrder(c, i, c[i], ops, op);
      }
    } else if op.InsertOp? {
      var kept := if |c| >= capacity then Evicted(c) else c;
      AppendedKeepsOrder(kept, Entry(op.name, op.key), ops, op);
    } else {
      OtherUseKeepsOrder(c, ops, op);
    }
  }

  function Bound(capacity: nat): nat { if capacity >= 1 then capacity else 1 }

  lemma StepKeepsBound(c: Cache, capacity: nat, op: Op)
    requires |c| <= Bound(capacity)
    ensures |Step(c, capacity, op)| <= Bound(capacity)
  {
  }

  /** After any sequence of operations the cache is in the order of last use, holds each name
      once, and is no larger than its capacity, or one entry for capacity 0. */
  lemma {:induction false} CacheIsByLastUse(capacity: nat, ops: seq<Op>)
    ensures var c := Run([], capacity, ops); UniqueEntries(c) && ByLastUse(c, ops) && |c| <= Bound(capacity)
    decreases |ops|
  {
    hide Step, UniqueEntries, ByLastUse;
    if ops == [] {
      NothingCached();
    } else {
      var before, op := ops[..|ops| - 1], ops[|ops| - 1];
      CacheIsByLastUse(capacity, before);
      StepKeepsOrder(Run([], capacity, before), capacity, before, op);
      StepKeepsBound(Run([], capacity, before), capacity, op);
      assert before + [op] == ops;
    }
  }

  lemma NothingCached()
    ensures UniqueEntries([]) && ByLastUse([], [])
  {
  }

  lemma HeldExactly(c: Cache, name: Name, key: Octets)
    requires UniqueEntries(c)
    ensures Found(c, name) == Some(key) <==> Entry(name, key) in c
    ensures !Has(c, name) <==> forall e :: e in c ==> e.name != name
  {
    if Has(c, name) {
      assert c[IndexOf(c, name)] in c;
    }
    forall e | e in c && e.name == name
      ensures Has(c, name) && e == c[IndexOf(c, name)]
    {
      var j :| 0 <= j < |c| && c[j] == e;
    }
  }

  lemma InsertedExactly(c: Cache, capacity: nat, name: Name, key: Octets)
    ensures multiset(Inserted(c, capacity, name, key)) ==
            if Has(c, name) then multiset(c)
            else multiset(c) - multiset(if |c| >= capacity && c != [] then [c[0]] else []) + multiset{Entry(name, key)}
  {
    hide Has;
    if Has(c, name) {
      MovedKeepsAll(c, IndexOf(c, name));
    } else if c != [] {
      assert c == [c[0]] + c[1..];
    }
  }

  /** The entries after each operation, each as often as it is held: a cached name changes none, a
      new one is added, in the place of the longest unused one only where the cache is full, and an
      erased one goes alone; a lookup finds exactly what is held. */
  lemma EntriesExactly(c: Cache, capacity: nat, name: Name, key: Octets)
    requires UniqueEntries(c)
    ensures multiset(Step(c, capacity, InsertOp(name, key))) ==
            if Has(c, name) then multiset(c)
            else multiset(c) - multiset(if |c| >= capacity && c != [] then [c[0]] else []) + multiset{Entry(name, key)}
    ensures multiset(Step(c, capacity, FindOp(name))) == multiset(c)
    ensures Found(c, name) == Some(key) <==> Entry(name, key) in c
    ensures forall e :: e in Step(c, capacity, EraseOp(name)) <==> e in c && e.name != name
  {
    hide Has, Inserted, Without, Found;
    HeldExactly(c, name, key);
    InsertedExactly(c, capacity, name, key);
    if Has(c, name) {
      MovedKeepsAll(c, IndexOf(c, name));
      WithoutExactly(c, IndexOf(c, name));
    }
  }

  lemma MovedKeepsAll(c: Cache, i: nat)
    requires i < |c|
    ensures multiset(Without(c, i) + [c[i]]) == multiset(c)
  {
    assert c == c[..i] + [c[i]] + c[i + 1..];
  }

  lemma WithoutExactly(c: Cache, i: nat)
    requires UniqueEntries(c) && i < |c|
    ensures forall e :: e in Without(c, i) <==> e in c && e.name != c[i].name
  {
    forall e
      ensures e in Without(c, i) <==> e in c && e.name != c[i].name
    {
      if e in c && e.name != c[i].name {
        var j :| 0 <= j < |c| && c[j] == e;
        assert e == Without(c, i)[if j < i then j else j - 1];
      }
      if e in Without(c, i) {
        var j :| 0 <= j < |c| - 1 && Without(c, i)[j] == e;
        assert e == c[if j < i then j else j + 1];
      }
    }
  }

  /** What an insertion into a full cache evicts is the entry whose last use is the oldest. */
  lemma EvictsLeastRecentlyUsed(capacity: nat, ops: seq<Op>, name: Name, key: Octets)
    requires var c := Run([], capacity, ops); !Has(c, name) && |c| >= capacity && c != []
    ensures var c := Run([], capacity, ops);
            && Inserted(c, capacity, name, key) == c[1..] + [Entry(name, key)]
            && forall i :: 1 <= i < |c| ==> LastUse(ops, c[0].name) < LastUse(ops, c[i].name)
  {
    CacheIsByLastUse(capacity, ops);
  }

  // ------------------------------------------------------------------ the object

  class KeyCache {
    const capacity: nat
    var keys: Cache

    constructor (capacity: nat)
      ensures this.capacity == capacity && keys == []
    {
      this.capacity := capacity;
      keys := [];
    }

    method Insert(name: Name, key: Octets)
      modifies this
      ensures keys == Inserted(old(keys), capacity, name, key)
    {
      if Has(keys, name) {
        AdjustLru(IndexOf(keys, name));
        return;
      }
      if |keys| >= capacity {
        EvictKey();
      }
      keys := keys + [Entry(name, key)];
    }

    /** A lookup counts as a use. */
    method Find(name: Name) returns (key: Option<Octets>)
      modifies this
      ensures key == Found(old(keys), name)
      ensures keys == if Has(old(keys), name) then Adjusted(old(keys), name) else old(keys)
    {
      if !Has(keys, name) {
        return None;
      }
      var i := IndexOf(keys, name);
      key := Some(keys[i].key);
      AdjustLru(i);
    }

    method Erase(name: Name)
      modifies this
      ensures keys == Erased(old(keys), name)
    {
      if Has(keys, name) {
        keys := Without(keys, IndexOf(keys, name));
      }
    }

    method EvictKey()
      modifies this
      ensures keys == Evicted(old(keys))
    {
      if keys != [] {
        keys := keys[1..];
      }
    }

    method AdjustLru(i: nat)
      requires i < |keys|
      modifies this
      ensures keys == Without(old(keys), i) + [old(keys)[i]]
    {
      var entry := keys[i];
      keys := Without(keys, i);
      keys := keys + [entry];
    }
  }
}
