/** One table of the PIB together with its triggers.  The identities, keys and certificates
    tables have the same triggers, up to the column that groups their rows: a key row belongs
    to an identity row, a certificate row to a key row, and all identity rows belong together. */
module PibTable {
  import opened Names
  import opened Optional

  datatype Row<T> = Row(parent: int, name: Name, value: T, isDefault: bool)

  /** Rows by row id. */
  type Table<T> = map<int, Row<T>>

  predicate HasName<T>(t: Table<T>, name: Name) { exists i :: i in t && t[i].name == name }

  predicate HasDefault<T>(t: Table<T>, parent: int) {
    exists i :: i in t && t[i].parent == parent && t[i].isDefault
  }

  /** Whether the update trigger fires for the row called `name` and clears the group `parent`. */
  predicate Clears<T>(t: Table<T>, name: Name, parent: int) {
    exists i :: i in t && t[i].name == name && t[i].parent == parent && !t[i].isDefault
  }

  /** UPDATE ... SET is_default=1 WHERE name=?, after the trigger that clears the group. */
  function SetDefault<T>(t: Table<T>, name: Name): Table<T> {
    map i | i in t ::
      if t[i].name == name then t[i].(isDefault := true)
      else if Clears(t, name, t[i].parent) then t[i].(isDefault := false)
      else t[i]
  }

  /** INSERT with an unused row id: the unique index refuses a name that exists, and the
      trigger makes the new row the default of a group that has none. */
  function Insert<T>(t: Table<T>, id: int, parent: int, name: Name, value: T): Table<T>
    requires id !in t
  {
    if HasName(t, name) then t
    else
      var t1 := t[id := Row(parent, name, value, false)];
      if HasDefault(t1, parent) then t1 else SetDefault(t1, name)
  }

  function RowsNamed<T>(t: Table<T>, name: Name): set<int> { set i | i in t && t[i].name == name }

  function RowsUnder<T>(t: Table<T>, parents: set<int>): set<int> { set i | i in t && t[i].parent in parents }

  // ------------------------------------------------------------------ what a table keeps

  ghost predicate UniqueNames<T>(t: Table<T>) {
    forall i, j :: i in t && j in t && t[i].name == t[j].name ==> i == j
  }

  ghost predicate OneDefault<T>(t: Table<T>) {
    forall i, j :: i in t && j in t && t[i].isDefault && t[j].isDefault && t[i].parent == t[j].parent ==> i == j
  }

  ghost predicate Sound<T>(t: Table<T>) { UniqueNames(t) && OneDefault(t) }

  /** `r` has the rows of `t`, up to which of them are defaults. */
  ghost predicate SameRows<T>(t: Table<T>, r: Table<T>) {
    r.Keys == t.Keys && forall i :: i in t ==> r[i] == t[i].(isDefault := r[i].isDefault)
  }

  /** The row id of the row called `name`. */
  ghost function IdOf<T>(t: Table<T>, name: Name): (id: int)
    requires HasName(t, name)
    ensures id in t && t[id].name == name
  {
    var id :| id in t && t[id].name == name;
    id
  }

  ghost function Find<T>(t: Table<T>, name: Name): Option<T> {
    if HasName(t, name) then Some(t[IdOf(t, name)].value) else None
  }

  /** SetDefault makes the named row the one default of its group and leaves other groups alone. */
  lemma SetDefaultMeans<T>(t: Table<T>, name: Name)
    requires Sound(t)
    ensures var r := SetDefault(t, name);
            && Sound(r) && SameRows(t, r)
            && (!HasName(t, name) ==> r == t)
            && forall i :: i in t && t[i].name == name ==>
                 forall j :: j in t ==>
                   r[j].isDefault == if t[j].parent == t[i].parent then j == i else t[j].isDefault
  {
    var r := SetDefault(t, name);
    if HasName(t, name) {
      var i := IdOf(t, name);
      forall j | j in t
        ensures r[j].isDefault == if t[j].parent == t[i].parent then j == i else t[j].isDefault
      {
        if t[i].isDefault {
          assert !Clears(t, name, t[j].parent);
        } else {
          assert Clears(t, name, t[i].parent);
        }
      }
      assert forall j :: j in r ==> r[j].parent == t[j].parent && r[j].name == t[j].name;
    } else {
      forall j | j in t
        ensures r[j] == t[j]
      {
        assert t[j].name != name && !Clears(t, name, t[j].parent);
      }
      assert r == t;
    }
  }

  /** The named row, if there is one, is the only default of its group; no other group has changed. */
  ghost predicate MadeDefault<T>(t: Table<T>, r: Table<T>, name: Name) {
    && SameRows(t, r)
    && forall i :: i in t ==>
         r[i].isDefault == if HasNameIn(t, name, t[i].parent) then t[i].name == name else t[i].isDefault
  }

  predicate HasNameIn<T>(t: Table<T>, name: Name, parent: int) {
    exists i :: i in t && t[i].name == name && t[i].parent == parent
  }

  lemma SetDefaultMakes<T>(t: Table<T>, name: Name)
    requires Sound(t)
    ensures MadeDefault(t, SetDefault(t, name), name)
  {
    var r := SetDefault(t, name);
    SetDefaultMeans(t, name);
    hide SetDefault;
    forall i | i in t
      ensures r[i].isDefault == if HasNameIn(t, name, t[i].parent) then t[i].name == name else t[i].isDefault
    {
      if HasNameIn(t, name, t[i].parent) {
        var j :| j in t && t[j].name == name && t[j].parent == t[i].parent;
        assert r[i].isDefault == (i == j);
      } else if HasName(t, name) {
        var j := IdOf(t, name);
        assert t[j].parent != t[i].parent;
      }
    }
  }

  /** A new name gets one new row, and its group then has exactly one default; a name that
      exists changes nothing. */
  lemma InsertMeans<T>(t: Table<T>, id: int, parent: int, name: Name, value: T)
    requires Sound(t) && id !in t
    ensures var r := Insert(t, id, parent, name, value);
            && Sound(r)
            && (HasName(t, name) ==> r == t)
            && (!HasName(t, name) ==>
                  && SameRows(t[id := Row(parent, name, value, false)], r) && HasDefault(r, parent)
                  && r[id].isDefault == !HasDefault(t, parent)
                  && forall i :: i in t ==> r[i] == t[i])
  {
    if !HasName(t, name) {
      var t1 := t[id := Row(parent, name, value, false)];
      assert Sound(t1);
      SetDefaultMeans(t1, name);
      assert t1[id].name == name;
      if HasDefault(t, parent) {
        var i :| i in t && t[i].parent == parent && t[i].isDefault;
        assert t1[i].isDefault && t1[i].parent == parent;
      } else {
        var r := SetDefault(t1, name);
        assert r[id].isDefault && r[id].parent == parent;
      }
    }
  }

  lemma RemoveKeeps<T>(t: Table<T>, gone: set<int>)
    requires Sound(t)
    ensures Sound(t - gone)
  {
  }

  lemma FindIs<T>(t: Table<T>, id: int)
    requires Sound(t) && id in t
    ensures HasName(t, t[id].name) && IdOf(t, t[id].name) == id && Find(t, t[id].name) == Some(t[id].value)
  {
  }

  // ------------------------------------------------------------------ a table by name

  function NamesOf<T>(t: Table<T>): set<Name> { set i | i in t :: t[i].name }

  /** What a table holds, without its row ids and defaults. */
  ghost function Values<T>(t: Table<T>): map<Name, T> {
    map n | n in NamesOf(t) :: t[IdOf(t, n)].value
  }

  lemma NamesAt<T>(t: Table<T>, name: Name)
    ensures HasName(t, name) <==> name in NamesOf(t)
  {
    if HasName(t, name) {
      assert t[IdOf(t, name)].name == name;
    }
  }

  lemma ValuesAt<T>(t: Table<T>, name: Name)
    ensures HasName(t, name) <==> name in Values(t)
    ensures Find(t, name) == if name in Values(t) then Some(Values(t)[name]) else None
  {
    if HasName(t, name) {
      assert t[IdOf(t, name)].name == name;
    }
  }

  lemma SameValues<T>(t: Table<T>, r: Table<T>)
    requires Sound(t) && SameRows(t, r)
    ensures Values(r) == Values(t)
  {
    assert NamesOf(r) == NamesOf(t) by {
      assert forall i :: i in t ==> r[i].name == t[i].name;
    }
    forall n | n in Values(t)
      ensures Values(r)[n] == Values(t)[n]
    {
      assert HasName(r, n) && HasName(t, n);
      assert t[IdOf(r, n)].name == n;
    }
  }

  lemma InsertValues<T>(t: Table<T>, id: int, parent: int, name: Name, value: T)
    requires Sound(t) && id !in t
    ensures Values(Insert(t, id, parent, name, value)) ==
            if name in Values(t) then Values(t) else Values(t)[name := value]
  {
    ValuesAt(t, name);
    InsertMeans(t, id, parent, name, value);
    if !HasName(t, name) {
      var t1 := t[id := Row(parent, name, value, false)];
      SameValues(t1, Insert(t, id, parent, name, value));
      AddedValues(t, id, Row(parent, name, value, false));
    }
  }

  lemma AddedValues<T>(t: Table<T>, id: int, row: Row<T>)
    requires Sound(t) && id !in t && !HasName(t, row.name)
    ensures Values(t[id := row]) == Values(t)[row.name := row.value]
  {
    var t1 := t[id := row];
    assert t1[id].name == row.name;
    assert NamesOf(t1) == NamesOf(t) + {row.name} by {
      assert forall i :: i in t ==> t1[i] == t[i];
    }
    forall n | n in NamesOf(t1)
      ensures Values(t1)[n] == Values(t)[row.name := row.value][n]
    {
      assert HasName(t1, n);
      if n != row.name {
        assert IdOf(t1, n) in t;
      }
    }
  }

  /** Rows that stay, by name. */
  lemma KeptValues<T>(t: Table<T>, gone: set<int>)
    requires Sound(t)
    ensures forall n :: n in Values(t - gone) <==> exists i :: i in t && i !in gone && t[i].name == n
    ensures forall i :: i in t && i !in gone ==> t[i].name in Values(t - gone) && Values(t - gone)[t[i].name] == t[i].value
  {
    var r := t - gone;
    forall i | i in t && i !in gone
      ensures t[i].name in Values(r) && Values(r)[t[i].name] == t[i].value
    {
      assert r[i] == t[i];
      FindIs(r, i);
      ValuesAt(r, t[i].name);
    }
    forall n
      ensures n in Values(r) <==> exists i :: i in t && i !in gone && t[i].name == n
    {
      if n in Values(r) {
        ValuesAt(r, n);
        assert t[IdOf(r, n)].name == n;
      }
    }
  }

  /** The row behind a name. */
  lemma RowOf<T>(t: Table<T>, n: Name) returns (i: int)
    requires n in Values(t)
    ensures i in t && t[i].name == n && Values(t)[n] == t[i].value
  {
    ValuesAt(t, n);
    i := IdOf(t, n);
  }

  lemma RemovedNamed<T>(t: Table<T>, name: Name)
    requires Sound(t)
    ensures Values(t - RowsNamed(t, name)) == Values(t) - {name}
  {
    var gone := RowsNamed(t, name);
    var r := t - gone;
    KeptValues(t, gone);
    forall n
      ensures n in Values(r) <==> n in Values(t) && n != name
      ensures n in Values(r) ==> Values(r)[n] == Values(t)[n]
    {
      if n in Values(t) {
        var i := RowOf(t, n);
      }
      if n in Values(r) {
        var i := RowOf(r, n);
        FindIs(t, i);
        ValuesAt(t, n);
      }
    }
  }

  lemma InsertNames<T>(t: Table<T>, id: int, parent: int, name: Name, value: T)
    requires Sound(t) && id !in t
    ensures NamesOf(Insert(t, id, parent, name, value)) == NamesOf(t) + {name}
    ensures HasName(Insert(t, id, parent, name, value), name)
  {
    InsertMeans(t, id, parent, name, value);
    var r := Insert(t, id, parent, name, value);
    if HasName(t, name) {
      assert t[IdOf(t, name)].name == name;
    } else {
      assert r[id].name == name;
      assert forall i :: i in r <==> i in t || i == id;
    }
  }

  lemma SetDefaultNames<T>(t: Table<T>, name: Name)
    requires Sound(t)
    ensures NamesOf(SetDefault(t, name)) == NamesOf(t)
  {
    SetDefaultMeans(t, name);
    assert forall i :: i in t ==> SetDefault(t, name)[i].name == t[i].name;
  }

  lemma RemovedNames<T>(t: Table<T>, name: Name)
    ensures NamesOf(t - RowsNamed(t, name)) == NamesOf(t) - {name}
  {
    var r := t - RowsNamed(t, name);
    forall n | n in NamesOf(t) && n != name
      ensures n in NamesOf(r)
    {
      var i :| i in t && t[i].name == n;
      assert i in r;
    }
  }

  // ------------------------------------------------------------------ two tables

  /** Each row of `t` has its parent row in `p`, under the name that `f` reads off the row. */
  ghost predicate Rooted<S, T>(p: Table<S>, t: Table<T>, f: (Name, T) -> Name) {
    forall i :: i in t ==> t[i].parent in p && p[t[i].parent].name == f(t[i].name, t[i].value)
  }

  /** A cascade, by name: rows stay exactly when their parents do. */
  lemma Cascade<S, T>(p: Table<S>, t: Table<T>, f: (Name, T) -> Name, gone: set<int>)
    requires Sound(p) && Sound(t) && Rooted(p, t, f)
    ensures var r := Values(t - RowsUnder(t, gone));
            && Rooted(p - gone, t - RowsUnder(t, gone), f)
            && (forall n :: n in r <==> n in Values(t) && f(n, Values(t)[n]) in NamesOf(p - gone))
            && (forall n :: n in r ==> r[n] == Values(t)[n])
    ensures forall n :: n in Values(t) ==> f(n, Values(t)[n]) in NamesOf(p)
  {
    var away := RowsUnder(t, gone);
    var r := Values(t - away);
    KeptValues(t, away);
    forall n
      ensures n in Values(t) ==> f(n, Values(t)[n]) in NamesOf(p)
      ensures n in r <==> n in Values(t) && f(n, Values(t)[n]) in NamesOf(p - gone)
      ensures n in r ==> r[n] == Values(t)[n]
    {
      if n in Values(t) {
        var i := RowOf(t, n);
        ParentStays(p, gone, t[i].parent);
      }
      if n in r {
        var i := RowOf(t - away, n);
        FindIs(t, i);
        ValuesAt(t, n);
      }
    }
  }

  lemma ParentStays<S>(p: Table<S>, gone: set<int>, i: int)
    requires Sound(p) && i in p
    ensures p[i].name in NamesOf(p)
    ensures p[i].name in NamesOf(p - gone) <==> i !in gone
  {
    if i !in gone {
      assert (p - gone)[i].name == p[i].name;
    }
  }

  lemma InsertKeepsRoots<S, T>(p: Table<S>, t: Table<T>, f: (Name, T) -> Name, id: int, parent: int, name: Name, value: T)
    requires Sound(t) && id !in t && Rooted(p, t, f)
    requires parent in p && p[parent].name == f(name, value)
    ensures Rooted(p, Insert(t, id, parent, name, value), f)
  {
    InsertMeans(t, id, parent, name, value);
    if !HasName(t, name) {
      var r := Insert(t, id, parent, name, value);
      assert r[id].parent == parent && r[id].name == name && r[id].value == value;
    }
  }

  /** The parents may gain rows and change their defaults. */
  lemma GrowingKeepsRoots<S, T>(p: Table<S>, q: Table<S>, t: Table<T>, f: (Name, T) -> Name)
    requires Rooted(p, t, f) && forall i :: i in p ==> i in q && q[i].name == p[i].name
    ensures Rooted(q, t, f)
  {
  }

  lemma SetDefaultKeepsRoots<S, T>(p: Table<S>, t: Table<T>, f: (Name, T) -> Name, name: Name)
    requires Sound(t) && Rooted(p, t, f)
    ensures Rooted(p, SetDefault(t, name), f)
  {
    SetDefaultMeans(t, name);
    assert forall i :: i in t ==> SetDefault(t, name)[i] == t[i].(isDefault := SetDefault(t, name)[i].isDefault);
  }
}
