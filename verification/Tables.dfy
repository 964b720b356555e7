/**
 The three durable tables and the six cached plans of src/persistence.c, as
 functions on maps. A plan that violates a key or a foreign key raises, which
 is None here and leaves the tables as they were.
 */
module Tables {
  import opened Base

  type Key = Bytes
  type Field = Bytes

  datatype Kind = KString | KInt | KHash | KList

  datatype Row = Row(kind: Kind, value: Option<Bytes>, expireAt: Option<int>, version: int)

  datatype Db = Db(store: map<Key, Row>, fields: map<(Key, Field), Bytes>, items: map<(Key, int), Bytes>)

  /** Child rows reference a parent row (the foreign keys of the schema). */
  ghost predicate ForeignKeys(db: Db) {
    && (forall kf :: kf in db.fields ==> kf.0 in db.store)
    && (forall ko :: ko in db.items ==> ko.0 in db.store)
  }

  /** `SELECT DISTINCT ON (key) … ORDER BY key, ordinality DESC`: the last entry of each key. */
  function LastWins<K, V>(rows: seq<(K, V)>): map<K, V> {
    if rows == [] then map[]
    else
      var n := |rows| - 1;
      LastWins(rows[..n])[rows[n].0 := rows[n].1]
  }

  lemma {:induction false} LastWinsKeys<K, V>(rows: seq<(K, V)>, k: K)
    ensures k in LastWins(rows) <==> exists i :: 0 <= i < |rows| && rows[i].0 == k
  {
    if rows != [] {
      var n := |rows| - 1;
      LastWinsKeys(rows[..n], k);
      assert forall i :: 0 <= i < n ==> rows[..n][i] == rows[i];
    }
  }

  lemma LastWinsSnoc<K, V>(rows: seq<(K, V)>, k: K, v: V)
    ensures LastWins(rows + [(k, v)]) == LastWins(rows)[k := v]
  {
    assert (rows + [(k, v)])[..|rows|] == rows;
  }

  function Members<K(!new)>(ks: seq<K>): (s: set<K>)
    ensures forall k :: k in s <==> k in ks
  {
    set k | k in ks
  }

  function UpsertRows(db: Db, rows: seq<(Key, Row)>): Db {
    db.(store := db.store + LastWins(rows))
  }

  function DeleteFields(db: Db, pairs: seq<(Key, Field)>): Db {
    db.(fields := db.fields - Members(pairs))
  }

  function UpsertFields(db: Db, rows: seq<((Key, Field), Bytes)>): Option<Db> {
    if exists i :: 0 <= i < |rows| && rows[i].0.0 !in db.store then None
    else Some(db.(fields := db.fields + LastWins(rows)))
  }

  function DeleteItems(db: Db, pairs: seq<(Key, int)>): Db {
    db.(items := db.items - Members(pairs))
  }

  predicate Collides(items: map<(Key, int), Bytes>, rows: seq<((Key, int), Bytes)>) {
    || (exists i :: 0 <= i < |rows| && rows[i].0 in items)
    || (exists i, j :: 0 <= i < j < |rows| && rows[i].0 == rows[j].0)
  }

  /** A plain INSERT: no ON CONFLICT clause. */
  function InsertItems(db: Db, rows: seq<((Key, int), Bytes)>): Option<Db> {
    if (exists i :: 0 <= i < |rows| && rows[i].0.0 !in db.store) || Collides(db.items, rows) then None
    else Some(db.(items := db.items + LastWins(rows)))
  }

  /** ON DELETE CASCADE removes the child rows. */
  function DeleteRows(db: Db, keys: seq<Key>): Db {
    Db(db.store - Members(keys),
       map kf | kf in db.fields && kf.0 !in keys :: db.fields[kf],
       map ko | ko in db.items && ko.0 !in keys :: db.items[ko])
  }

  /** The vectors that a flush or a drain builds before it runs the plans. */
  datatype Vectors = Vectors(
    rows: seq<(Key, Row)>,
    fieldUps: seq<((Key, Field), Bytes)>, fieldDels: seq<(Key, Field)>,
    itemIns: seq<((Key, int), Bytes)>, itemDels: seq<(Key, int)>,
    keyDels: seq<Key>)

  const NO_WORK := Vectors([], [], [], [], [], [])

  /** The fixed order: parents, field deletes, field upserts, item deletes, item inserts, parent deletes. */
  function RunPlans(db: Db, v: Vectors): Option<Db> {
    var db1 := DeleteFields(UpsertRows(db, v.rows), v.fieldDels);
    match UpsertFields(db1, v.fieldUps)
    case None => None
    case Some(db3) =>
      match InsertItems(DeleteItems(db3, v.itemDels), v.itemIns)
      case None => None
      case Some(db5) => Some(DeleteRows(db5, v.keyDels))
  }

  function Get<K, V>(m: map<K, V>, k: K): Option<V> {
    if k in m then Some(m[k]) else None
  }

  ghost predicate Parented<X>(db: Db, v: Vectors, rows: seq<((Key, X), Bytes)>) {
    forall i :: 0 <= i < |rows| ==> rows[i].0.0 in db.store || rows[i].0.0 in LastWins(v.rows)
  }

  /** When the six plans go through: every child has a parent and no inserted item collides. */
  lemma PlansSucceed(db: Db, v: Vectors)
    ensures RunPlans(db, v).Some? <==>
      Parented(db, v, v.fieldUps) && Parented(db, v, v.itemIns) && !Collides(db.items - Members(v.itemDels), v.itemIns)
  {
    var db1 := DeleteFields(UpsertRows(db, v.rows), v.fieldDels);
    assert db1.store == db.store + LastWins(v.rows);
    assert Parented(db, v, v.fieldUps) <==> UpsertFields(db1, v.fieldUps).Some?;
    if UpsertFields(db1, v.fieldUps).Some? {
      var db4 := DeleteItems(UpsertFields(db1, v.fieldUps).value, v.itemDels);
      assert db4.store == db1.store && db4.items == db.items - Members(v.itemDels);
    }
  }

  lemma KeyCell(db: Db, v: Vectors, k: Key)
    requires RunPlans(db, v).Some?
    ensures Get(RunPlans(db, v).value.store, k) ==
      if k in v.keyDels then None
      else if k in LastWins(v.rows) then Some(LastWins(v.rows)[k])
      else Get(db.store, k)
  {
  }

  lemma FieldCell(db: Db, v: Vectors, kf: (Key, Field))
    requires RunPlans(db, v).Some?
    ensures Get(RunPlans(db, v).value.fields, kf) ==
      if kf.0 in v.keyDels then None
      else if kf in LastWins(v.fieldUps) then Some(LastWins(v.fieldUps)[kf])
      else if kf in v.fieldDels then None
      else Get(db.fields, kf)
  {
  }

  lemma ItemCell(db: Db, v: Vectors, ko: (Key, int))
    requires RunPlans(db, v).Some?
    ensures Get(RunPlans(db, v).value.items, ko) ==
      if ko.0 in v.keyDels then None
      else if ko in LastWins(v.itemIns) then Some(LastWins(v.itemIns)[ko])
      else if ko in v.itemDels then None
      else Get(db.items, ko)
  {
  }

  /** The plans never leave a child without its parent. */
  lemma PlansKeepForeignKeys(db: Db, v: Vectors)
    requires ForeignKeys(db) && RunPlans(db, v).Some?
    ensures ForeignKeys(RunPlans(db, v).value)
  {
    var r := RunPlans(db, v).value;
    forall kf | kf in r.fields
      ensures kf.0 in r.store
    {
      LastWinsKeys(v.fieldUps, kf);
    }
    forall ko | ko in r.items
      ensures ko.0 in r.store
    {
      LastWinsKeys(v.itemIns, ko);
    }
  }

  /** No key occurs twice. */
  ghost predicate DistinctKeys(rows: seq<((Key, int), Bytes)>) {
    forall i, j :: 0 <= i < j < |rows| ==> rows[i].0 != rows[j].0
  }

  lemma DistinctSnoc(rows: seq<((Key, int), Bytes)>, ko: (Key, int), x: Bytes)
    ensures DistinctKeys(rows + [(ko, x)]) <==> DistinctKeys(rows) && ko !in LastWins(rows)
  {
    var t := rows + [(ko, x)];
    assert t[|rows|] == (ko, x) && forall i :: 0 <= i < |rows| ==> t[i] == rows[i];
    LastWinsKeys(rows, ko);
  }

  /** Two databases with the same cells are equal. */
  lemma SameCells(a: Db, b: Db)
    requires forall k :: Get(a.store, k) == Get(b.store, k)
    requires forall kf :: Get(a.fields, kf) == Get(b.fields, kf)
    requires forall ko :: Get(a.items, ko) == Get(b.items, ko)
    ensures a == b
  {
    forall k
      ensures k in a.store <==> k in b.store
      ensures k in a.store ==> a.store[k] == b.store[k]
    {
      assert Get(a.store, k) == Get(b.store, k);
    }
    forall kf
      ensures kf in a.fields <==> kf in b.fields
      ensures kf in a.fields ==> a.fields[kf] == b.fields[kf]
    {
      assert Get(a.fields, kf) == Get(b.fields, kf);
    }
    forall ko
      ensures ko in a.items <==> ko in b.items
      ensures ko in a.items ==> a.items[ko] == b.items[ko]
    {
      assert Get(a.items, ko) == Get(b.items, ko);
    }
    assert a.store == b.store && a.fields == b.fields && a.items == b.items;
  }
}
