/**
 The asynchronous drain (src/persistence.c, pg_redis_persistence_async_drain)
 executes a batch of events not one by one but grouped by kind, in six plans.
 This module states exactly when that reordering leaves the same tables as
 replaying the events in the order in which they were published.
 */
module AsyncDrain {
  import opened Base
  import opened Tables

  /** A decoded ring event. */
  datatype Change =
    | KeyUpsert(k: Key, kind: Kind, tlv: Bytes, expireAt: Option<int>, version: int)
    | KeyDelete(k: Key)
    | FieldUpsert(k: Key, f: Field, v: Bytes)
    | FieldDelete(k: Key, f: Field)
    | ItemInsert(k: Key, ord: int, v: Bytes)
    | ItemDelete(k: Key, ord: int)

  /** The parent row of an upsert: only non-empty scalar payloads carry a value. */
  function RowFor(c: Change): Row
    requires c.KeyUpsert?
  {
    Row(c.kind, if c.tlv == [] || (c.kind != KString && c.kind != KInt) then None else Some(c.tlv), c.expireAt, c.version)
  }

  /** The dispatch of one event into the vectors. */
  function Dispatch(v: Vectors, c: Change): Vectors {
    match c
    case KeyUpsert(k, _, _, _, _) => v.(rows := v.rows + [(k, RowFor(c))])
    case KeyDelete(k) => v.(keyDels := v.keyDels + [k])
    case FieldUpsert(k, f, x) => v.(fieldUps := v.fieldUps + [((k, f), x)])
    case FieldDelete(k, f) => v.(fieldDels := v.fieldDels + [(k, f)])
    case ItemInsert(k, o, x) => v.(itemIns := v.itemIns + [((k, o), x)])
    case ItemDelete(k, o) => v.(itemDels := v.itemDels + [(k, o)])
  }

  function Group(cs: seq<Change>): Vectors {
    if cs == [] then NO_WORK else Dispatch(Group(cs[..|cs| - 1]), cs[|cs| - 1])
  }

  // ----- The reference: one event at a time -----

  /** The statement that one event stands for; None where it violates a key. */
  function ReplayOne(db: Db, c: Change): Option<Db> {
    match c
    case KeyUpsert(k, _, _, _, _) => Some(db.(store := db.store[k := RowFor(c)]))
    case KeyDelete(k) => Some(DeleteRows(db, [k]))
    case FieldUpsert(k, f, x) => if k in db.store then Some(db.(fields := db.fields[(k, f) := x])) else None
    case FieldDelete(k, f) => Some(db.(fields := db.fields - {(k, f)}))
    case ItemInsert(k, o, x) =>
      if k in db.store && (k, o) !in db.items then Some(db.(items := db.items[(k, o) := x])) else None
    case ItemDelete(k, o) => Some(db.(items := db.items - {(k, o)}))
  }

  function Replay(db: Db, cs: seq<Change>): Option<Db> {
    if cs == [] then Some(db)
    else
      match Replay(db, cs[..|cs| - 1])
      case None => None
      case Some(t) => ReplayOne(t, cs[|cs| - 1])
  }

  lemma ReplaySnoc(db: Db, cs: seq<Change>, c: Change)
    ensures Replay(db, cs + [c]) == match Replay(db, cs) case None => None case Some(t) => ReplayOne(t, c)
  {
    assert (cs + [c])[..|cs|] == cs;
  }

  // ----- What a batch says about one cell -----

  datatype Fate<V> = Untouched | Gone | Now(value: V)

  /** The last event about key `k`. */
  function KeyFate(cs: seq<Change>, k: Key): Fate<Row> {
    if cs == [] then Untouched
    else
      var c := cs[|cs| - 1];
      if c.KeyUpsert? && c.k == k then Now(RowFor(c))
      else if c == KeyDelete(k) then Gone
      else KeyFate(cs[..|cs| - 1], k)
  }

  /** The last event about field (k, f), deletions of the key included. */
  function FieldFate(cs: seq<Change>, kf: (Key, Field)): Fate<Bytes> {
    if cs == [] then Untouched
    else
      var c := cs[|cs| - 1];
      if c.FieldUpsert? && (c.k, c.f) == kf then Now(c.v)
      else if c == FieldDelete(kf.0, kf.1) || c == KeyDelete(kf.0) then Gone
      else FieldFate(cs[..|cs| - 1], kf)
  }

  /** The last event about item (k, ord), deletions of the key included. */
  function ItemFate(cs: seq<Change>, ko: (Key, int)): Fate<Bytes> {
    if cs == [] then Untouched
    else
      var c := cs[|cs| - 1];
      if c.ItemInsert? && (c.k, c.ord) == ko then Now(c.v)
      else if c == ItemDelete(ko.0, ko.1) || c == KeyDelete(ko.0) then Gone
      else ItemFate(cs[..|cs| - 1], ko)
  }

  function Resolve<V>(before: Option<V>, fate: Fate<V>): Option<V> {
    match fate
    case Untouched => before
    case Gone => None
    case Now(v) => Some(v)
  }

  predicate UpsertsField(cs: seq<Change>, kf: (Key, Field)) {
    exists i :: 0 <= i < |cs| && cs[i].FieldUpsert? && (cs[i].k, cs[i].f) == kf
  }

  predicate Inserts(cs: seq<Change>, ko: (Key, int)) {
    exists i :: 0 <= i < |cs| && cs[i].ItemInsert? && (cs[i].k, cs[i].ord) == ko
  }

  ghost predicate KeySafe(cs: seq<Change>, k: Key) {
    KeyDelete(k) in cs ==> KeyFate(cs, k).Gone?
  }

  ghost predicate FieldSafe(cs: seq<Change>, kf: (Key, Field)) {
    KeyDelete(kf.0) !in cs && UpsertsField(cs, kf) ==> FieldFate(cs, kf).Now?
  }

  ghost predicate ItemSafe(cs: seq<Change>, ko: (Key, int)) {
    KeyDelete(ko.0) !in cs && Inserts(cs, ko) ==> ItemFate(cs, ko).Now?
  }

  predicate InsertsOnce(cs: seq<Change>) {
    forall i, j :: 0 <= i < j < |cs| && cs[i].ItemInsert? && cs[j].ItemInsert? ==> (cs[i].k, cs[i].ord) != (cs[j].k, cs[j].ord)
  }

  ghost predicate NoCollision(db: Db, cs: seq<Change>) {
    forall ko :: Inserts(cs, ko) && ko in db.items ==> ItemDelete(ko.0, ko.1) in cs
  }

  /**
   The exact condition, checkable on the batch and the tables before the drain:
   a deleted key is not upserted again afterwards; a field or item that is both
   written and deleted is written last (unless its whole key goes); no item is
   inserted twice, nor over a row that the batch does not delete.
   */
  ghost predicate Safe(db: Db, cs: seq<Change>) {
    && (forall k :: KeySafe(cs, k))
    && (forall kf :: FieldSafe(cs, kf))
    && (forall ko :: ItemSafe(cs, ko))
    && InsertsOnce(cs)
    && NoCollision(db, cs)
  }

  // ----- Replay, cell by cell -----

  lemma {:induction false} ReplayKeepsForeignKeys(db: Db, cs: seq<Change>)
    requires Replay(db, cs).Some? && ForeignKeys(db)
    ensures ForeignKeys(Replay(db, cs).value)
  {
    if cs != [] {
      ReplayKeepsForeignKeys(db, cs[..|cs| - 1]);
    }
  }

  /** The last event about a key decides what a replay leaves there. */
  lemma {:induction false} ReplayKey(db: Db, cs: seq<Change>, k: Key)
    requires Replay(db, cs).Some?
    ensures Get(Replay(db, cs).value.store, k) == Resolve(Get(db.store, k), KeyFate(cs, k))
  {
    if cs != [] {
      ReplayKey(db, cs[..|cs| - 1], k);
    }
  }

  lemma {:induction false} ReplayField(db: Db, cs: seq<Change>, kf: (Key, Field))
    requires Replay(db, cs).Some?
    ensures Get(Replay(db, cs).value.fields, kf) == Resolve(Get(db.fields, kf), FieldFate(cs, kf))
  {
    if cs != [] {
      ReplayField(db, cs[..|cs| - 1], kf);
    }
  }

  lemma {:induction false} ReplayItem(db: Db, cs: seq<Change>, ko: (Key, int))
    requires Replay(db, cs).Some?
    ensures Get(Replay(db, cs).value.items, ko) == Resolve(Get(db.items, ko), ItemFate(cs, ko))
  {
    if cs != [] {
      ReplayItem(db, cs[..|cs| - 1], ko);
    }
  }

  // ----- The grouped vectors, cell by cell -----

  predicate UpsertsKey(cs: seq<Change>, k: Key) {
    exists i :: 0 <= i < |cs| && cs[i].KeyUpsert? && cs[i].k == k
  }

  lemma SplitLast(cs: seq<Change>)
    requires cs != []
    ensures cs == cs[..|cs| - 1] + [cs[|cs| - 1]]
  {
  }

  lemma UpsertsKeySnoc(cs: seq<Change>, c: Change, k: Key)
    ensures UpsertsKey(cs + [c], k) <==> UpsertsKey(cs, k) || (c.KeyUpsert? && c.k == k)
  {
    var t := cs + [c];
    assert t[|cs|] == c && forall i :: 0 <= i < |cs| ==> t[i] == cs[i];
  }

  lemma UpsertsFieldSnoc(cs: seq<Change>, c: Change, kf: (Key, Field))
    ensures UpsertsField(cs + [c], kf) <==> UpsertsField(cs, kf) || (c.FieldUpsert? && (c.k, c.f) == kf)
  {
    var t := cs + [c];
    assert t[|cs|] == c && forall i :: 0 <= i < |cs| ==> t[i] == cs[i];
  }

  lemma InsertsSnoc(cs: seq<Change>, c: Change, ko: (Key, int))
    ensures Inserts(cs + [c], ko) <==> Inserts(cs, ko) || (c.ItemInsert? && (c.k, c.ord) == ko)
  {
    var t := cs + [c];
    assert t[|cs|] == c && forall i :: 0 <= i < |cs| ==> t[i] == cs[i];
  }

  lemma {:induction false} GroupedDeletes(cs: seq<Change>, k: Key, f: Field, o: int)
    ensures k in Group(cs).keyDels <==> KeyDelete(k) in cs
    ensures (k, f) in Group(cs).fieldDels <==> FieldDelete(k, f) in cs
    ensures (k, o) in Group(cs).itemDels <==> ItemDelete(k, o) in cs
  {
    if cs != [] {
      SplitLast(cs);
      GroupedDeletes(cs[..|cs| - 1], k, f, o);
    }
  }

  lemma {:induction false} KeyFateSays(cs: seq<Change>, k: Key)
    ensures KeyFate(cs, k).Untouched? ==> KeyDelete(k) !in cs && !UpsertsKey(cs, k)
    ensures KeyFate(cs, k).Gone? ==> KeyDelete(k) in cs
    ensures KeyFate(cs, k).Now? ==> UpsertsKey(cs, k)
  {
    if cs != [] {
      var n := |cs| - 1;
      SplitLast(cs);
      KeyFateSays(cs[..n], k);
      UpsertsKeySnoc(cs[..n], cs[n], k);
    }
  }

  lemma {:induction false} GroupedRows(cs: seq<Change>, k: Key)
    ensures k in LastWins(Group(cs).rows) <==> UpsertsKey(cs, k)
    ensures KeyDelete(k) !in cs ==> Get(LastWins(Group(cs).rows), k) == Resolve(None, KeyFate(cs, k))
  {
    if cs != [] {
      var n := |cs| - 1;
      var c, v := cs[n], Group(cs[..n]);
      SplitLast(cs);
      GroupedRows(cs[..n], k);
      UpsertsKeySnoc(cs[..n], c, k);
      assert KeyDelete(k) !in cs ==> KeyDelete(k) !in cs[..n] && c != KeyDelete(k);
      if c.KeyUpsert? {
        assert Group(cs).rows == v.rows + [(c.k, RowFor(c))];
        LastWinsSnoc(v.rows, c.k, RowFor(c));
      } else {
        assert Group(cs).rows == v.rows;
      }
    }
  }

  lemma GroupedKey(cs: seq<Change>, k: Key)
    ensures k in LastWins(Group(cs).rows) <==> UpsertsKey(cs, k)
    ensures KeyDelete(k) !in cs ==> Get(LastWins(Group(cs).rows), k) == Resolve(None, KeyFate(cs, k))
    ensures KeyFate(cs, k).Untouched? ==> KeyDelete(k) !in cs
    ensures KeyFate(cs, k).Gone? ==> KeyDelete(k) in cs
    ensures KeyFate(cs, k).Now? ==> UpsertsKey(cs, k)
  {
    KeyFateSays(cs, k);
    GroupedRows(cs, k);
  }

  lemma {:induction false} FieldUntouched(cs: seq<Change>, kf: (Key, Field))
    ensures FieldFate(cs, kf).Untouched? <==>
      !UpsertsField(cs, kf) && FieldDelete(kf.0, kf.1) !in cs && KeyDelete(kf.0) !in cs
  {
    if cs != [] {
      var n := |cs| - 1;
      SplitLast(cs);
      FieldUntouched(cs[..n], kf);
      UpsertsFieldSnoc(cs[..n], cs[n], kf);
    }
  }

  lemma {:induction false} GroupedField(cs: seq<Change>, kf: (Key, Field))
    ensures kf in LastWins(Group(cs).fieldUps) <==> UpsertsField(cs, kf)
    ensures FieldFate(cs, kf).Now? ==> Get(LastWins(Group(cs).fieldUps), kf) == Some(FieldFate(cs, kf).value)
  {
    if cs != [] {
      var n := |cs| - 1;
      var c, v := cs[n], Group(cs[..n]);
      SplitLast(cs);
      GroupedField(cs[..n], kf);
      UpsertsFieldSnoc(cs[..n], c, kf);
      if c.FieldUpsert? {
        LastWinsSnoc(v.fieldUps, (c.k, c.f), c.v);
      }
    }
  }

  lemma {:induction false} ItemUntouched(cs: seq<Change>, ko: (Key, int))
    ensures ItemFate(cs, ko).Untouched? <==>
      !Inserts(cs, ko) && ItemDelete(ko.0, ko.1) !in cs && KeyDelete(ko.0) !in cs
  {
    if cs != [] {
      var n := |cs| - 1;
      SplitLast(cs);
      ItemUntouched(cs[..n], ko);
      InsertsSnoc(cs[..n], cs[n], ko);
    }
  }

  lemma {:induction false} GroupedItem(cs: seq<Change>, ko: (Key, int))
    ensures ko in LastWins(Group(cs).itemIns) <==> Inserts(cs, ko)
    ensures ItemFate(cs, ko).Now? ==> Get(LastWins(Group(cs).itemIns), ko) == Some(ItemFate(cs, ko).value)
  {
    if cs != [] {
      var n := |cs| - 1;
      var c, v := cs[n], Group(cs[..n]);
      SplitLast(cs);
      GroupedItem(cs[..n], ko);
      InsertsSnoc(cs[..n], c, ko);
      if c.ItemInsert? {
        LastWinsSnoc(v.itemIns, (c.k, c.ord), c.v);
      }
    }
  }

  lemma InsertsOnceSnoc(cs: seq<Change>, c: Change)
    ensures InsertsOnce(cs + [c]) <==> InsertsOnce(cs) && (c.ItemInsert? ==> !Inserts(cs, (c.k, c.ord)))
  {
    var t := cs + [c];
    assert t[|cs|] == c && forall i :: 0 <= i < |cs| ==> t[i] == cs[i];
  }

  /** The item vector repeats a key exactly when the batch inserts an item twice. */
  lemma {:induction false} GroupedOnce(cs: seq<Change>)
    ensures InsertsOnce(cs) <==> DistinctKeys(Group(cs).itemIns)
  {
    if cs != [] {
      var n := |cs| - 1;
      var c, rows := cs[n], Group(cs[..n]).itemIns;
      SplitLast(cs);
      GroupedOnce(cs[..n]);
      InsertsOnceSnoc(cs[..n], c);
      if c.ItemInsert? {
        GroupedItem(cs[..n], (c.k, c.ord));
        DistinctSnoc(rows, (c.k, c.ord), c.v);
      }
    }
  }

  /** A replay that succeeds never wrote a child of a missing parent. */
  lemma {:induction false} ReplayParents(db: Db, cs: seq<Change>, i: nat)
    requires Replay(db, cs).Some? && i < |cs| && (cs[i].FieldUpsert? || cs[i].ItemInsert?)
    ensures cs[i].k in db.store || UpsertsKey(cs, cs[i].k)
  {
    var n := |cs| - 1;
    SplitLast(cs);
    UpsertsKeySnoc(cs[..n], cs[n], cs[i].k);
    if i < n {
      assert cs[..n][i] == cs[i];
      ReplayParents(db, cs[..n], i);
    } else {
      ReplayKey(db, cs[..n], cs[i].k);
      GroupedKey(cs[..n], cs[i].k);
    }
  }

  // ----- Grouped execution against replay -----

  lemma GroupedParented(db: Db, cs: seq<Change>)
    requires Replay(db, cs).Some?
    ensures Parented(db, Group(cs), Group(cs).fieldUps) && Parented(db, Group(cs), Group(cs).itemIns)
  {
    var v := Group(cs);
    forall i | 0 <= i < |v.fieldUps|
      ensures v.fieldUps[i].0.0 in db.store || v.fieldUps[i].0.0 in LastWins(v.rows)
    {
      var kf := v.fieldUps[i].0;
      LastWinsKeys(v.fieldUps, kf);
      GroupedField(cs, kf);
      var j :| 0 <= j < |cs| && cs[j].FieldUpsert? && (cs[j].k, cs[j].f) == kf;
      ReplayParents(db, cs, j);
      GroupedKey(cs, kf.0);
    }
    forall i | 0 <= i < |v.itemIns|
      ensures v.itemIns[i].0.0 in db.store || v.itemIns[i].0.0 in LastWins(v.rows)
    {
      var ko := v.itemIns[i].0;
      LastWinsKeys(v.itemIns, ko);
      GroupedItem(cs, ko);
      var j :| 0 <= j < |cs| && cs[j].ItemInsert? && (cs[j].k, cs[j].ord) == ko;
      ReplayParents(db, cs, j);
      GroupedKey(cs, ko.0);
    }
  }

  /** The plans of a replayable batch go through exactly when no insert collides. */
  lemma GroupedSucceeds(db: Db, cs: seq<Change>)
    requires Replay(db, cs).Some?
    ensures RunPlans(db, Group(cs)).Some? <==> InsertsOnce(cs) && NoCollision(db, cs)
  {
    var v := Group(cs);
    var left := db.items - Members(v.itemDels);
    PlansSucceed(db, v);
    GroupedParented(db, cs);
    GroupedOnce(cs);
    assert Collides(left, v.itemIns) <==> !DistinctKeys(v.itemIns) || exists i :: 0 <= i < |v.itemIns| && v.itemIns[i].0 in left;
    forall ko
      ensures ko in LastWins(v.itemIns) <==> Inserts(cs, ko)
      ensures ko in left <==> ko in db.items && ItemDelete(ko.0, ko.1) !in cs
      ensures Inserts(cs, ko) ==> exists i :: 0 <= i < |v.itemIns| && v.itemIns[i].0 == ko
    {
      GroupedItem(cs, ko);
      GroupedDeletes(cs, ko.0, [], ko.1);
      LastWinsKeys(v.itemIns, ko);
    }
    forall i | 0 <= i < |v.itemIns|
      ensures Inserts(cs, v.itemIns[i].0)
    {
      LastWinsKeys(v.itemIns, v.itemIns[i].0);
    }
  }

  lemma KeyAgrees(db: Db, cs: seq<Change>, k: Key)
    requires Replay(db, cs).Some? && RunPlans(db, Group(cs)).Some?
    ensures Get(RunPlans(db, Group(cs)).value.store, k) == Get(Replay(db, cs).value.store, k) <==> KeySafe(cs, k)
  {
    KeyCell(db, Group(cs), k);
    ReplayKey(db, cs, k);
    GroupedDeletes(cs, k, [], 0);
    GroupedKey(cs, k);
  }

  lemma FieldAgrees(db: Db, cs: seq<Change>, kf: (Key, Field))
    requires Replay(db, cs).Some? && RunPlans(db, Group(cs)).Some? && ForeignKeys(db) && KeySafe(cs, kf.0)
    ensures Get(RunPlans(db, Group(cs)).value.fields, kf) == Get(Replay(db, cs).value.fields, kf) <==> FieldSafe(cs, kf)
  {
    FieldCell(db, Group(cs), kf);
    ReplayField(db, cs, kf);
    ReplayKey(db, cs, kf.0);
    ReplayKeepsForeignKeys(db, cs);
    GroupedDeletes(cs, kf.0, kf.1, 0);
    GroupedField(cs, kf);
    FieldUntouched(cs, kf);
  }

  lemma ItemAgrees(db: Db, cs: seq<Change>, ko: (Key, int))
    requires Replay(db, cs).Some? && RunPlans(db, Group(cs)).Some? && ForeignKeys(db) && KeySafe(cs, ko.0)
    ensures Get(RunPlans(db, Group(cs)).value.items, ko) == Get(Replay(db, cs).value.items, ko) <==> ItemSafe(cs, ko)
  {
    ItemCell(db, Group(cs), ko);
    ReplayItem(db, cs, ko);
    ReplayKey(db, cs, ko.0);
    ReplayKeepsForeignKeys(db, cs);
    GroupedDeletes(cs, ko.0, [], ko.1);
    GroupedItem(cs, ko);
    ItemUntouched(cs, ko);
  }

  /**
   The drain is correct exactly on safe batches: for every batch that replays,
   the six grouped plans succeed with the replayed tables if and only if the
   batch is safe for the tables it meets.
   */
  lemma GroupedIsReplay(db: Db, cs: seq<Change>)
    requires ForeignKeys(db) && Replay(db, cs).Some?
    ensures RunPlans(db, Group(cs)) == Replay(db, cs) <==> Safe(db, cs)
  {
    GroupedSucceeds(db, cs);
    if RunPlans(db, Group(cs)).Some? {
      var r, t := RunPlans(db, Group(cs)).value, Replay(db, cs).value;
      forall k
        ensures Get(r.store, k) == Get(t.store, k) <==> KeySafe(cs, k)
      {
        KeyAgrees(db, cs, k);
      }
      forall kf: (Key, Field) | KeySafe(cs, kf.0)
        ensures Get(r.fields, kf) == Get(t.fields, kf) <==> FieldSafe(cs, kf)
      {
        FieldAgrees(db, cs, kf);
      }
      forall ko: (Key, int) | KeySafe(cs, ko.0)
        ensures Get(r.items, ko) == Get(t.items, ko) <==> ItemSafe(cs, ko)
      {
        ItemAgrees(db, cs, ko);
      }
      if Safe(db, cs) {
        SameCells(r, t);
      }
    }
  }

  /**
   Phase 2 of the drain: walk the batch, fill the vectors, run the plans. On a
   batch that replays, it raises exactly on an item collision, and it leaves the
   replayed tables exactly when the batch is safe for the tables it meets.
   */
  method Drain(db: Db, cs: seq<Change>) returns (r: Option<Db>)
    ensures r == RunPlans(db, Group(cs))
    ensures Replay(db, cs).Some? ==> (r.Some? <==> InsertsOnce(cs) && NoCollision(db, cs))
    ensures ForeignKeys(db) && Replay(db, cs).Some? ==> (r == Replay(db, cs) <==> Safe(db, cs))
  {
    var v := NO_WORK;
    for i := 0 to |cs|
      invariant v == Group(cs[..i])
    {
      assert cs[..i + 1][..i] == cs[..i];
      v := Dispatch(v, cs[i]);
    }
    assert cs[..|cs|] == cs;
    r := RunPlans(db, v);
    if Replay(db, cs).Some? {
      GroupedSucceeds(db, cs);
      if ForeignKeys(db) {
        GroupedIsReplay(db, cs);
      }
    }
  }

  // ----- What a drained parent row holds -----

  /** Event `i` is the last upsert of its key. */
  predicate LastUpsertAt(cs: seq<Change>, i: nat) {
    i < |cs| && cs[i].KeyUpsert? && forall j :: i < j < |cs| ==> !(cs[j].KeyUpsert? && cs[j].k == cs[i].k)
  }

  lemma {:induction false} LastUpsertDecides(cs: seq<Change>, i: nat)
    requires LastUpsertAt(cs, i) && KeyDelete(cs[i].k) !in cs
    ensures KeyFate(cs, cs[i].k) == Now(RowFor(cs[i]))
  {
    var n := |cs| - 1;
    if i < n {
      assert cs[..n][i] == cs[i] && cs[n] in cs;
      LastUpsertDecides(cs[..n], i);
    }
  }

  /**
   The drained row of a key carries the kind, the expiry and the version of the
   last upsert in the batch, and its bytes exactly when they are not empty and the
   key is a string or an integer.
   */
  lemma DrainedRow(db: Db, cs: seq<Change>, i: nat)
    requires LastUpsertAt(cs, i) && KeyDelete(cs[i].k) !in cs && RunPlans(db, Group(cs)).Some?
    ensures var r, c := RunPlans(db, Group(cs)).value, cs[i];
            && c.k in r.store && r.store[c.k].kind == c.kind && r.store[c.k].expireAt == c.expireAt && r.store[c.k].version == c.version
            && r.store[c.k].value == if c.tlv != [] && (c.kind == KString || c.kind == KInt) then Some(c.tlv) else None
  {
    LastUpsertDecides(cs, i);
    GroupedKey(cs, cs[i].k);
    GroupedDeletes(cs, cs[i].k, [], 0);
    KeyCell(db, Group(cs), cs[i].k);
  }

  /** The same for one-by-one replay. */
  lemma ReplayedRow(db: Db, cs: seq<Change>, i: nat)
    requires LastUpsertAt(cs, i) && KeyDelete(cs[i].k) !in cs && Replay(db, cs).Some?
    ensures var r, c := Replay(db, cs).value, cs[i];
            && c.k in r.store && r.store[c.k].kind == c.kind && r.store[c.k].expireAt == c.expireAt && r.store[c.k].version == c.version
            && r.store[c.k].value == if c.tlv != [] && (c.kind == KString || c.kind == KInt) then Some(c.tlv) else None
  {
    LastUpsertDecides(cs, i);
    ReplayKey(db, cs, cs[i].k);
  }

  // ----- A sufficient ordering, and what goes wrong without it -----

  /** Key deletes follow key upserts; field and item deletes precede the writes; no item is inserted twice. */
  ghost predicate Ordered(cs: seq<Change>) {
    && InsertsOnce(cs)
    && forall i, j :: 0 <= i < j < |cs| ==>
         && !(cs[i].KeyDelete? && cs[j].KeyUpsert? && cs[i].k == cs[j].k)
         && !(cs[i].FieldUpsert? && cs[j] == FieldDelete(cs[i].k, cs[i].f))
         && !(cs[i].ItemInsert? && cs[j] == ItemDelete(cs[i].k, cs[i].ord))
  }

  lemma OrderedPrefix(cs: seq<Change>, n: nat)
    requires Ordered(cs) && n <= |cs|
    ensures Ordered(cs[..n])
  {
    var t := cs[..n];
    assert forall i :: 0 <= i < n ==> t[i] == cs[i];
  }

  lemma {:induction false} OrderedKey(cs: seq<Change>, k: Key)
    requires Ordered(cs) && KeyDelete(k) in cs
    ensures KeyFate(cs, k).Gone?
  {
    var n := |cs| - 1;
    SplitLast(cs);
    OrderedPrefix(cs, n);
    if KeyDelete(k) in cs[..n] {
      var i :| 0 <= i < n && cs[i] == KeyDelete(k);
      assert !(cs[n].KeyUpsert? && cs[n].k == k);
      OrderedKey(cs[..n], k);
    }
  }

  lemma {:induction false} OrderedField(cs: seq<Change>, kf: (Key, Field))
    requires Ordered(cs) && KeyDelete(kf.0) !in cs && UpsertsField(cs, kf)
    ensures FieldFate(cs, kf).Now?
  {
    var n := |cs| - 1;
    SplitLast(cs);
    OrderedPrefix(cs, n);
    UpsertsFieldSnoc(cs[..n], cs[n], kf);
    if !(cs[n].FieldUpsert? && (cs[n].k, cs[n].f) == kf) {
      var i :| 0 <= i < n && cs[..n][i].FieldUpsert? && (cs[..n][i].k, cs[..n][i].f) == kf;
      assert cs[..n][i] == cs[i] && cs[n] != FieldDelete(cs[i].k, cs[i].f) && cs[n] in cs;
      OrderedField(cs[..n], kf);
    }
  }

  lemma {:induction false} OrderedItem(cs: seq<Change>, ko: (Key, int))
    requires Ordered(cs) && KeyDelete(ko.0) !in cs && Inserts(cs, ko)
    ensures ItemFate(cs, ko).Now?
  {
    var n := |cs| - 1;
    SplitLast(cs);
    OrderedPrefix(cs, n);
    InsertsSnoc(cs[..n], cs[n], ko);
    if !(cs[n].ItemInsert? && (cs[n].k, cs[n].ord) == ko) {
      var i :| 0 <= i < n && cs[..n][i].ItemInsert? && (cs[..n][i].k, cs[..n][i].ord) == ko;
      assert cs[..n][i] == cs[i] && cs[n] != ItemDelete(cs[i].k, cs[i].ord) && cs[n] in cs;
      OrderedItem(cs[..n], ko);
    }
  }

  lemma OrderedFates(cs: seq<Change>, k: Key, f: Field, o: int)
    requires Ordered(cs)
    ensures KeyDelete(k) in cs ==> KeyFate(cs, k).Gone?
    ensures KeyDelete(k) !in cs && UpsertsField(cs, (k, f)) ==> FieldFate(cs, (k, f)).Now?
    ensures KeyDelete(k) !in cs && Inserts(cs, (k, o)) ==> ItemFate(cs, (k, o)).Now?
  {
    if KeyDelete(k) in cs {
      OrderedKey(cs, k);
    } else {
      if UpsertsField(cs, (k, f)) {
        OrderedField(cs, (k, f));
      }
      if Inserts(cs, (k, o)) {
        OrderedItem(cs, (k, o));
      }
    }
  }

  /** In an ordered batch, an insert over an existing row comes with the delete of that row. */
  lemma {:induction false} OrderedNoCollision(db: Db, cs: seq<Change>, ko: (Key, int))
    requires Ordered(cs) && Replay(db, cs).Some? && Inserts(cs, ko) && ko in db.items
    ensures ItemDelete(ko.0, ko.1) in cs
  {
    var n := |cs| - 1;
    SplitLast(cs);
    InsertsSnoc(cs[..n], cs[n], ko);
    OrderedPrefix(cs, n);
    if Inserts(cs[..n], ko) {
      OrderedNoCollision(db, cs[..n], ko);
    } else {
      ReplayItem(db, cs[..n], ko);
      ReplayKey(db, cs[..n], ko.0);
      ItemUntouched(cs[..n], ko);
      OrderedFates(cs[..n], ko.0, [], ko.1);
    }
  }

  /** The ordering under which producers may rely on the drain. */
  lemma OrderedIsSafe(db: Db, cs: seq<Change>)
    requires Ordered(cs) && Replay(db, cs).Some?
    ensures Safe(db, cs)
  {
    forall k
      ensures KeySafe(cs, k)
    {
      OrderedFates(cs, k, [], 0);
    }
    forall kf: (Key, Field)
      ensures FieldSafe(cs, kf)
    {
      OrderedFates(cs, kf.0, kf.1, 0);
    }
    forall ko: (Key, int)
      ensures ItemSafe(cs, ko)
    {
      OrderedFates(cs, ko.0, [], ko.1);
    }
    forall ko | Inserts(cs, ko) && ko in db.items
      ensures ItemDelete(ko.0, ko.1) in cs
    {
      OrderedNoCollision(db, cs, ko);
    }
  }

  /** HSET then HDEL of one field in one batch: the drain brings the field back, whatever the tables hold. */
  lemma HdelAfterHsetIsLost(db: Db, k: Key, f: Field, x: Bytes)
    requires ForeignKeys(db) && k in db.store
    ensures var cs := [FieldUpsert(k, f, x)] + [FieldDelete(k, f)];
            && Replay(db, cs).Some? && (k, f) !in Replay(db, cs).value.fields
            && RunPlans(db, Group(cs)).Some? && (k, f) in RunPlans(db, Group(cs)).value.fields
  {
    var up, del, kf := FieldUpsert(k, f, x), FieldDelete(k, f), (k, f);
    var cs := [up] + [del];
    assert cs[..1] == [up] && [up][..0] == [] && cs[0] == up && cs[1] == del;
    assert Replay(db, [up]).Some?;
    assert forall ko :: !Inserts(cs, ko);
    GroupedSucceeds(db, cs);
    GroupedDeletes(cs, k, f, 0);
    GroupedField(cs, kf);
    FieldCell(db, Group(cs), kf);
  }

  /** DEL then HSET of one key in one batch: the trailing parent delete wipes the new hash. */
  lemma RecreatedKeyIsLost(db: Db, k: Key, version: int, f: Field, x: Bytes)
    requires ForeignKeys(db)
    ensures var cs := [KeyDelete(k)] + [KeyUpsert(k, KHash, [], None, version)] + [FieldUpsert(k, f, x)];
            && Replay(db, cs).Some? && Get(Replay(db, cs).value.fields, (k, f)) == Some(x)
            && !Safe(db, cs)
            && RunPlans(db, Group(cs)).Some?
            && k !in RunPlans(db, Group(cs)).value.store && (k, f) !in RunPlans(db, Group(cs)).value.fields
  {
    var a, b, c := KeyDelete(k), KeyUpsert(k, KHash, [], None, version), FieldUpsert(k, f, x);
    var cs := [a] + [b] + [c];
    assert [] + [a] == [a];
    ReplaySnoc(db, [], a);
    ReplaySnoc(db, [a], b);
    ReplaySnoc(db, [a] + [b], c);
    assert cs[0] == a && cs[2] == c && cs[..2] == [a] + [b] && ([a] + [b])[..1] == [a];
    assert KeyFate(cs, k) == KeyFate([a] + [b], k) && KeyFate([a] + [b], k).Now?;
    assert KeyDelete(k) in cs && !KeySafe(cs, k);
    assert forall ko :: !Inserts(cs, ko);
    GroupedSucceeds(db, cs);
    GroupedDeletes(cs, k, f, 0);
    KeyCell(db, Group(cs), k);
    FieldCell(db, Group(cs), (k, f));
  }
}
