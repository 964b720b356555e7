/** The session keyspace as an object (src/kv_store.c, src/pg_redis.c) and its pre-commit flush (src/persistence.c). */
module SessionStore {
  import opened Base
  import opened Tables
  import opened Tlv
  import opened Session
  import opened Flush
  import L = ListValues
  import H = HashValues

  /** The durable side: what the SPI plans update. */
  class Database {
    var db: Db

    constructor (db: Db)
      ensures this.db == db
    {
      this.db := db;
    }
  }

  // ----- Collecting the vectors -----

  /** The upsert of cell `kf` once the dirty fields of `k` outside `todo` are collected. */
  ghost function WithDirty(k: Key, h: H.HashState, todo: set<Field>, kf: (Key, Field), before: Option<Bytes>): Option<Bytes> {
    if kf.0 == k && kf.1 in h.fields && kf.1 !in todo && h.fields[kf.1].dirty then Some(h.fields[kf.1].value) else before
  }

  /** Every dirty field, in whatever order the hash table yields them. */
  method CollectFields(k: Key, h: H.HashState, ups: seq<((Key, Field), Bytes)>) returns (out: seq<((Key, Field), Bytes)>)
    ensures forall kf :: Get(LastWins(out), kf) == WithDirty(k, h, {}, kf, Get(LastWins(ups), kf))
  {
    out := ups;
    var todo := h.fields.Keys;
    while todo != {}
      invariant todo <= h.fields.Keys
      invariant forall kf :: Get(LastWins(out), kf) == WithDirty(k, h, todo, kf, Get(LastWins(ups), kf))
      decreases todo
    {
      var f :| f in todo;
      if h.fields[f].dirty {
        LastWinsSnoc(out, (k, f), h.fields[f].value);
        out := out + [((k, f), h.fields[f].value)];
      }
      todo := todo - {f};
    }
  }

  method CollectPairs<X(==,!new)>(k: Key, xs: seq<X>, dels: seq<(Key, X)>) returns (out: seq<(Key, X)>)
    ensures forall kx :: kx in out <==> kx in dels || (kx.0 == k && kx.1 in xs)
  {
    out := dels;
    for i := 0 to |xs|
      invariant forall kx :: kx in out <==> kx in dels || (kx.0 == k && kx.1 in xs[..i])
    {
      out := out + [(k, xs[i])];
    }
    assert xs[..|xs|] == xs;
  }

  /** Every pending node, head to tail. */
  method CollectItems(k: Key, nodes: seq<L.Node>, ins: seq<((Key, int), Bytes)>) returns (out: seq<((Key, int), Bytes)>)
    requires L.Increasing(nodes) && DistinctKeys(ins) && forall o :: (k, o) !in LastWins(ins)
    ensures DistinctKeys(out)
    ensures forall ko: (Key, int) :: ko.0 != k ==> Get(LastWins(out), ko) == Get(LastWins(ins), ko)
    ensures forall o, x :: Get(LastWins(out), (k, o)) == Some(x) <==> L.Node(x, o, true) in nodes
  {
    out := ins;
    for i := 0 to |nodes|
      invariant DistinctKeys(out)
      invariant forall ko: (Key, int) :: ko.0 != k ==> Get(LastWins(out), ko) == Get(LastWins(ins), ko)
      invariant forall o, x :: Get(LastWins(out), (k, o)) == Some(x) <==> L.Node(x, o, true) in nodes[..i]
    {
      var n := nodes[i];
      assert nodes[..i + 1] == nodes[..i] + [n];
      if n.pending {
        assert forall j :: 0 <= j < i ==> nodes[..i][j].ord < n.ord;
        assert forall x :: Get(LastWins(out), (k, n.ord)) != Some(x);
        LastWinsSnoc(out, (k, n.ord), n.value);
        DistinctSnoc(out, (k, n.ord), n.value);
        out := out + [((k, n.ord), n.value)];
      }
    }
    assert nodes[..|nodes|] == nodes;
  }

  ghost predicate RowsOk(s: State, done: seq<Key>, rows: seq<(Key, Row)>)
    requires ChainOk(s) && forall k :: k in done ==> k in s.chain
  {
    forall k :: Get(LastWins(rows), k) == if k in done then Some(RowOf(s.entries[k])) else None
  }

  ghost predicate UpsOk(s: State, done: seq<Key>, ups: seq<((Key, Field), Bytes)>)
    requires ChainOk(s) && forall k :: k in done ==> k in s.chain
  {
    forall kf, x :: Get(LastWins(ups), kf) == Some(x) <==> kf.0 in done && DirtyField(s.entries[kf.0].value, kf.1, x)
  }

  ghost predicate FieldDelsOk(s: State, done: seq<Key>, dels: seq<(Key, Field)>)
    requires ChainOk(s) && forall k :: k in done ==> k in s.chain
  {
    forall kf :: kf in dels <==> kf.0 in done && Tombstoned(s.entries[kf.0].value, kf.1)
  }

  ghost predicate InsOk(s: State, done: seq<Key>, ins: seq<((Key, int), Bytes)>)
    requires ChainOk(s) && forall k :: k in done ==> k in s.chain
  {
    && DistinctKeys(ins)
    && forall ko, x :: Get(LastWins(ins), ko) == Some(x) <==> ko.0 in done && PendingItem(s.entries[ko.0].value, ko.1, x)
  }

  ghost predicate ItemDelsOk(s: State, done: seq<Key>, dels: seq<(Key, int)>)
    requires ChainOk(s) && forall k :: k in done ==> k in s.chain
  {
    forall ko :: ko in dels <==> ko.0 in done && AwaitsDelete(s.entries[ko.0].value, ko.1)
  }

  /** The vectors hold exactly the deltas of the entries in `done`. */
  ghost predicate Collected(s: State, done: seq<Key>, v: Vectors) {
    && ChainOk(s) && (forall k :: k in done ==> k in s.chain)
    && RowsOk(s, done, v.rows) && UpsOk(s, done, v.fieldUps) && FieldDelsOk(s, done, v.fieldDels)
    && InsOk(s, done, v.itemIns) && ItemDelsOk(s, done, v.itemDels)
  }

  /** An entry of another type adds nothing to a child vector. */
  lemma NothingToAdd(s: State, done: seq<Key>, k: Key, v: Vectors)
    requires Collected(s, done, v) && k in s.chain
    ensures !s.entries[k].value.VHash? ==> UpsOk(s, done + [k], v.fieldUps) && FieldDelsOk(s, done + [k], v.fieldDels)
    ensures !s.entries[k].value.VList? ==> InsOk(s, done + [k], v.itemIns) && ItemDelsOk(s, done + [k], v.itemDels)
  {
  }

  method CollectHash(ghost s: State, ghost done: seq<Key>, k: Key, h: H.HashState, v: Vectors) returns (v': Vectors)
    requires Collected(s, done, v) && k in s.chain && k !in done && s.entries[k].value == VHash(h)
    ensures v' == v.(fieldUps := v'.fieldUps, fieldDels := v'.fieldDels)
    ensures UpsOk(s, done + [k], v'.fieldUps) && FieldDelsOk(s, done + [k], v'.fieldDels)
  {
    var ups := CollectFields(k, h, v.fieldUps);
    var dels := CollectPairs(k, h.tombstones, v.fieldDels);
    v' := v.(fieldUps := ups, fieldDels := dels);
    assert UpsOk(s, done + [k], ups) by {
      forall kf, x
        ensures Get(LastWins(ups), kf) == Some(x) <==> kf.0 in done + [k] && DirtyField(s.entries[kf.0].value, kf.1, x)
      {
        assert Get(LastWins(v.fieldUps), kf) == Some(x) <==> kf.0 in done && DirtyField(s.entries[kf.0].value, kf.1, x);
      }
    }
  }

  method CollectList(ghost s: State, ghost done: seq<Key>, k: Key, l: L.ListState, v: Vectors) returns (v': Vectors)
    requires Collected(s, done, v) && k in s.chain && k !in done && s.entries[k].value == VList(l) && L.Increasing(l.nodes)
    ensures v' == v.(itemIns := v'.itemIns, itemDels := v'.itemDels)
    ensures InsOk(s, done + [k], v'.itemIns) && ItemDelsOk(s, done + [k], v'.itemDels)
  {
    forall o
      ensures (k, o) !in LastWins(v.itemIns)
    {
      assert forall x :: Get(LastWins(v.itemIns), (k, o)) != Some(x);
    }
    var ins := CollectItems(k, l.nodes, v.itemIns);
    var dels := CollectPairs(k, l.deletes, v.itemDels);
    v' := v.(itemIns := ins, itemDels := dels);
    assert InsOk(s, done + [k], ins) by {
      forall ko, x
        ensures Get(LastWins(ins), ko) == Some(x) <==> ko.0 in done + [k] && PendingItem(s.entries[ko.0].value, ko.1, x)
      {
        assert ko == (ko.0, ko.1);
        assert Get(LastWins(v.itemIns), ko) == Some(x) <==> ko.0 in done && PendingItem(s.entries[ko.0].value, ko.1, x);
      }
    }
  }

  /** One iteration of the collecting loop. */
  method CollectEntry(ghost s: State, ghost done: seq<Key>, k: Key, e: Entry, v: Vectors) returns (v': Vectors)
    requires Collected(s, done, v) && k in s.chain && k !in done && e == s.entries[k]
    requires e.value.VList? ==> L.Increasing(e.value.l.nodes)
    ensures Collected(s, done + [k], v') && v'.keyDels == v.keyDels
  {
    NothingToAdd(s, done, k, v);
    v' := v;
    if e.value.VHash? {
      v' := CollectHash(s, done, k, e.value.h, v);
    } else if e.value.VList? {
      v' := CollectList(s, done, k, e.value.l, v);
    }
    LastWinsSnoc(v.rows, k, RowOf(e));
    v' := v'.(rows := v.rows + [(k, RowOf(e))]);
  }

  /** Store-level deletes, dropping those of keys that were written again in this transaction. */
  method CollectDeletes(deletes: seq<Key>, chain: seq<Key>) returns (out: seq<Key>)
    ensures forall k :: k in out <==> k in deletes && k !in chain
  {
    out := [];
    for i := 0 to |deletes|
      invariant forall k :: k in out <==> k in deletes[..i] && k !in chain
    {
      if deletes[i] !in chain {
        out := out + [deletes[i]];
      }
    }
    assert deletes[..|deletes|] == deletes;
  }

  // ----- The collected vectors do what the flush promises -----

  lemma PlansFlush(s: State, db: Db, v: Vectors)
    requires Collected(s, s.chain, v) && forall k :: k in v.keyDels <==> k in s.deletes && k !in s.chain
    ensures RunPlans(db, v).Some? <==> NoCollision(s, db)
    ensures RunPlans(db, v).Some? ==> Flushed(s, db, RunPlans(db, v).value)
  {
    PlansRaise(s, db, v);
    if RunPlans(db, v).Some? {
      var r := RunPlans(db, v).value;
      forall k
        ensures RowFlushed(s, db, r, k)
      {
        KeyCell(db, v, k);
        assert Get(LastWins(v.rows), k) == if k in s.chain then Some(RowOf(s.entries[k])) else None;
      }
      forall kf
        ensures FieldFlushed(s, db, r, kf)
      {
        FieldCell(db, v, kf);
        assert forall x :: Get(LastWins(v.fieldUps), kf) == Some(x) <==> kf.0 in s.chain && DirtyField(s.entries[kf.0].value, kf.1, x);
      }
      forall ko
        ensures ItemFlushed(s, db, r, ko)
      {
        ItemCell(db, v, ko);
        assert forall x :: Get(LastWins(v.itemIns), ko) == Some(x) <==> ko.0 in s.chain && PendingItem(s.entries[ko.0].value, ko.1, x);
      }
    }
  }

  lemma ChildrenHaveParents(s: State, db: Db, v: Vectors)
    requires Collected(s, s.chain, v)
    ensures Parented(db, v, v.fieldUps) && Parented(db, v, v.itemIns)
    ensures forall i :: 0 <= i < |v.itemIns| ==> v.itemIns[i].0 in LastWins(v.itemIns)
  {
    forall i | 0 <= i < |v.fieldUps|
      ensures v.fieldUps[i].0.0 in LastWins(v.rows)
    {
      var kf := v.fieldUps[i].0;
      LastWinsKeys(v.fieldUps, kf);
      assert Get(LastWins(v.fieldUps), kf) == Some(LastWins(v.fieldUps)[kf]);
      assert Get(LastWins(v.rows), kf.0).Some?;
    }
    forall i | 0 <= i < |v.itemIns|
      ensures v.itemIns[i].0.0 in LastWins(v.rows)
      ensures v.itemIns[i].0 in LastWins(v.itemIns)
    {
      var ko := v.itemIns[i].0;
      LastWinsKeys(v.itemIns, ko);
      assert Get(LastWins(v.itemIns), ko) == Some(LastWins(v.itemIns)[ko]);
      assert Get(LastWins(v.rows), ko.0).Some?;
    }
  }

  /** Parents always come first, so only an item collision can raise. */
  lemma PlansRaise(s: State, db: Db, v: Vectors)
    requires Collected(s, s.chain, v)
    ensures RunPlans(db, v).Some? <==> NoCollision(s, db)
  {
    PlansSucceed(db, v);
    ChildrenHaveParents(s, db, v);
    var left := db.items - Members(v.itemDels);
    assert Collides(left, v.itemIns) <==> exists i :: 0 <= i < |v.itemIns| && v.itemIns[i].0 in left;
    if NoCollision(s, db) {
      forall i | 0 <= i < |v.itemIns|
        ensures v.itemIns[i].0 !in left
      {
        var ko := v.itemIns[i].0;
        assert Get(LastWins(v.itemIns), ko) == Some(LastWins(v.itemIns)[ko]);
        assert PendingItem(s.entries[ko.0].value, ko.1, LastWins(v.itemIns)[ko]);
      }
    }
    if !Collides(left, v.itemIns) {
      forall k, o, x | k in s.chain && k in s.entries && PendingItem(s.entries[k].value, o, x) && (k, o) in db.items
        ensures AwaitsDelete(s.entries[k].value, o)
      {
        assert Get(LastWins(v.itemIns), (k, o)) == Some(x);
        LastWinsKeys(v.itemIns, (k, o));
      }
    }
  }

  // ----- The keyspace object -----

  // TimestampTz counts microseconds.
  const MICROSECONDS := 1_000_000

  datatype Reply<T> = Done(value: T) | Failed(error: Error)

  /** No other key is touched. */
  ghost predicate OnlyAt(k: Key, before: map<Key, Entry>, after: map<Key, Entry>) {
    forall j :: j != k ==> Get(after, j) == Get(before, j)
  }

  /** The entry that a write leaves: the value and the expiry given, a new version, marked dirty. */
  ghost predicate WrittenAt(k: Key, before: map<Key, Entry>, after: map<Key, Entry>, v: Value, expireAt: Option<int>) {
    && OnlyAt(k, before, after)
    && Get(after, k) == Some(Entry(v, expireAt, (if k in before then before[k].version else 1) + 1, true))
  }

  /** The expiry of the key before the command. */
  ghost function ExpiryOf(k: Key, before: map<Key, Entry>): Option<int> {
    if k in before then before[k].expireAt else None
  }

  // A command works on the hash or list of its entry as an object.

  method SetIn(h: H.HashState, f: Field, v: Bytes) returns (h': H.HashState, added: bool)
    requires ValidField(f)
    ensures h' == H.SetField(h, f, v) && added == (f !in h.fields)
    ensures h'.fields == h.fields[f := H.Cell(v, true)] && h'.tombstones == h.tombstones
  {
    var o := new H.Hash(h);
    var isNew := o.Set(f, v);
    return o.State(), isNew.value;
  }

  method DelIn(h: H.HashState, f: Field) returns (h': H.HashState, removed: bool)
    requires ValidField(f)
    ensures h' == H.DelField(h, f) && removed == (f in h.fields)
    ensures removed ==> h'.fields == h.fields - {f} && h'.tombstones == [f] + h.tombstones
  {
    var o := new H.Hash(h);
    removed := o.Del(f);
    return o.State(), removed;
  }

  method PushIn(l: L.ListState, v: Bytes, left: bool) returns (l': L.ListState, length: int)
    ensures l' == (if left then L.PushLeft(l, v) else L.PushRight(l, v)) && length == |l'.nodes|
    ensures L.ValuesOf(l'.nodes) == if left then [v] + L.ValuesOf(l.nodes) else L.ValuesOf(l.nodes) + [v]
  {
    var o := new L.List(l);
    length := o.Push(v, left);
    return o.State(), length;
  }

  method PopIn(l: L.ListState, left: bool) returns (l': L.ListState, popped: Option<Bytes>)
    ensures l.nodes == [] ==> l' == l && popped == None
    ensures l.nodes != [] ==>
      && l' == (if left then L.PopLeft(l) else L.PopRight(l))
      && popped == Some(if left then l.nodes[0].value else l.nodes[|l.nodes| - 1].value)
      && l'.nodes == if left then l.nodes[1..] else l.nodes[..|l.nodes| - 1]
  {
    var o := new L.List(l);
    popped := o.Pop(left);
    return o.State(), popped;
  }

  class Keyspace {
    const parse: Bytes -> Option<int>   // pg_redis_parse_int64
    var entries: map<Key, Entry>
    var dirtyHead: seq<Key>
    var pendingDeletes: seq<Key>

    function Abs(): State
      reads this
    {
      State(entries, dirtyHead, pendingDeletes)
    }

    constructor (parse: Bytes -> Option<int>)
      ensures Abs() == NEW_STATE && this.parse == parse
    {
      this.parse := parse;
      entries, dirtyHead, pendingDeletes := map[], [], [];
    }

    method StoreUpsert(k: Key) returns (isNew: bool)
      modifies this`entries
      ensures isNew == (k !in old(entries))
      ensures entries == old(entries)[k := Old(old(Abs()), k)]
    {
      isNew := k !in entries;
      if isNew {
        entries := entries[k := NEW_ENTRY];
      } else {
        assert entries == entries[k := entries[k]];
      }
    }

    method MarkDirty(k: Key)
      requires k in entries
      modifies this
      ensures Abs() == Session.MarkDirty(old(Abs()), k)
      ensures entries == old(entries)[k := old(entries)[k].(inDirty := true)] && pendingDeletes == old(pendingDeletes)
      ensures dirtyHead == if old(entries)[k].inDirty then old(dirtyHead) else [k] + old(dirtyHead)
    {
      if entries[k].inDirty {
        return;
      }
      entries := entries[k := entries[k].(inDirty := true)];
      dirtyHead := [k] + dirtyHead;
    }

    /** The common end of every write: content, version, dirty chain. */
    method Store(k: Key, e: Entry)
      modifies this
      ensures Abs() == Save(old(Abs()), k, e)
    {
      entries := entries[k := e.(version := e.version + 1)];
      MarkDirty(k);
    }

    /** The unlinking walk over the dirty chain. */
    method UnlinkDirty(k: Key)
      modifies this`dirtyHead
      ensures dirtyHead == Unlink(old(dirtyHead), k)
    {
      var i := 0;
      while i < |dirtyHead|
        invariant 0 <= i <= |dirtyHead| && dirtyHead == old(dirtyHead)
        invariant k !in dirtyHead[..i]
      {
        UnlinkAt(dirtyHead, i, k);
        if dirtyHead[i] == k {
          dirtyHead := dirtyHead[..i] + dirtyHead[i + 1..];
          return;
        }
        i := i + 1;
      }
      UnlinkAt(dirtyHead, i, k);
    }

    method StoreRemove(k: Key) returns (found: bool)
      requires ValidKey(k)
      modifies this
      ensures found == (k in old(entries))
      ensures Abs() == if found then Remove(old(Abs()), k) else old(Abs())
    {
      if k !in entries {
        return false;
      }
      if entries[k].inDirty {
        UnlinkDirty(k);
      }
      pendingDeletes := [k] + pendingDeletes;
      entries := entries - {k};
      return true;
    }

    // ----- Commands -----

    method Set(k: Key, v: Bytes) returns (error: Option<Error>)
      modifies this
      ensures error == Fails(parse, old(Abs()), Command.Set(k, v)) && Abs() == Exec(parse, old(Abs()), Command.Set(k, v))
      ensures error == if 0 < |k| <= 1024 then None else Some(InvalidKey)
      ensures error.None? ==> WrittenAt(k, old(entries), entries, VStr(v), ExpiryOf(k, old(entries)))
      ensures error.Some? ==> Abs() == old(Abs())
    {
      if !ValidKey(k) {
        return Some(InvalidKey);
      }
      var isNew := StoreUpsert(k);
      Store(k, entries[k].(value := VStr(v)));
      return None;
    }

    /** The integer that INCR starts from. */
    method Current(k: Key) returns (r: Reply<int>)
      requires ValidKey(k)
      ensures r.Failed? <==> Fails(parse, Abs(), Command.Incr(k, 0)).Some?
      ensures r.Failed? ==> Some(r.error) == Fails(parse, Abs(), Command.Incr(k, 0))
      ensures r.Done? ==> forall delta :: Written(parse, Abs(), Command.Incr(k, delta)) == Some(VInt(Wrap(r.value + delta)))
    {
      if k !in entries {
        return Done(0);
      }
      match entries[k].value {
        case VStr(b) =>
          var parsed := parse(b);
          return if parsed.None? || !IsInt64(parsed.value) then Failed(NotAnInteger) else Done(parsed.value);
        case VInt(i) => return Done(i);
        case _ => return Failed(WrongType);
      }
    }

    method Incr(k: Key, delta: int) returns (r: Reply<int>)
      modifies this
      ensures Abs() == Exec(parse, old(Abs()), Command.Incr(k, delta))
      ensures r.Failed? <==> Fails(parse, old(Abs()), Command.Incr(k, delta)).Some?
      ensures r.Failed? ==> Some(r.error) == Fails(parse, old(Abs()), Command.Incr(k, delta))
      ensures r.Done? ==> WrittenAt(k, old(entries), entries, VInt(r.value), ExpiryOf(k, old(entries)))
      ensures r.Done? ==>
        r.value == Wrap(delta + if k !in old(entries) then 0
                                else match old(entries)[k].value
                                     case VInt(i) => i
                                     case VStr(b) => if parse(b).Some? then parse(b).value else 0
                                     case _ => 0)
      ensures r == Failed(InvalidKey) <==> !(0 < |k| <= 1024)
      ensures r == Failed(WrongType) <==> 0 < |k| <= 1024 && k in old(entries) && (old(entries)[k].value.VHash? || old(entries)[k].value.VList?)
      ensures r == Failed(NotAnInteger) <==>
        && 0 < |k| <= 1024 && k in old(entries) && old(entries)[k].value.VStr?
        && var p := parse(old(entries)[k].value.bytes); p.None? || !(-0x8000_0000_0000_0000 <= p.value < 0x8000_0000_0000_0000)
      ensures r.Failed? ==> Abs() == old(Abs())
    {
      if !ValidKey(k) {
        return Failed(InvalidKey);
      }
      var current := Current(k);
      if current.Failed? {
        return current;
      }
      var isNew := StoreUpsert(k);
      var newval := Wrap(current.value + delta);
      Store(k, entries[k].(value := VInt(newval)));
      return Done(newval);
    }

    method Hset(k: Key, f: Field, v: Bytes) returns (r: Reply<bool>)
      modifies this
      ensures Abs() == Exec(parse, old(Abs()), Command.Hset(k, f, v))
      ensures r.Failed? <==> Fails(parse, old(Abs()), Command.Hset(k, f, v)).Some?
      ensures r.Failed? ==> Some(r.error) == Fails(parse, old(Abs()), Command.Hset(k, f, v))
      ensures r.Done? ==> r.value == !(k in old(entries) && old(entries)[k].value.VHash? && f in old(entries)[k].value.h.fields)
      ensures r.Done? ==>
        && k in entries && entries[k].value.VHash? && WrittenAt(k, old(entries), entries, entries[k].value, ExpiryOf(k, old(entries)))
        && var h := if k in old(entries) && old(entries)[k].value.VHash? then old(entries)[k].value.h else H.NEW_HASH;
           entries[k].value.h.fields == h.fields[f := H.Cell(v, true)] && entries[k].value.h.tombstones == h.tombstones
      ensures r == Failed(InvalidKey) <==> !(0 < |k| <= 1024)
      ensures r == Failed(InvalidField) <==> 0 < |k| <= 1024 && !(0 < |f| <= 1024)
      ensures r == Failed(WrongType) <==> 0 < |k| <= 1024 && 0 < |f| <= 1024 && k in old(entries) && !old(entries)[k].value.VHash?
      ensures r.Failed? ==> Abs() == old(Abs())
    {
      if !ValidKey(k) {
        return Failed(InvalidKey);
      }
      if !ValidField(f) {
        return Failed(InvalidField);
      }
      if k in entries && !entries[k].value.VHash? {
        return Failed(WrongType);
      }
      var isNew := StoreUpsert(k);
      var h, added := SetIn(if isNew then H.NEW_HASH else entries[k].value.h, f, v);
      Store(k, entries[k].(value := VHash(h)));
      return Done(added);
    }

    method Hdel(k: Key, f: Field) returns (r: Reply<bool>)
      modifies this
      ensures Abs() == Exec(parse, old(Abs()), Command.Hdel(k, f))
      ensures r.Failed? <==> Fails(parse, old(Abs()), Command.Hdel(k, f)).Some?
      ensures r.Failed? ==> Some(r.error) == Fails(parse, old(Abs()), Command.Hdel(k, f))
      ensures r.Done? ==> r.value == (k in old(entries) && old(entries)[k].value.VHash? && f in old(entries)[k].value.h.fields)
      ensures r == Done(true) ==>
        && k in entries && entries[k].value.VHash? && WrittenAt(k, old(entries), entries, entries[k].value, ExpiryOf(k, old(entries)))
        && entries[k].value.h.fields == old(entries)[k].value.h.fields - {f}
        && entries[k].value.h.tombstones == [f] + old(entries)[k].value.h.tombstones
      ensures r == Failed(InvalidKey) <==> !(0 < |k| <= 1024)
      ensures r == Failed(InvalidField) <==> 0 < |k| <= 1024 && !(0 < |f| <= 1024)
      ensures r == Failed(WrongType) <==> 0 < |k| <= 1024 && 0 < |f| <= 1024 && k in old(entries) && !old(entries)[k].value.VHash?
      ensures r != Done(true) ==> Abs() == old(Abs())
    {
      if !ValidKey(k) {
        return Failed(InvalidKey);
      }
      if !ValidField(f) {
        return Failed(InvalidField);
      }
      if k !in entries {
        return Done(false);
      }
      if !entries[k].value.VHash? {
        return Failed(WrongType);
      }
      var h, removed := DelIn(entries[k].value.h, f);
      if removed {
        Store(k, entries[k].(value := VHash(h)));
      }
      return Done(removed);
    }

    method Push(k: Key, v: Bytes, left: bool) returns (r: Reply<int>)
      modifies this
      ensures Abs() == Exec(parse, old(Abs()), Command.Push(k, v, left))
      ensures r.Failed? <==> Fails(parse, old(Abs()), Command.Push(k, v, left)).Some?
      ensures r.Failed? ==> Some(r.error) == Fails(parse, old(Abs()), Command.Push(k, v, left))
      ensures r.Done? ==> k in entries && entries[k].value.VList? && r.value == |entries[k].value.l.nodes|
      ensures r.Done? ==>
        && WrittenAt(k, old(entries), entries, entries[k].value, ExpiryOf(k, old(entries)))
        && var before := L.ValuesOf(if k in old(entries) && old(entries)[k].value.VList? then old(entries)[k].value.l.nodes else []);
           L.ValuesOf(entries[k].value.l.nodes) == if left then [v] + before else before + [v]
      ensures r == Failed(InvalidKey) <==> !(0 < |k| <= 1024)
      ensures r == Failed(WrongType) <==> 0 < |k| <= 1024 && k in old(entries) && !old(entries)[k].value.VList?
      ensures r.Failed? ==> Abs() == old(Abs())
    {
      if !ValidKey(k) {
        return Failed(InvalidKey);
      }
      if k in entries && !entries[k].value.VList? {
        return Failed(WrongType);
      }
      var isNew := StoreUpsert(k);
      var l, length := PushIn(if isNew then L.NEW_LIST else entries[k].value.l, v, left);
      Store(k, entries[k].(value := VList(l)));
      return Done(length);
    }

    /** Done(None) is the NULL of a missing key or an empty list. */
    method Pop(k: Key, left: bool) returns (r: Reply<Option<Bytes>>)
      modifies this
      ensures Abs() == Exec(parse, old(Abs()), Command.Pop(k, left))
      ensures r.Failed? <==> Fails(parse, old(Abs()), Command.Pop(k, left)).Some?
      ensures r.Failed? ==> Some(r.error) == Fails(parse, old(Abs()), Command.Pop(k, left))
      ensures r.Done? ==>
        r.value == if k in old(entries) && old(entries)[k].value.VList? && old(entries)[k].value.l.nodes != []
                   then var nodes := old(entries)[k].value.l.nodes; Some(if left then nodes[0].value else nodes[|nodes| - 1].value)
                   else None
      ensures r.Done? && r.value.Some? ==>
        && k in entries && entries[k].value.VList? && WrittenAt(k, old(entries), entries, entries[k].value, ExpiryOf(k, old(entries)))
        && var nodes := old(entries)[k].value.l.nodes;
           entries[k].value.l.nodes == if left then nodes[1..] else nodes[..|nodes| - 1]
      ensures r == Failed(InvalidKey) <==> !(0 < |k| <= 1024)
      ensures r == Failed(WrongType) <==> 0 < |k| <= 1024 && k in old(entries) && !old(entries)[k].value.VList?
      ensures !(r.Done? && r.value.Some?) ==> Abs() == old(Abs())
    {
      if !ValidKey(k) {
        return Failed(InvalidKey);
      }
      if k !in entries {
        return Done(None);
      }
      if !entries[k].value.VList? {
        return Failed(WrongType);
      }
      var l, popped := PopIn(entries[k].value.l, left);
      if popped.Some? {
        Store(k, entries[k].(value := VList(l)));
      }
      return Done(popped);
    }

    method Del(k: Key) returns (r: Reply<bool>)
      modifies this
      ensures Abs() == Exec(parse, old(Abs()), Command.Del(k))
      ensures r == if 0 < |k| <= 1024 then Done(k in old(entries)) else Failed(InvalidKey)
      ensures r == Done(true) ==> entries == old(entries) - {k} && pendingDeletes == [k] + old(pendingDeletes)
      ensures r != Done(true) ==> Abs() == old(Abs())
    {
      if !ValidKey(k) {
        return Failed(InvalidKey);
      }
      var removed := StoreRemove(k);
      return Done(removed);
    }

    /** EXPIRE at time `now`; zero or fewer seconds remove the entry. */
    method Expire(k: Key, seconds: int, now: int) returns (r: Reply<bool>)
      modifies this
      ensures Abs() == Exec(parse, old(Abs()), if seconds <= 0 then Command.Del(k) else Command.Expire(k, now + seconds * MICROSECONDS))
      ensures r == if 0 < |k| <= 1024 then Done(k in old(entries)) else Failed(InvalidKey)
      ensures r == Done(true) ==>
        if seconds <= 0 then entries == old(entries) - {k}
        else WrittenAt(k, old(entries), entries, old(entries)[k].value, Some(now + seconds * 1_000_000))
      ensures r != Done(true) ==> Abs() == old(Abs())
    {
      if !ValidKey(k) {
        return Failed(InvalidKey);
      }
      if k !in entries {
        return Done(false);
      }
      if seconds <= 0 {
        var removed := StoreRemove(k);
      } else {
        Store(k, entries[k].(expireAt := Some(now + seconds * MICROSECONDS)));
      }
      return Done(true);
    }

    // ----- run_flush -----

    /** The collecting walk over the dirty chain. */
    method Collect() returns (v: Vectors)
      requires ChainOk(Abs()) && NoDup(dirtyHead)
      requires forall k :: k in dirtyHead && entries[k].value.VList? ==> L.Increasing(entries[k].value.l.nodes)
      ensures Collected(Abs(), dirtyHead, v)
      ensures forall k :: k in v.keyDels <==> k in pendingDeletes && k !in dirtyHead
    {
      ghost var s := Abs();
      v := NO_WORK;
      for i := 0 to |dirtyHead|
        invariant Collected(s, dirtyHead[..i], v)
      {
        var k := dirtyHead[i];
        assert dirtyHead[..i + 1] == dirtyHead[..i] + [k];
        v := CollectEntry(s, dirtyHead[..i], k, entries[k], v);
      }
      assert dirtyHead[..|dirtyHead|] == dirtyHead;
      var dels := CollectDeletes(pendingDeletes, dirtyHead);
      v := v.(keyDels := dels);
    }

    /** Dirty flags, tombstones, pending nodes and the two chains are reset. */
    method ClearTracking()
      requires ChainOk(Abs()) && NoDup(dirtyHead)
      modifies this
      ensures Abs() == ClearedState(old(Abs()))
    {
      ghost var before := entries;
      var i := 0;
      while i < |dirtyHead|
        invariant 0 <= i <= |dirtyHead| && dirtyHead == old(dirtyHead)
        invariant entries.Keys == before.Keys
        invariant forall k :: k in entries ==> entries[k] == if k in dirtyHead[..i] then Cleaned(before[k]) else before[k]
      {
        var k := dirtyHead[i];
        assert dirtyHead[..i + 1] == dirtyHead[..i] + [k];
        assert k !in dirtyHead[..i];
        entries := entries[k := Cleaned(entries[k])];
        i := i + 1;
      }
      assert dirtyHead[..|dirtyHead|] == dirtyHead;
      dirtyHead, pendingDeletes := [], [];
    }

    /** The pre-commit flush. A raised plan aborts the transaction and leaves the tables alone. */
    method RunFlush(d: Database) returns (ok: bool)
      requires Tracked(Abs(), d.db)
      modifies this, d
      ensures ok <==> NoCollision(old(Abs()), old(d.db))
      ensures ok ==> Flushed(old(Abs()), old(d.db), d.db) && Abs() == ClearedState(old(Abs())) && ForeignKeys(d.db)
      ensures !ok ==> d.db == old(d.db)
      ensures ok && Agrees(Abs(), d.db) <==> NoLeftovers(old(Abs()), old(d.db))
      ensures ok && Agrees(Abs(), d.db) ==> Tracked(Abs(), d.db) && NoLeftovers(Abs(), d.db)
    {
      ghost var s, db := Abs(), d.db;
      TrackedChain(s, db);
      var v := Collect();
      PlansFlush(s, db, v);
      var r := RunPlans(d.db, v);
      if r.None? {
        if NoLeftovers(s, db) {
          NoLeftoversNoCollision(s, db);
        }
        return false;
      }
      d.db := r.value;
      ClearTracking();
      FlushKeepsForeignKeys(s, db, d.db);
      FlushAgrees(s, db, d.db);
      if Agrees(Abs(), d.db) {
        AgreedIsTracked(Abs(), d.db);
      }
      return true;
    }
  }
}
