/**
 The session-mode keyspace with its change tracking (src/kv_store.c and the
 commands of src/pg_redis.c), and the invariant that ties the tracking to the
 durable tables. Expiry times are data here: no entry expires during a run.
 */
module Session {
  import opened Base
  import opened Tables
  import opened Tlv
  import L = ListValues
  import H = HashValues

  datatype Value = VStr(bytes: Bytes) | VInt(i: int) | VHash(h: H.HashState) | VList(l: L.ListState)

  datatype Entry = Entry(value: Value, expireAt: Option<int>, version: int, inDirty: bool)

  /** `chain` is the dirty list from its head; `deletes` the pending-delete list. */
  datatype State = State(entries: map<Key, Entry>, chain: seq<Key>, deletes: seq<Key>)

  const NEW_STATE := State(map[], [], [])
  const NEW_ENTRY := Entry(VStr([]), None, 1, false)

  datatype Command =
    | Set(k: Key, v: Bytes)
    | Incr(k: Key, delta: int)
    | Hset(k: Key, f: Field, v: Bytes)
    | Hdel(k: Key, f: Field)
    | Push(k: Key, v: Bytes, left: bool)
    | Pop(k: Key, left: bool)
    | Del(k: Key)
    | Expire(k: Key, at: int)

  predicate ValidKey(k: Key) {
    0 < |k| <= MAX_KEY_SIZE
  }

  predicate ValidField(f: Field) {
    0 < |f| <= MAX_FIELD_SIZE
  }

  /** Two's-complement wrap of an int64 sum. */
  function Wrap(i: int): (r: int)
    ensures IsInt64(r) && (r - i) % UINT64_SPAN == 0
    ensures IsInt64(i) ==> r == i
  {
    (i + INT64_HALF) % UINT64_SPAN - INT64_HALF
  }

  // ----- Bookkeeping -----

  function MarkDirty(s: State, k: Key): State
    requires k in s.entries
  {
    if s.entries[k].inDirty then s
    else s.(entries := s.entries[k := s.entries[k].(inDirty := true)], chain := [k] + s.chain)
  }

  function Unlink(chain: seq<Key>, k: Key): seq<Key> {
    if chain == [] then [] else if chain[0] == k then chain[1..] else [chain[0]] + Unlink(chain[1..], k)
  }

  /** store_remove of a present key: unlink, remember the delete, drop the entry. */
  function Remove(s: State, k: Key): State
    requires k in s.entries
  {
    State(s.entries - {k}, if s.entries[k].inDirty then Unlink(s.chain, k) else s.chain, [k] + s.deletes)
  }

  /** Every successful write ends this way: new content, next version, marked dirty. */
  function Save(s: State, k: Key, e: Entry): State {
    MarkDirty(s.(entries := s.entries[k := e.(version := e.version + 1)]), k)
  }

  function Old(s: State, k: Key): Entry {
    if k in s.entries then s.entries[k] else NEW_ENTRY
  }

  /** The value a write command gives its key; None when the command raises or changes nothing. */
  function Written(parse: Bytes -> Option<int>, s: State, c: Command): Option<Value> {
    match c
    case Set(k, v) => Some(VStr(v))
    case Incr(k, d) =>
      if k !in s.entries then Some(VInt(Wrap(d)))
      else (
        match s.entries[k].value
        case VStr(b) => if parse(b).Some? && IsInt64(parse(b).value) then Some(VInt(Wrap(parse(b).value + d))) else None
        case VInt(i) => Some(VInt(Wrap(i + d)))
        case _ => None)
    case Hset(k, f, v) =>
      if !ValidField(f) then None
      else if k !in s.entries then Some(VHash(H.SetField(H.NEW_HASH, f, v)))
      else if s.entries[k].value.VHash? then Some(VHash(H.SetField(s.entries[k].value.h, f, v)))
      else None
    case Hdel(k, f) =>
      if ValidField(f) && k in s.entries && s.entries[k].value.VHash? && f in s.entries[k].value.h.fields
      then Some(VHash(H.DelField(s.entries[k].value.h, f))) else None
    case Push(k, v, left) =>
      if k in s.entries && !s.entries[k].value.VList? then None
      else
        var l := if k in s.entries then s.entries[k].value.l else L.NEW_LIST;
        Some(VList(if left then L.PushLeft(l, v) else L.PushRight(l, v)))
    case Pop(k, left) =>
      if k in s.entries && s.entries[k].value.VList? && s.entries[k].value.l.nodes != []
      then Some(VList(if left then L.PopLeft(s.entries[k].value.l) else L.PopRight(s.entries[k].value.l))) else None
    case Expire(k, at) => if k in s.entries then Some(s.entries[k].value) else None
    case Del(k) => None
  }

  /** One command. A command that raises leaves the keyspace as it was. */
  function Exec(parse: Bytes -> Option<int>, s: State, c: Command): State {
    if !ValidKey(c.k) then s
    else if c.Del? then if c.k in s.entries then Remove(s, c.k) else s
    else
      match Written(parse, s, c)
      case None => s
      case Some(v) =>
        var e := Old(s, c.k).(value := v);
        Save(s, c.k, if c.Expire? then e.(expireAt := Some(c.at)) else e)
  }

  datatype Error = InvalidKey | InvalidField | WrongType | NotAnInteger

  /** The error that a command raises, if any. */
  function Fails(parse: Bytes -> Option<int>, s: State, c: Command): Option<Error> {
    if !ValidKey(c.k) then Some(InvalidKey)
    else if (c.Hset? || c.Hdel?) && !ValidField(c.f) then Some(InvalidField)
    else if c.k !in s.entries then None
    else
      var v := s.entries[c.k].value;
      match c
      case Incr(_, _) =>
        if v.VStr? && (parse(v.bytes).None? || !IsInt64(parse(v.bytes).value)) then Some(NotAnInteger)
        else if v.VHash? || v.VList? then Some(WrongType)
        else None
      case Hset(_, _, _) => if v.VHash? then None else Some(WrongType)
      case Hdel(_, _) => if v.VHash? then None else Some(WrongType)
      case Push(_, _, _) => if v.VList? then None else Some(WrongType)
      case Pop(_, _) => if v.VList? then None else Some(WrongType)
      case _ => None
  }

  /** A command that raises changes nothing. */
  lemma FailureIsNoChange(parse: Bytes -> Option<int>, s: State, c: Command)
    requires Fails(parse, s, c).Some?
    ensures Exec(parse, s, c) == s
  {
  }

  function ExecAll(parse: Bytes -> Option<int>, s: State, cs: seq<Command>): State {
    if cs == [] then s else Exec(parse, ExecAll(parse, s, cs[..|cs| - 1]), cs[|cs| - 1])
  }

  // ----- What the tracking promises about the tables -----

  function KindOf(v: Value): Kind {
    match v
    case VStr(_) => KString
    case VInt(_) => KInt
    case VHash(_) => KHash
    case VList(_) => KList
  }

  /** The parent row of an entry. */
  function RowOf(e: Entry): Row
    requires e.value.VInt? ==> IsInt64(e.value.i)
  {
    Row(KindOf(e.value),
        match e.value
        case VStr(b) => Some(Encode(Str(b)))
        case VInt(i) => Some(Encode(Int(i)))
        case _ => None,
        e.expireAt, e.version)
  }

  /** A clean field has its value in the table and no tombstone. */
  ghost predicate FieldsTracked(h: H.HashState, k: Key, db: Db) {
    forall f :: f in h.fields && !h.fields[f].dirty ==>
      Get(db.fields, (k, f)) == Some(h.fields[f].value) && f !in h.tombstones
  }

  /** A durable field is either in memory or has a tombstone. */
  ghost predicate FieldsCovered(h: H.HashState, k: Key, db: Db) {
    forall f :: (k, f) in db.fields ==> f in h.fields || f in h.tombstones
  }

  /** Ordinals are in order, a durable node has its row, and no durable node awaits a delete. */
  ghost predicate ItemsTracked(l: L.ListState, k: Key, db: Db) {
    && L.Ordered(l)
    && (forall n :: n in l.nodes && !n.pending ==> Get(db.items, (k, n.ord)) == Some(n.value))
    && (forall n :: n in l.nodes && !n.pending ==> n.ord !in l.deletes)
  }

  /** A durable row belongs to a durable node or awaits its delete. */
  ghost predicate ItemsCovered(l: L.ListState, k: Key, db: Db) {
    forall o :: (k, o) in db.items ==> o in l.deletes || L.DurableAt(l, o)
  }

  ghost predicate ValueTracked(v: Value, k: Key, db: Db) {
    match v
    case VStr(_) => true
    case VInt(i) => IsInt64(i)
    case VHash(h) => FieldsTracked(h, k, db)
    case VList(l) => ItemsTracked(l, k, db)
  }

  ghost predicate ValueCovered(v: Value, k: Key, db: Db) {
    match v
    case VHash(h) => FieldsCovered(h, k, db)
    case VList(l) => ItemsCovered(l, k, db)
    case _ => true
  }

  /** No delta is waiting. */
  ghost predicate Settled(v: Value) {
    match v
    case VHash(h) => h.tombstones == [] && forall f :: f in h.fields ==> !h.fields[f].dirty
    case VList(l) => l.deletes == [] && forall n :: n in l.nodes ==> !n.pending
    case _ => true
  }

  /** The parent row agrees; the version may lag, since loading does not restore it. */
  ghost predicate RowMatches(row: Row, e: Entry)
    requires e.value.VInt? ==> IsInt64(e.value.i)
  {
    row.(version := 0) == RowOf(e).(version := 0)
  }

  /** Memory and tables agree about key `k` and nothing is waiting to be written. */
  ghost predicate Synced(e: Entry, k: Key, db: Db) {
    && ValueTracked(e.value, k, db) && ValueCovered(e.value, k, db) && Settled(e.value)
    && k in db.store && RowMatches(db.store[k], e)
  }

  /** A parent row that stands for no value: an empty collection. */
  ghost predicate Hollow(db: Db, k: Key) {
    k in db.store ==>
      || (db.store[k].kind == KHash && forall f :: (k, f) !in db.fields)
      || (db.store[k].kind == KList && forall o :: (k, o) !in db.items)
  }

  ghost predicate NoDup(chain: seq<Key>) {
    forall i, j :: 0 <= i < j < |chain| ==> chain[i] != chain[j]
  }

  ghost predicate EntryTracked(s: State, db: Db, k: Key) {
    && (k in s.chain <==> k in s.entries && s.entries[k].inDirty)
    && (k in s.entries ==> ValueTracked(s.entries[k].value, k, db))
    && (k in s.entries && !s.entries[k].inDirty ==> Synced(s.entries[k], k, db) && k !in s.deletes)
    && (k !in s.entries && k !in s.deletes ==> Hollow(db, k))
  }

  /** The tracking invariant: what every command keeps, whatever the order of commands. */
  ghost predicate Tracked(s: State, db: Db) {
    && ForeignKeys(db)
    && NoDup(s.chain)
    && forall k :: EntryTracked(s, db, k)
  }

  /** No durable child row escapes the deltas of the collection that now owns its key. */
  ghost predicate NoLeftovers(s: State, db: Db) {
    forall k :: k in s.entries ==> ValueCovered(s.entries[k].value, k, db)
  }

  // ----- Every command keeps the tracking invariant -----

  lemma NoDupTail(chain: seq<Key>)
    requires NoDup(chain) && chain != []
    ensures NoDup(chain[1..]) && chain[0] !in chain[1..]
  {
    assert forall i :: 0 <= i < |chain| - 1 ==> chain[1..][i] == chain[i + 1];
  }

  lemma {:induction false} UnlinkMember(chain: seq<Key>, k: Key, x: Key)
    requires NoDup(chain)
    ensures x in Unlink(chain, k) <==> x in chain && x != k
  {
    if chain != [] {
      NoDupTail(chain);
      UnlinkMember(chain[1..], k, x);
      assert chain == [chain[0]] + chain[1..];
    }
  }

  lemma {:induction false} UnlinkNoDup(chain: seq<Key>, k: Key)
    requires NoDup(chain)
    ensures NoDup(Unlink(chain, k))
  {
    if chain != [] {
      NoDupTail(chain);
      UnlinkNoDup(chain[1..], k);
      UnlinkMember(chain[1..], k, chain[0]);
    }
  }

  /** Unlinking cuts out the first occurrence. */
  lemma {:induction false} UnlinkAt(chain: seq<Key>, i: nat, k: Key)
    requires i <= |chain| && k !in chain[..i]
    ensures i < |chain| && chain[i] == k ==> Unlink(chain, k) == chain[..i] + chain[i + 1..]
    ensures i == |chain| ==> Unlink(chain, k) == chain
  {
    if 0 < i {
      assert chain[..i] == [chain[0]] + chain[1..][..i - 1];
      UnlinkAt(chain[1..], i - 1, k);
      assert chain == [chain[0]] + chain[1..];
    }
  }

  lemma SaveKeepsTracking(s: State, db: Db, k: Key, e: Entry)
    requires Tracked(s, db) && ValueTracked(e.value, k, db) && e.inDirty == Old(s, k).inDirty
    ensures Tracked(Save(s, k, e), db)
  {
    var s' := Save(s, k, e);
    assert EntryTracked(s, db, k);
    assert forall x :: x in s'.chain <==> x in s.chain || x == k;
    forall x
      ensures EntryTracked(s', db, x)
    {
      assert EntryTracked(s, db, x);
    }
  }

  lemma RemoveKeepsTracking(s: State, db: Db, k: Key)
    requires Tracked(s, db) && k in s.entries
    ensures Tracked(Remove(s, k), db)
  {
    var s' := Remove(s, k);
    UnlinkNoDup(s.chain, k);
    assert EntryTracked(s, db, k);
    forall x
      ensures EntryTracked(s', db, x)
    {
      UnlinkMember(s.chain, k, x);
      assert EntryTracked(s, db, x);
    }
  }

  lemma PopTracked(l: L.ListState, k: Key, db: Db, left: bool)
    requires ItemsTracked(l, k, db) && l.nodes != []
    ensures var l' := if left then L.PopLeft(l) else L.PopRight(l);
            ItemsTracked(l', k, db) && (ItemsCovered(l, k, db) ==> ItemsCovered(l', k, db))
  {
    L.PopKeepsOrder(l, left);
    var l', x := if left then L.PopLeft(l) else L.PopRight(l), if left then l.nodes[0] else l.nodes[|l.nodes| - 1];
    forall n | n in l'.nodes && !n.pending
      ensures n.ord !in l'.deletes
    {
      if n.ord == x.ord {
        L.OneNode(l, n, x);
      }
    }
    if ItemsCovered(l, k, db) {
      forall o | (k, o) in db.items
        ensures o in l'.deletes || L.DurableAt(l', o)
      {
        if o !in l.deletes {
          var n :| n in l.nodes && n.ord == o && !n.pending;
          assert n == x || n in l'.nodes;
        }
      }
    }
  }

  lemma PushTracked(l: L.ListState, k: Key, db: Db, v: Bytes, left: bool)
    requires ItemsTracked(l, k, db)
    ensures var l' := if left then L.PushLeft(l, v) else L.PushRight(l, v);
            ItemsTracked(l', k, db) && (ItemsCovered(l', k, db) <==> ItemsCovered(l, k, db))
  {
    L.PushKeepsOrder(l, v, left);
    var l' := if left then L.PushLeft(l, v) else L.PushRight(l, v);
    assert forall n :: n in l'.nodes && !n.pending <==> n in l.nodes && !n.pending;
    assert forall o :: L.DurableAt(l', o) <==> L.DurableAt(l, o);
  }

  lemma WrittenTracked(parse: Bytes -> Option<int>, s: State, db: Db, c: Command)
    requires Tracked(s, db) && Written(parse, s, c).Some?
    ensures ValueTracked(Written(parse, s, c).value, c.k, db)
    ensures c.k in s.entries && ValueCovered(s.entries[c.k].value, c.k, db)
            ==> ValueCovered(Written(parse, s, c).value, c.k, db)
  {
    assert EntryTracked(s, db, c.k);
    match c
    case Push(k, v, left) =>
      PushTracked(if k in s.entries then s.entries[k].value.l else L.NEW_LIST, k, db, v, left);
    case Pop(k, left) => PopTracked(s.entries[k].value.l, k, db, left);
    case _ =>
  }

  lemma ExecKeepsTracking(parse: Bytes -> Option<int>, s: State, db: Db, c: Command)
    requires Tracked(s, db)
    ensures Tracked(Exec(parse, s, c), db)
  {
    if ValidKey(c.k) {
      if c.Del? {
        if c.k in s.entries {
          RemoveKeepsTracking(s, db, c.k);
        }
      } else if Written(parse, s, c).Some? {
        WrittenTracked(parse, s, db, c);
        var e := Old(s, c.k).(value := Written(parse, s, c).value);
        SaveKeepsTracking(s, db, c.k, if c.Expire? then e.(expireAt := Some(c.at)) else e);
      }
    }
  }

  /** For any interleaving of commands. */
  lemma {:induction false} ExecAllKeepsTracking(parse: Bytes -> Option<int>, s: State, db: Db, cs: seq<Command>)
    requires Tracked(s, db)
    ensures Tracked(ExecAll(parse, s, cs), db)
  {
    if cs != [] {
      ExecAllKeepsTracking(parse, s, db, cs[..|cs| - 1]);
      ExecKeepsTracking(parse, ExecAll(parse, s, cs[..|cs| - 1]), db, cs[|cs| - 1]);
    }
  }

  // ----- Where leftovers come from -----

  /** The command creates a collection under a key that still has other child rows of its kind. */
  ghost predicate CreatesOverRows(s: State, db: Db, c: Command) {
    && ValidKey(c.k) && c.k !in s.entries
    && ((c.Hset? && ValidField(c.f) && exists f :: f != c.f && (c.k, f) in db.fields)
        || (c.Push? && exists o :: (c.k, o) in db.items))
  }

  lemma CreatedOverRows(s: State, db: Db, c: Command, v: Value)
    requires c.k !in s.entries && ValidKey(c.k)
    requires match c
             case Hset(k, f, x) => ValidField(f) && v == VHash(H.SetField(H.NEW_HASH, f, x))
             case Push(k, x, left) => v == VList(if left then L.PushLeft(L.NEW_LIST, x) else L.PushRight(L.NEW_LIST, x))
             case _ => !v.VHash? && !v.VList?
    ensures ValueCovered(v, c.k, db) <==> !CreatesOverRows(s, db, c)
  {
  }

  /** A command leaves leftovers exactly when it creates a collection over surviving child rows. */
  lemma LeftoversAppear(parse: Bytes -> Option<int>, s: State, db: Db, c: Command)
    requires Tracked(s, db) && NoLeftovers(s, db)
    ensures NoLeftovers(Exec(parse, s, c), db) <==> !CreatesOverRows(s, db, c)
  {
    var s' := Exec(parse, s, c);
    if ValidKey(c.k) && !c.Del? && Written(parse, s, c).Some? {
      var v := Written(parse, s, c).value;
      WrittenTracked(parse, s, db, c);
      assert s'.entries[c.k].value == v;
      assert forall k :: k != c.k ==> (k in s'.entries <==> k in s.entries) && (k in s.entries ==> s'.entries[k] == s.entries[k]);
      if c.k !in s.entries {
        CreatedOverRows(s, db, c, v);
      }
    }
  }
}
