/**
 The shared entry of a hash (PgRedisSharedEntry) and the locked sections of
 atomic HSET and HDEL that change it in place (src/shared_store.c). The entry
 keeps its own field counter next to the DSA table; the sections refine the
 functions of AtomicHash.
 */
module SharedStore {
  import opened Base
  import opened Dsa
  import opened Tables
  import H = SharedHash
  import A = AtomicHash

  /** `Failed` is the error that the table raises (out of memory, value too long). */
  datatype Reply = Replied(out: A.Outcome) | Failed

  /** The keyspace as seen from one key: the entry may only just have been made. */
  function Slot(key: Key, found: bool, e: A.Entry): A.Store {
    if found then map[key := e] else map[]
  }

  /** HDEL on a single entry. */
  lemma HdelOfSlot(key: Key, e: A.Entry, f: Field, now: int)
    ensures var (s, out) := A.Hdel(Slot(key, true, e), key, f, now);
            if A.Expired(e, now) then key !in s && out == A.Noop
            else
              && key in s && s[key] == (if e.kind == KHash then A.WithoutField(e, f) else e)
              && out == if e.kind != KHash then A.WrongType(e.kind) else if f in e.fields then A.Deleted else A.Noop
  {
  }

  /** The reply and the entry that HSET leaves, read off the entry before. */
  ghost predicate HsetAnswers(found: bool, e: A.Entry, f: Field, v: Bytes, now: int, out: A.Outcome, e': A.Entry) {
    var there := found && (e.expireAt.None? || now < e.expireAt.value);
    if there && e.kind != KHash then out == A.WrongType(e.kind) && e' == e
    else
      && e'.kind == KHash && e'.fields == (if there then e.fields else map[])[f := v]
      && e'.expireAt == (if there then e.expireAt else None)
      && out == if there && f in e.fields then A.Overwrite else A.New
  }

  lemma HsetOfSlot(key: Key, found: bool, e: A.Entry, f: Field, v: Bytes, now: int)
    ensures var (s, out) := A.Hset(Slot(key, found, e), key, f, v, now); key in s && HsetAnswers(found, e, f, v, now, out, s[key])
  {
  }

  class SharedEntry {
    const table: H.SharedHash
    var kind: Kind
    var expireAt: Option<int>
    var fieldCount: int
    var version: int
    ghost var fields: map<Field, Bytes>

    ghost predicate Valid(others: map<Ptr, Chunk>)
      reads this, table, table.arena, table.table, if table.table == null then {} else {table.table.buckets}
    {
      && table.Valid(others) && table.Fields() == fields
      && A.CountOk(Value())
      && (kind != KHash ==> table.table == null)
    }

    ghost function Value(): A.Entry
      reads this
    {
      A.Entry(kind, expireAt, fields, fieldCount, version)
    }

    /** The slot that HASH_ENTER has just added. */
    constructor (table: H.SharedHash)
      requires table.Valid(table.arena.chunks) && table.table == null
      ensures this.table == table && Valid(table.arena.chunks) && Value() == A.FRESH_HASH
    {
      this.table := table;
      kind, expireAt, fieldCount, version, fields := KHash, None, 0, 0, map[];
    }

    /** Bring the slot to a hash that can be written: a new or expired entry starts empty. */
    method Open(key: Key, found: bool, now: int, ghost others: map<Ptr, Chunk>)
      requires Valid(others)
      modifies this, table, table.arena
      ensures Valid(others) && Value() == A.Opened(Slot(key, found, old(Value())), key, now)
      ensures table.table == old(table.table) || table.table == null
      ensures table.arena.failures == old(table.arena.failures)
    {
      if found && !(expireAt.Some? && expireAt.value <= now) {
        return;
      }
      table.Release(others);
      kind, expireAt, fieldCount, version, fields := KHash, None, 0, 0, map[];
    }

    /** Set the counters; the table is not touched. */
    method SetCounters(added: int, bump: int, ghost fields': map<Field, Bytes>, ghost others: map<Ptr, Chunk>)
      requires table.Valid(others)
      modifies this
      ensures table.Valid(others) && table.Fields() == old(table.Fields()) && table.table == old(table.table)
      ensures Value() == A.Entry(old(kind), old(expireAt), fields', old(fieldCount) + added, old(version) + bump)
    {
      fieldCount := fieldCount + added;
      version := version + bump;
      fields := fields';
    }

    /** Keep the counters in step with a table that has just changed. */
    method Record(added: int, bump: int, ghost e: A.Entry, ghost others: map<Ptr, Chunk>)
      requires table.Valid(others) && table.Fields() == e.fields && kind == KHash && A.CountOk(e)
      requires e == A.Entry(kind, expireAt, e.fields, fieldCount + added, version + bump)
      modifies this
      ensures Valid(others) && Value() == e
    {
      SetCounters(added, bump, e.fields, others);
    }

    method Insert(field: Bytes, value: Bytes, ghost others: map<Ptr, Chunk>) returns (r: H.SetResult)
      requires Valid(others) && H.ValidField(field)
      modifies table.Footprint()
      ensures table.Valid(others) && table.Fields() == if r.Stored? then fields[field := value] else fields
      ensures r.Stored? ==> r.wasNew == (field !in fields)
      ensures r.ValueTooLong? <==> |value| > UINT16_MAX
      ensures table.arena.failures == old(table.arena.failures) + if r.OutOfMemory? then 1 else 0
      ensures unchanged(this)
    {
      r := table.Set(field, value, others);
    }

    /** Bring the counters in step with the outcome of an insertion. */
    method Stored(r: H.SetResult, field: Bytes, value: Bytes, ghost others: map<Ptr, Chunk>)
      requires table.Valid(others) && table.Fields() == (if r.Stored? then fields[field := value] else fields)
      requires kind == KHash && A.CountOk(Value()) && (r.Stored? ==> r.wasNew == (field !in fields))
      modifies this
      ensures Valid(others)
      ensures Value() == if r.Stored? then A.WithField(old(Value()), field, value) else old(Value())
    {
      A.CountKept(Value(), field, value);
      ghost var e := if r.Stored? then A.WithField(Value(), field, value) else Value();
      Record(if r.Stored? && r.wasNew then 1 else 0, if r.Stored? then 1 else 0, e, others);
    }

    /** Store the field and count it when it is new. */
    method Put(field: Bytes, value: Bytes, ghost others: map<Ptr, Chunk>) returns (r: H.SetResult)
      requires Valid(others) && kind == KHash && H.ValidField(field)
      modifies this, table.Footprint()
      ensures Valid(others)
      ensures Value() == if r.Stored? then A.WithField(old(Value()), field, value) else old(Value())
      ensures r.Stored? ==> r.wasNew == (field !in old(fields))
      ensures r.ValueTooLong? <==> |value| > UINT16_MAX
      ensures table.arena.failures == old(table.arena.failures) + if r.OutOfMemory? then 1 else 0
    {
      r := Insert(field, value, others);
      Stored(r, field, value, others);
    }

    method Erase(field: Bytes, ghost others: map<Ptr, Chunk>) returns (removed: bool)
      requires Valid(others)
      modifies table.Footprint()
      ensures table.Valid(others) && table.Fields() == fields - {field} && removed == (field in fields)
      ensures unchanged(this)
    {
      removed := table.Del(field, others);
    }

    /** Bring the counters in step with the outcome of a removal. */
    method Erased(removed: bool, field: Bytes, ghost others: map<Ptr, Chunk>)
      requires table.Valid(others) && table.Fields() == fields - {field} && removed == (field in fields)
      requires kind == KHash && A.CountOk(Value())
      modifies this
      ensures Valid(others) && Value() == A.WithoutField(old(Value()), field)
    {
      A.CountKept(Value(), field, []);
      A.SizeAfterTake(fields, field);
      Record(if removed then -1 else 0, if removed then 1 else 0, A.WithoutField(Value(), field), others);
    }

    /** Remove the field and count it when it was there. */
    method Take(field: Bytes, ghost others: map<Ptr, Chunk>) returns (removed: bool)
      requires Valid(others) && kind == KHash
      modifies this, table.Footprint()
      ensures Valid(others)
      ensures Value() == A.WithoutField(old(Value()), field)
      ensures removed == (field in old(fields))
    {
      removed := Erase(field, others);
      Erased(removed, field, others);
    }

    /** One attempt of HSET under the partition lock. */
    method HsetLocked(key: Key, found: bool, field: Bytes, value: Bytes, now: int, ghost others: map<Ptr, Chunk>) returns (r: Reply)
      requires Valid(others) && H.ValidField(field)
      modifies this, table.Footprint()
      ensures Valid(others)
      ensures r.Replied? ==>
        var (s, out) := A.Hset(Slot(key, found, old(Value())), key, field, value, now);
        key in s && Value() == s[key] && r.out == out
      ensures r.Replied? ==> HsetAnswers(found, old(Value()), field, value, now, r.out, Value())
      ensures found && (old(expireAt).None? || now < old(expireAt).value) && old(kind) != KHash ==> r.Replied?
      ensures r.Failed? ==> |value| > UINT16_MAX || old(table.arena.failures) < table.arena.failures
      ensures r.Failed? ==> Value() == A.Opened(Slot(key, found, old(Value())), key, now)
    {
      HsetOfSlot(key, found, Value(), field, value, now);
      Open(key, found, now, others);
      if kind != KHash {
        return Replied(A.WrongType(kind));
      }
      var res := Put(field, value, others);
      return if !res.Stored? then Failed else if res.wasNew then Replied(A.New) else Replied(A.Overwrite);
    }

    /** Give back every chunk of the entry. */
    method Evict(ghost others: map<Ptr, Chunk>)
      requires Valid(others)
      modifies table, table.arena
      ensures table.arena.chunks == others && unchanged(this)
    {
      table.Release(others);
    }

    /** The removal of HDEL under the partition lock; `kept` is false when the expired entry was dropped. */
    method HdelLocked(key: Key, field: Bytes, now: int, ghost others: map<Ptr, Chunk>) returns (out: A.Outcome, kept: bool)
      requires Valid(others)
      modifies this, table.Footprint()
      ensures var (s, reply) := A.Hdel(Slot(key, true, old(Value())), key, field, now);
              out == reply && (if kept then key in s && Value() == s[key] else key !in s)
      ensures if kept then Valid(others) else table.arena.chunks == others
      ensures kept <==> old(expireAt).None? || now < old(expireAt).value
      ensures out == if !kept then A.Noop else if old(kind) != KHash then A.WrongType(old(kind))
                     else if field in old(fields) then A.Deleted else A.Noop
      ensures kept && old(kind) == KHash ==> fields == old(fields) - {field}
    {
      HdelOfSlot(key, Value(), field, now);
      if expireAt.Some? && expireAt.value <= now {
        Evict(others);
        return A.Noop, false;
      }
      if kind != KHash {
        return A.WrongType(kind), true;
      }
      var removed := Take(field, others);
      return if removed then A.Deleted else A.Noop, true;
    }
  }
}
