/**
 The pre-commit flush (src/persistence.c, run_flush): collect the deltas of the
 dirty entries, run the six plans, clear the tracking. Main result: for every
 sequence of commands, the flush succeeds and leaves the tables in agreement
 with memory exactly when no child row was left over from an earlier owner of
 a key.
 */
module Flush {
  import opened Base
  import opened Tables
  import opened Tlv
  import opened Session
  import L = ListValues
  import H = HashValues

  // ----- What one entry contributes -----

  ghost predicate DirtyField(v: Value, f: Field, x: Bytes) {
    v.VHash? && f in v.h.fields && v.h.fields[f] == H.Cell(x, true)
  }

  ghost predicate Tombstoned(v: Value, f: Field) {
    v.VHash? && f in v.h.tombstones
  }

  ghost predicate PendingItem(v: Value, o: int, x: Bytes) {
    v.VList? && L.Node(x, o, true) in v.l.nodes
  }

  ghost predicate AwaitsDelete(v: Value, o: int) {
    v.VList? && o in v.l.deletes
  }

  // ----- The tables after the flush, cell by cell -----

  ghost predicate RowFlushed(s: State, db: Db, r: Db, k: Key)
    requires forall k :: k in s.chain ==> k in s.entries && (s.entries[k].value.VInt? ==> IsInt64(s.entries[k].value.i))
  {
    Get(r.store, k) ==
      if k in s.chain then Some(RowOf(s.entries[k])) else if k in s.deletes then None else Get(db.store, k)
  }

  ghost predicate FieldFlushed(s: State, db: Db, r: Db, kf: (Key, Field))
    requires forall k :: k in s.chain ==> k in s.entries
  {
    if kf.0 in s.chain then
      var v := s.entries[kf.0].value;
      && (forall x :: DirtyField(v, kf.1, x) ==> Get(r.fields, kf) == Some(x))
      && ((forall x :: !DirtyField(v, kf.1, x)) ==>
            Get(r.fields, kf) == if Tombstoned(v, kf.1) then None else Get(db.fields, kf))
    else Get(r.fields, kf) == if kf.0 in s.deletes then None else Get(db.fields, kf)
  }

  ghost predicate ItemFlushed(s: State, db: Db, r: Db, ko: (Key, int))
    requires forall k :: k in s.chain ==> k in s.entries
  {
    if ko.0 in s.chain then
      var v := s.entries[ko.0].value;
      && (forall x :: PendingItem(v, ko.1, x) ==> Get(r.items, ko) == Some(x))
      && ((forall x :: !PendingItem(v, ko.1, x)) ==>
            Get(r.items, ko) == if AwaitsDelete(v, ko.1) then None else Get(db.items, ko))
    else Get(r.items, ko) == if ko.0 in s.deletes then None else Get(db.items, ko)
  }

  ghost predicate ChainOk(s: State) {
    forall k :: k in s.chain ==> k in s.entries && (s.entries[k].value.VInt? ==> IsInt64(s.entries[k].value.i))
  }

  ghost predicate Flushed(s: State, db: Db, r: Db) {
    && ChainOk(s)
    && (forall k :: RowFlushed(s, db, r, k))
    && (forall kf :: FieldFlushed(s, db, r, kf))
    && (forall ko :: ItemFlushed(s, db, r, ko))
  }

  /** No item insert meets a surviving row: the only way the six plans can raise. */
  ghost predicate NoCollision(s: State, db: Db) {
    forall k, o, x :: k in s.chain && k in s.entries && PendingItem(s.entries[k].value, o, x) && (k, o) in db.items
      ==> AwaitsDelete(s.entries[k].value, o)
  }

  // ----- Memory after the flush -----

  function CleanValue(v: Value): Value {
    match v
    case VHash(h) => VHash(H.HashState(map f | f in h.fields :: H.Cell(h.fields[f].value, false), []))
    case VList(l) => VList(l.(nodes := seq(|l.nodes|, i requires 0 <= i < |l.nodes| => l.nodes[i].(pending := false)), deletes := []))
    case _ => v
  }

  function Cleaned(e: Entry): Entry {
    e.(value := CleanValue(e.value), inDirty := false)
  }

  function ClearedState(s: State): State {
    State(map k | k in s.entries :: if k in s.chain then Cleaned(s.entries[k]) else s.entries[k], [], [])
  }

  /** Durable state, read through the parent rows, is the keyspace. */
  ghost predicate Agrees(s: State, db: Db) {
    && (forall k :: k in s.entries ==> Synced(s.entries[k], k, db))
    && (forall k :: k !in s.entries ==> Hollow(db, k))
  }

  /** What a flush writes into the parent row of a dirty entry. */
  lemma FlushedRow(s: State, db: Db, r: Db, k: Key)
    requires Flushed(s, db, r) && k in s.chain
    ensures var e := s.entries[k];
            && k in r.store && r.store[k].expireAt == e.expireAt && r.store[k].version == e.version
            && match e.value
               case VStr(b) => r.store[k].kind == KString && r.store[k].value == Some(Encode(Str(b)))
               case VInt(i) => r.store[k].kind == KInt && IsInt64(i) && r.store[k].value == Some(Encode(Int(i)))
               case VHash(_) => r.store[k].kind == KHash && r.store[k].value == None
               case VList(_) => r.store[k].kind == KList && r.store[k].value == None
  {
    assert RowFlushed(s, db, r, k);
  }

  // ----- Agreement, key by key -----

  lemma HashAgrees(s: State, db: Db, r: Db, k: Key)
    requires Tracked(s, db) && Flushed(s, db, r) && k in s.chain && s.entries[k].value.VHash?
    ensures var h, h' := s.entries[k].value.h, CleanValue(s.entries[k].value).h;
            && FieldsTracked(h', k, r)
            && (FieldsCovered(h', k, r) <==> FieldsCovered(h, k, db))
  {
    var v := s.entries[k].value;
    var h, h' := v.h, CleanValue(v).h;
    assert EntryTracked(s, db, k);
    forall f | f in h'.fields
      ensures Get(r.fields, (k, f)) == Some(h'.fields[f].value)
    {
      assert FieldFlushed(s, db, r, (k, f));
      if h.fields[f].dirty {
        assert DirtyField(v, f, h.fields[f].value);
      }
    }
    forall f | f !in h.fields
      ensures (k, f) in r.fields <==> (k, f) in db.fields && f !in h.tombstones
    {
      assert FieldFlushed(s, db, r, (k, f));
      assert forall x :: !DirtyField(v, f, x);
    }
  }

  lemma CleanList(l: L.ListState, l': L.ListState)
    requires VList(l') == CleanValue(VList(l)) && L.Ordered(l)
    ensures L.Ordered(l') && l'.deletes == []
    ensures forall n :: n in l'.nodes ==> !n.pending && (n in l.nodes || n.(pending := true) in l.nodes)
    ensures forall o :: L.DurableAt(l', o) <==> L.HasOrd(l, o)
  {
    assert forall i :: 0 <= i < |l.nodes| ==> l'.nodes[i] == l.nodes[i].(pending := false);
    forall n | n in l'.nodes
      ensures !n.pending && (n in l.nodes || n.(pending := true) in l.nodes)
    {
      var i :| 0 <= i < |l.nodes| && l'.nodes[i] == n;
      assert l.nodes[i] == n || l.nodes[i] == n.(pending := true);
    }
    forall o | L.HasOrd(l, o)
      ensures L.DurableAt(l', o)
    {
      var n :| n in l.nodes && n.ord == o;
      var i :| 0 <= i < |l.nodes| && l.nodes[i] == n;
      assert l'.nodes[i] in l'.nodes;
    }
  }

  /** What the flush leaves at one ordinal of a dirty list. */
  lemma ItemAfter(s: State, db: Db, r: Db, k: Key, n: L.Node)
    requires Tracked(s, db) && Flushed(s, db, r) && k in s.chain && s.entries[k].value.VList?
    requires n in s.entries[k].value.l.nodes
    ensures Get(r.items, (k, n.ord)) == Some(n.value)
  {
    var v := s.entries[k].value;
    assert EntryTracked(s, db, k);
    assert ItemFlushed(s, db, r, (k, n.ord));
    if n.pending {
      assert PendingItem(v, n.ord, n.value);
    } else {
      L.OneNodeEach(v.l);
      assert forall x :: !PendingItem(v, n.ord, x);
    }
  }

  /** A row is left over after the flush exactly when it was left over before. */
  lemma ItemLeft(s: State, db: Db, r: Db, k: Key, o: int)
    requires Tracked(s, db) && Flushed(s, db, r) && NoCollision(s, db) && k in s.chain && s.entries[k].value.VList?
    ensures var l := s.entries[k].value.l;
            ((k, o) in r.items ==> L.HasOrd(l, o)) <==> ((k, o) in db.items ==> o in l.deletes || L.DurableAt(l, o))
  {
    var v := s.entries[k].value;
    if L.HasOrd(v.l, o) {
      var n :| n in v.l.nodes && n.ord == o;
      if n.pending {
        assert PendingItem(v, o, n.value);
      }
    } else {
      assert ItemFlushed(s, db, r, (k, o));
      forall x
        ensures !PendingItem(v, o, x)
      {
        assert L.Node(x, o, true) in v.l.nodes ==> L.HasOrd(v.l, o);
      }
    }
  }

  lemma ListAgrees(s: State, db: Db, r: Db, k: Key)
    requires Tracked(s, db) && Flushed(s, db, r) && NoCollision(s, db) && k in s.chain && s.entries[k].value.VList?
    ensures var l, l' := s.entries[k].value.l, CleanValue(s.entries[k].value).l;
            && ItemsTracked(l', k, r)
            && (ItemsCovered(l', k, r) <==> ItemsCovered(l, k, db))
  {
    var l, l' := s.entries[k].value.l, CleanValue(s.entries[k].value).l;
    assert EntryTracked(s, db, k);
    CleanList(l, l');
    forall n | n in l'.nodes
      ensures Get(r.items, (k, n.ord)) == Some(n.value)
    {
      ItemAfter(s, db, r, k, if n in l.nodes then n else n.(pending := true));
    }
    forall o
      ensures ((k, o) in r.items ==> L.HasOrd(l, o)) <==> ((k, o) in db.items ==> o in l.deletes || L.DurableAt(l, o))
    {
      ItemLeft(s, db, r, k, o);
    }
    assert ItemsCovered(l', k, r) <==> forall o :: (k, o) in r.items ==> L.HasOrd(l, o);
  }

  // ----- The main result -----

  lemma EntryAgrees(s: State, db: Db, r: Db, k: Key)
    requires Tracked(s, db) && Flushed(s, db, r) && NoCollision(s, db) && k in s.entries
    ensures Synced(ClearedState(s).entries[k], k, r) <==> ValueCovered(s.entries[k].value, k, db)
  {
    var e, e' := s.entries[k], ClearedState(s).entries[k];
    assert EntryTracked(s, db, k);
    assert RowFlushed(s, db, r, k);
    if k in s.chain {
      if e.value.VHash? {
        HashAgrees(s, db, r, k);
      } else if e.value.VList? {
        ListAgrees(s, db, r, k);
        CleanList(e.value.l, e'.value.l);
      }
    } else {
      UntouchedKey(s, db, r, k);
    }
  }

  /** A key that is neither dirty nor deleted keeps all its rows. */
  lemma UntouchedKey(s: State, db: Db, r: Db, k: Key)
    requires Flushed(s, db, r) && k !in s.chain && k !in s.deletes
    ensures Get(r.store, k) == Get(db.store, k)
    ensures forall f :: Get(r.fields, (k, f)) == Get(db.fields, (k, f))
    ensures forall o :: Get(r.items, (k, o)) == Get(db.items, (k, o))
  {
    assert RowFlushed(s, db, r, k);
    forall f
      ensures Get(r.fields, (k, f)) == Get(db.fields, (k, f))
    {
      assert FieldFlushed(s, db, r, (k, f));
    }
    forall o
      ensures Get(r.items, (k, o)) == Get(db.items, (k, o))
    {
      assert ItemFlushed(s, db, r, (k, o));
    }
  }

  lemma AbsentAgrees(s: State, db: Db, r: Db, k: Key)
    requires Tracked(s, db) && Flushed(s, db, r) && k !in s.entries
    ensures Hollow(r, k)
  {
    assert EntryTracked(s, db, k);
    if k in s.deletes {
      assert RowFlushed(s, db, r, k);
    } else {
      UntouchedKey(s, db, r, k);
      assert forall f :: (k, f) in r.fields ==> Get(db.fields, (k, f)).Some?;
      assert forall o :: (k, o) in r.items ==> Get(db.items, (k, o)).Some?;
    }
  }

  /** A flush that goes through leaves agreement exactly when there are no leftovers. */
  lemma FlushAgrees(s: State, db: Db, r: Db)
    requires Tracked(s, db) && Flushed(s, db, r) && NoCollision(s, db)
    ensures Agrees(ClearedState(s), r) <==> NoLeftovers(s, db)
  {
    forall k | k in s.entries
      ensures Synced(ClearedState(s).entries[k], k, r) <==> ValueCovered(s.entries[k].value, k, db)
    {
      EntryAgrees(s, db, r, k);
    }
    forall k | k !in s.entries
      ensures Hollow(r, k)
    {
      AbsentAgrees(s, db, r, k);
    }
  }

  /** Without leftovers no insert can collide, however often ordinals were reused. */
  lemma NoLeftoversNoCollision(s: State, db: Db)
    requires Tracked(s, db) && NoLeftovers(s, db)
    ensures NoCollision(s, db)
  {
    forall k, o, x | k in s.chain && k in s.entries && PendingItem(s.entries[k].value, o, x) && (k, o) in db.items
      ensures AwaitsDelete(s.entries[k].value, o)
    {
      var l := s.entries[k].value.l;
      assert EntryTracked(s, db, k);
      L.PendingIsNotDurable(l, o, x);
    }
  }

  /** Agreement with nothing tracked is a coherent start for the next transaction. */
  lemma AgreedIsTracked(s: State, r: Db)
    requires Agrees(s, r) && ForeignKeys(r) && s.chain == [] && s.deletes == []
    requires forall k :: k in s.entries ==> !s.entries[k].inDirty
    ensures Tracked(s, r) && NoLeftovers(s, r)
  {
    forall k
      ensures EntryTracked(s, r, k)
    {
    }
  }

  /** What the flush relies on about the dirty chain. */
  lemma TrackedChain(s: State, db: Db)
    requires Tracked(s, db)
    ensures ChainOk(s)
    ensures forall k :: k in s.chain && s.entries[k].value.VList? ==> L.Increasing(s.entries[k].value.l.nodes)
    ensures forall k :: k in s.entries ==> !ClearedState(s).entries[k].inDirty
  {
    forall k | k in s.chain
      ensures k in s.entries && ValueTracked(s.entries[k].value, k, db)
    {
      assert EntryTracked(s, db, k);
    }
    forall k | k in s.entries
      ensures !ClearedState(s).entries[k].inDirty
    {
      assert EntryTracked(s, db, k);
    }
  }

  lemma FlushKeepsForeignKeys(s: State, db: Db, r: Db)
    requires ForeignKeys(db) && Flushed(s, db, r)
    ensures ForeignKeys(r)
  {
    forall kf | kf in r.fields
      ensures kf.0 in r.store
    {
      assert RowFlushed(s, db, r, kf.0) && FieldFlushed(s, db, r, kf);
      assert Get(r.fields, kf).Some?;
    }
    forall ko | ko in r.items
      ensures ko.0 in r.store
    {
      assert RowFlushed(s, db, r, ko.0) && ItemFlushed(s, db, r, ko);
      assert Get(r.items, ko).Some?;
    }
  }
}
