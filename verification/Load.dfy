/**
 The lazy load of a session (src/persistence.c, load_strings_and_ints,
 load_hashes, load_lists) and the round trip: flushed tables, loaded into an
 empty keyspace, give back every non-empty entry.
 */
module Load {
  import opened Base
  import opened Tables
  import opened Tlv
  import opened Session
  import opened Flush
  import L = ListValues
  import H = HashValues

  /** The WHERE clause of the three queries, and the key-length check. */
  predicate Selected(db: Db, now: int, k: Key) {
    && k in db.store && |k| <= MAX_KEY_SIZE
    && (db.store[k].expireAt.None? || db.store[k].expireAt.value > now)
  }

  function Scalar(row: Row): Option<Value> {
    if row.value.None? then None
    else if row.kind == KString then
      match DecodeString(row.value.value)
      case Some(b) => Some(VStr(b))
      case None => None
    else if row.kind == KInt then
      match DecodeInt(row.value.value)
      case Some(i) => Some(VInt(i))
      case None => None
    else None
  }

  function LoadedAs(v: Value, row: Row): Entry {
    Entry(v, row.expireAt, 1, false)
  }

  ghost predicate LoadedHash(h: H.HashState, db: Db, k: Key) {
    && h.tombstones == []
    && (forall f :: f in h.fields <==> (k, f) in db.fields && |f| <= MAX_FIELD_SIZE)
    && (forall f :: f in h.fields ==> h.fields[f] == H.Cell(db.fields[(k, f)], false))
  }

  /** The nodes are the item rows of the key, in ordinal order, none pending. */
  ghost predicate LoadedList(l: L.ListState, db: Db, k: Key) {
    && L.Ordered(l) && l.deletes == []
    && (forall n :: n in l.nodes <==> !n.pending && Get(db.items, (k, n.ord)) == Some(n.value))
  }

  function FieldsOf(db: Db, k: Key): (fs: set<Field>)
    ensures forall f :: f in fs <==> (k, f) in db.fields && |f| <= MAX_FIELD_SIZE
  {
    var fs := set kf | kf in db.fields && kf.0 == k && |kf.1| <= MAX_FIELD_SIZE :: kf.1;
    assert forall f :: (k, f) in db.fields && |f| <= MAX_FIELD_SIZE ==> (k, f).1 in fs;
    fs
  }

  function ItemsOf(db: Db, k: Key): set<(Key, int)> {
    set ko | ko in db.items && ko.0 == k
  }

  /** What loading makes of key `k`. */
  ghost predicate LoadedKey(db: Db, now: int, s: State, k: Key) {
    if !Selected(db, now, k) then k !in s.entries
    else
      var row := db.store[k];
      match row.kind
      case KHash =>
        if FieldsOf(db, k) == {} then k !in s.entries
        else k in s.entries && s.entries[k].value.VHash? && LoadedHash(s.entries[k].value.h, db, k)
             && s.entries[k] == LoadedAs(s.entries[k].value, row)
      case KList =>
        if ItemsOf(db, k) == {} then k !in s.entries
        else k in s.entries && s.entries[k].value.VList? && LoadedList(s.entries[k].value.l, db, k)
             && s.entries[k] == LoadedAs(s.entries[k].value, row)
      case _ =>
        if Scalar(row).None? then k !in s.entries
        else k in s.entries && s.entries[k] == LoadedAs(Scalar(row).value, row)
  }

  /**
   What a reader of the keyspace may rely on about key `k`: only unexpired rows
   of a proper length are loaded, with their kind and expiry and nothing dirty; a
   scalar exactly when its bytes decode, with that value; a collection exactly when
   it has children, with all of them.
   */
  ghost predicate RightlyLoaded(db: Db, now: int, s: State, k: Key) {
    && (k in s.entries ==>
          && k in db.store && |k| <= 1024 && (db.store[k].expireAt.Some? ==> now < db.store[k].expireAt.value)
          && s.entries[k].expireAt == db.store[k].expireAt && s.entries[k].version == 1 && !s.entries[k].inDirty
          && KindOf(s.entries[k].value) == db.store[k].kind)
    && (k in db.store && |k| <= 1024 && (db.store[k].expireAt.Some? ==> now < db.store[k].expireAt.value) ==>
          var row := db.store[k];
          match row.kind
          case KString =>
            && (k in s.entries <==> row.value.Some? && DecodeString(row.value.value).Some?)
            && (k in s.entries ==> s.entries[k].value == VStr(DecodeString(row.value.value).value))
          case KInt =>
            && (k in s.entries <==> row.value.Some? && DecodeInt(row.value.value).Some?)
            && (k in s.entries ==> s.entries[k].value == VInt(DecodeInt(row.value.value).value))
          case KHash =>
            && (k in s.entries <==> exists f :: (k, f) in db.fields && |f| <= 1024)
            && (k in s.entries ==> s.entries[k].value.VHash? && LoadedHash(s.entries[k].value.h, db, k))
          case KList =>
            && (k in s.entries <==> exists o :: (k, o) in db.items)
            && (k in s.entries ==> s.entries[k].value.VList? && LoadedList(s.entries[k].value.l, db, k)))
  }

  lemma LoadedIsRight(db: Db, now: int, s: State, k: Key)
    requires LoadedKey(db, now, s, k)
    ensures RightlyLoaded(db, now, s, k)
  {
    if k in db.store && db.store[k].kind == KHash {
      assert FieldsOf(db, k) != {} ==> exists f :: f in FieldsOf(db, k);
      assert forall f :: (k, f) in db.fields && |f| <= 1024 ==> f in FieldsOf(db, k);
    }
    HasItems(db, k);
  }

  lemma HasItems(db: Db, k: Key)
    ensures ItemsOf(db, k) != {} <==> exists o :: (k, o) in db.items
  {
    if ItemsOf(db, k) != {} {
      var ko :| ko in ItemsOf(db, k);
      var o := ko.1;
      assert ko == (k, o) && ko in db.items;
      assert (k, o) in db.items;
    }
    if o :| (k, o) in db.items {
      assert (k, o) in ItemsOf(db, k);
    }
  }

  // ----- The three loaders -----

  /** hash_set marks each field dirty; the loader clears the flag again. */
  method LoadHash(db: Db, k: Key) returns (h: H.HashState)
    ensures LoadedHash(h, db, k)
  {
    h := H.NEW_HASH;
    var todo := FieldsOf(db, k);
    while todo != {}
      invariant todo <= FieldsOf(db, k) && h.tombstones == []
      invariant forall f :: f in h.fields <==> f in FieldsOf(db, k) && f !in todo
      invariant forall f :: f in h.fields ==> h.fields[f] == H.Cell(db.fields[(k, f)], false)
      decreases todo
    {
      var f :| f in todo;
      h := H.SetField(h, f, db.fields[(k, f)]);
      h := h.(fields := h.fields[f := h.fields[f].(dirty := false)]);
      todo := todo - {f};
    }
  }

  /** The next row of ORDER BY ord. */
  method Least(rows: set<(Key, int)>) returns (least: (Key, int))
    requires rows != {}
    ensures least in rows && forall p :: p in rows ==> least.1 <= p.1
  {
    least :| least in rows;
    var todo := rows - {least};
    while todo != {}
      invariant least in rows && todo <= rows
      invariant forall p :: p in rows && p !in todo ==> least.1 <= p.1
      decreases todo
    {
      var p :| p in todo;
      if p.1 < least.1 {
        least := p;
      }
      todo := todo - {p};
    }
  }

  /** Rows arrive in ordinal order; rpush assigns an ordinal, which the durable one replaces. */
  method LoadList(db: Db, k: Key) returns (l: L.ListState)
    ensures LoadedList(l, db, k)
  {
    l := L.NEW_LIST;
    var todo := ItemsOf(db, k);
    while todo != {}
      invariant todo <= ItemsOf(db, k)
      invariant L.Ordered(l) && l.deletes == []
      invariant forall n :: n in l.nodes <==> !n.pending && (k, n.ord) !in todo && Get(db.items, (k, n.ord)) == Some(n.value)
      invariant forall n, o :: n in l.nodes && (k, o) in todo ==> n.ord < o
      decreases todo
    {
      var next := Least(todo);
      assert next == (k, next.1);
      AppendedInOrder(l, db.items[next], next.1);
      l := AppendLoaded(l, db.items[next], next.1);
      todo := todo - {next};
    }
  }

  function AppendLoaded(l: L.ListState, v: Bytes, ord: int): L.ListState {
    var pushed := L.PushRight(l, v);
    var n := |pushed.nodes| - 1;
    pushed.(nodes := pushed.nodes[n := L.Node(v, ord, false)],
            minOrd := if n == 0 then ord else pushed.minOrd, maxOrd := ord, ordInit := true)
  }

  lemma AppendedInOrder(l: L.ListState, v: Bytes, ord: int)
    requires L.Ordered(l) && forall n :: n in l.nodes ==> n.ord < ord
    ensures var l' := AppendLoaded(l, v, ord);
            && L.Ordered(l') && l'.deletes == l.deletes
            && forall n :: n in l'.nodes <==> n in l.nodes || n == L.Node(v, ord, false)
  {
    var l' := AppendLoaded(l, v, ord);
    assert l'.nodes == l.nodes + [L.Node(v, ord, false)];
  }

  /** The three loads into an empty keyspace, one selected key after the other. */
  method LoadAll(db: Db, now: int) returns (s: State)
    ensures s.chain == []
    ensures forall k :: LoadedKey(db, now, s, k)
    ensures forall k :: RightlyLoaded(db, now, s, k)
    ensures forall k :: k in s.deletes <==> Undecodable(db, now, k)
  {
    s := NEW_STATE;
    var todo := db.store.Keys;
    while todo != {}
      invariant todo <= db.store.Keys && s.chain == []
      invariant forall k :: k in todo ==> k !in s.entries && k !in s.deletes
      invariant forall k :: k !in todo ==> LoadedKey(db, now, s, k) && (k in s.deletes <==> Undecodable(db, now, k))
      decreases todo
    {
      var k :| k in todo;
      ghost var before := s;
      s := LoadOne(db, now, s, k);
      forall x | x != k
        ensures x in todo ==> x !in s.entries
        ensures x !in todo ==> LoadedKey(db, now, s, x)
      {
        assert Get(s.entries, x) == Get(before.entries, x);
        LoadedFrame(db, now, before, s, x);
      }
      todo := todo - {k};
    }
    forall k
      ensures RightlyLoaded(db, now, s, k)
    {
      LoadedIsRight(db, now, s, k);
    }
  }

  lemma LoadedFrame(db: Db, now: int, s: State, s': State, k: Key)
    requires Get(s'.entries, k) == Get(s.entries, k)
    ensures LoadedKey(db, now, s', k) <==> LoadedKey(db, now, s, k)
  {
  }

  /** A scalar row whose bytes do not decode is skipped, and store_remove queues its delete. */
  predicate Undecodable(db: Db, now: int, k: Key) {
    && k in db.store && |k| <= 1024 && (db.store[k].expireAt.Some? ==> now < db.store[k].expireAt.value)
    && db.store[k].value.Some?
    && ((db.store[k].kind == KString && DecodeString(db.store[k].value.value).None?)
        || (db.store[k].kind == KInt && DecodeInt(db.store[k].value.value).None?))
  }

  method LoadOne(db: Db, now: int, s: State, k: Key) returns (s': State)
    requires k in db.store && k !in s.entries && k !in s.deletes
    ensures s'.chain == s.chain && LoadedKey(db, now, s', k) && RightlyLoaded(db, now, s', k)
    ensures forall x :: x in s'.deletes <==> x in s.deletes || (x == k && Undecodable(db, now, k))
    ensures forall x :: x != k ==> Get(s'.entries, x) == Get(s.entries, x)
  {
    s' := s;
    if !Selected(db, now, k) {
      LoadedIsRight(db, now, s', k);
      return;
    }
    var row := db.store[k];
    match row.kind {
      case KHash =>
        if FieldsOf(db, k) != {} {
          var h := LoadHash(db, k);
          s' := s.(entries := s.entries[k := LoadedAs(VHash(h), row)]);
        }
      case KList =>
        if ItemsOf(db, k) != {} {
          var l := LoadList(db, k);
          s' := s.(entries := s.entries[k := LoadedAs(VList(l), row)]);
        }
      case _ =>
        if Scalar(row).Some? {
          s' := s.(entries := s.entries[k := LoadedAs(Scalar(row).value, row)]);
        } else if row.value.Some? {
          s' := s.(deletes := [k] + s.deletes);
        }
    }
    LoadedIsRight(db, now, s', k);
  }

  // ----- The round trip -----

  ghost predicate EmptyCollection(v: Value) {
    (v.VHash? && v.h.fields == map[]) || (v.VList? && v.l.nodes == [])
  }

  /** The limits that the commands and the TLV header impose. */
  ghost predicate Sized(k: Key, v: Value) {
    && |k| <= MAX_KEY_SIZE
    && (v.VStr? ==> |v.bytes| < UINT32_SPAN)
    && (v.VHash? ==> forall f :: f in v.h.fields ==> |f| <= MAX_FIELD_SIZE)
  }

  /** The last node of an ordered sequence has the greatest ordinal. */
  lemma LastIsGreatest(a: seq<L.Node>, n: L.Node)
    requires L.Increasing(a) && n in a
    ensures n == a[|a| - 1] || n.ord < a[|a| - 1].ord
  {
    var i :| 0 <= i < |a| && a[i] == n;
  }

  lemma WithoutLast(a: seq<L.Node>, n: L.Node)
    requires L.Increasing(a) && a != []
    ensures n in a[..|a| - 1] <==> n in a && n != a[|a| - 1]
  {
    if n in a[..|a| - 1] {
      var i :| 0 <= i < |a| - 1 && a[i] == n;
      assert a[i].ord < a[|a| - 1].ord;
    }
  }

  ghost predicate SameMembers(a: seq<L.Node>, b: seq<L.Node>) {
    forall n :: n in a <==> n in b
  }

  lemma PrefixesMatch(a: seq<L.Node>, b: seq<L.Node>)
    requires L.Increasing(a) && L.Increasing(b) && SameMembers(a, b) && a != [] && b != []
    ensures a[|a| - 1] == b[|b| - 1] && SameMembers(a[..|a| - 1], b[..|b| - 1])
  {
    var a', b' := a[..|a| - 1], b[..|b| - 1];
    LastIsGreatest(b, a[|a| - 1]);
    LastIsGreatest(a, b[|b| - 1]);
    forall x
      ensures x in a' <==> x in b'
    {
      WithoutLast(a, x);
      WithoutLast(b, x);
    }
  }

  /** Two ordinal-ordered node sequences with the same nodes are the same. */
  lemma {:induction false} SameNodes(a: seq<L.Node>, b: seq<L.Node>)
    requires L.Increasing(a) && L.Increasing(b) && SameMembers(a, b)
    ensures a == b
  {
    assert a != [] ==> a[0] in b;
    assert b != [] ==> b[0] in a;
    if a != [] && b != [] {
      var m, n := |a| - 1, |b| - 1;
      PrefixesMatch(a, b);
      SameNodes(a[..m], b[..n]);
      assert a == a[..m] + [a[m]] && b == b[..n] + [b[n]];
    }
  }

  lemma ReloadedHash(e: Entry, db: Db, k: Key, h: H.HashState)
    requires Synced(e, k, db) && e.value.VHash? && Sized(k, e.value) && LoadedHash(h, db, k)
    ensures h == e.value.h
  {
    var g := e.value.h;
    forall f
      ensures f in h.fields <==> f in g.fields
      ensures f in g.fields ==> h.fields[f] == g.fields[f]
    {
      if f in g.fields {
        assert Get(db.fields, (k, f)) == Some(g.fields[f].value);
      }
    }
    assert h.fields == g.fields;
  }

  lemma ReloadedList(e: Entry, db: Db, k: Key, l: L.ListState)
    requires Synced(e, k, db) && e.value.VList? && LoadedList(l, db, k)
    ensures l == e.value.l
  {
    var m := e.value.l;
    forall n
      ensures n in l.nodes <==> n in m.nodes
    {
      if n in l.nodes {
        assert (k, n.ord) in db.items && L.DurableAt(m, n.ord);
        var x :| x in m.nodes && x.ord == n.ord && !x.pending;
        assert Get(db.items, (k, x.ord)) == Some(x.value);
      }
    }
    SameNodes(l.nodes, m.nodes);
  }

  /** A loaded scalar row gives the value back. */
  lemma ReloadedScalar(e: Entry, db: Db, k: Key)
    requires Synced(e, k, db) && (e.value.VStr? || e.value.VInt?) && Sized(k, e.value)
    ensures Scalar(db.store[k]) == Some(e.value) && db.store[k].kind == KindOf(e.value)
  {
    if e.value.VStr? {
      StringRoundTrip(e.value.bytes);
    } else {
      IntRoundTrip(e.value.i);
    }
  }

  lemma ReloadedKey(s: State, db: Db, now: int, t: State, k: Key)
    requires k in s.entries && Synced(s.entries[k], k, db) && Sized(k, s.entries[k].value)
    requires !s.entries[k].inDirty && (s.entries[k].expireAt.Some? ==> s.entries[k].expireAt.value > now)
    requires LoadedKey(db, now, t, k)
    ensures k in t.entries <==> !EmptyCollection(s.entries[k].value)
    ensures k in t.entries ==> t.entries[k] == s.entries[k].(version := 1)
  {
    var e := s.entries[k];
    assert Selected(db, now, k) && db.store[k].kind == KindOf(e.value) && db.store[k].expireAt == e.expireAt;
    match e.value
    case VHash(h) =>
      assert forall f :: f in FieldsOf(db, k) <==> f in h.fields by {
        assert forall f :: f in h.fields ==> Get(db.fields, (k, f)) == Some(h.fields[f].value);
      }
      assert FieldsOf(db, k) == h.fields.Keys;
      assert h.fields == map[] <==> h.fields.Keys == {};
      if k in t.entries {
        ReloadedHash(e, db, k, t.entries[k].value.h);
      }
    case VList(l) =>
      assert l.nodes != [] ==> l.nodes[0] in l.nodes && (k, l.nodes[0].ord) in ItemsOf(db, k) by {
        assert l.nodes != [] ==> Get(db.items, (k, l.nodes[0].ord)) == Some(l.nodes[0].value);
      }
      forall o | l.nodes == []
        ensures (k, o) !in db.items
      {
        assert !L.DurableAt(l, o);
      }
      assert l.nodes == [] ==> ItemsOf(db, k) == {};
      if k in t.entries {
        ReloadedList(e, db, k, t.entries[k].value.l);
      }
    case _ =>
      ReloadedScalar(e, db, k);
  }

  lemma ExpiredIsGone(s: State, db: Db, now: int, t: State, k: Key)
    requires k in s.entries && Synced(s.entries[k], k, db) && LoadedKey(db, now, t, k)
    requires s.entries[k].expireAt.Some? && s.entries[k].expireAt.value <= now
    ensures k !in t.entries && !Undecodable(db, now, k)
  {
    LoadedIsRight(db, now, t, k);
    assert db.store[k].expireAt == s.entries[k].expireAt;
  }

  lemma AbsentIsNotLoaded(s: State, db: Db, now: int, t: State, k: Key)
    requires k !in s.entries && Hollow(db, k) && LoadedKey(db, now, t, k)
    ensures k !in t.entries && !Undecodable(db, now, k)
  {
    assert (forall f :: (k, f) !in db.fields) ==> FieldsOf(db, k) == {};
    assert (forall o :: (k, o) !in db.items) ==> ItemsOf(db, k) == {};
  }

  ghost predicate Restorable(e: Entry, now: int) {
    !EmptyCollection(e.value) && (e.expireAt.Some? ==> now < e.expireAt.value)
  }

  /**
   Round trip: tables in agreement with memory, loaded into an empty keyspace,
   restore exactly the entries that are not empty and not expired, with the same
   content, order, ordinals and expiry. Only the version restarts.
   */
  lemma ReloadRestores(s: State, db: Db, now: int, t: State)
    requires Agrees(s, db) && (forall k :: LoadedKey(db, now, t, k))
    requires forall k :: k in s.entries ==> !s.entries[k].inDirty && Sized(k, s.entries[k].value)
    ensures forall k :: k in t.entries <==> k in s.entries && Restorable(s.entries[k], now)
    ensures forall k :: k in t.entries ==> t.entries[k] == s.entries[k].(version := 1)
    ensures forall k :: !Undecodable(db, now, k)
  {
    forall k
      ensures k in t.entries <==> k in s.entries && Restorable(s.entries[k], now)
      ensures k in t.entries ==> t.entries[k] == s.entries[k].(version := 1)
      ensures !Undecodable(db, now, k)
    {
      assert LoadedKey(db, now, t, k);
      if k !in s.entries {
        assert Hollow(db, k);
        AbsentIsNotLoaded(s, db, now, t, k);
      } else if s.entries[k].expireAt.Some? && s.entries[k].expireAt.value <= now {
        ExpiredIsGone(s, db, now, t, k);
      } else {
        ReloadedKey(s, db, now, t, k);
        if s.entries[k].value.VStr? || s.entries[k].value.VInt? {
          ReloadedScalar(s.entries[k], db, k);
        }
      }
    }
  }

  /** A row that stands for a value is not hollow. */
  lemma FullIsNotHollow(e: Entry, k: Key, db: Db)
    requires Synced(e, k, db) && !EmptyCollection(e.value)
    ensures !Hollow(db, k)
  {
    match e.value
    case VHash(h) =>
      var f :| f in h.fields;
      assert Get(db.fields, (k, f)) == Some(h.fields[f].value);
    case VList(l) =>
      var n := l.nodes[0];
      assert n in l.nodes && Get(db.items, (k, n.ord)) == Some(n.value);
    case _ =>
  }

  /**
   The reloaded keyspace agrees with the tables again, so that the next transaction
   starts coherent, exactly when no entry that stands for a value had expired: the
   rows of an expired one stay behind.
   */
  lemma ReloadAgrees(s: State, db: Db, now: int, t: State)
    requires Agrees(s, db) && ForeignKeys(db) && (forall k :: LoadedKey(db, now, t, k)) && t.chain == [] && t.deletes == []
    requires forall k :: k in s.entries ==> !s.entries[k].inDirty && Sized(k, s.entries[k].value)
    ensures Agrees(t, db) <==>
      forall k :: k in s.entries && s.entries[k].expireAt.Some? && s.entries[k].expireAt.value <= now ==> EmptyCollection(s.entries[k].value)
    ensures Agrees(t, db) ==> Tracked(t, db) && NoLeftovers(t, db)
  {
    ReloadRestores(s, db, now, t);
    forall k | k !in t.entries
      ensures Hollow(db, k) <==> !(k in s.entries && !EmptyCollection(s.entries[k].value))
    {
      if k in s.entries {
        if EmptyCollection(s.entries[k].value) {
          EmptyIsHollow(s.entries[k], k, db);
        } else {
          FullIsNotHollow(s.entries[k], k, db);
        }
      }
    }
    if Agrees(t, db) {
      AgreedIsTracked(t, db);
    }
  }

  lemma EmptyIsHollow(e: Entry, k: Key, db: Db)
    requires Synced(e, k, db) && EmptyCollection(e.value)
    ensures Hollow(db, k)
  {
    if e.value.VList? {
      assert forall o :: !L.DurableAt(e.value.l, o);
    }
  }
}
