/** Whole session histories: any interleaving of commands and commits. */
module FlushRuns {
  import opened Base
  import opened Tables
  import opened Session
  import opened Flush
  import L = ListValues
  import H = HashValues

  datatype Action = Do(c: Command) | Commit

  /** Memory and tables at one point of a history. */
  datatype Point = Point(s: State, db: Db)

  ghost predicate Next(parse: Bytes -> Option<int>, p: Point, a: Action, q: Point) {
    match a
    case Do(c) => q == Point(Exec(parse, p.s, c), p.db)
    case Commit => NoCollision(p.s, p.db) && Flushed(p.s, p.db, q.db) && q.s == ClearedState(p.s)
  }

  ghost predicate History(parse: Bytes -> Option<int>, ps: seq<Point>, actions: seq<Action>) {
    |ps| == |actions| + 1 && forall i :: 0 <= i < |actions| ==> Next(parse, ps[i], actions[i], ps[i + 1])
  }

  ghost predicate Coherent(p: Point) {
    Tracked(p.s, p.db) && NoLeftovers(p.s, p.db)
  }

  lemma NextKeepsCoherence(parse: Bytes -> Option<int>, p: Point, a: Action, q: Point)
    requires Coherent(p) && Next(parse, p, a, q) && (a.Do? ==> !CreatesOverRows(p.s, p.db, a.c))
    ensures Coherent(q) && (a.Commit? ==> Agrees(q.s, q.db) && q.s.chain == [] && q.s.deletes == [])
  {
    match a
    case Do(c) =>
      ExecKeepsTracking(parse, p.s, p.db, c);
      LeftoversAppear(parse, p.s, p.db, c);
    case Commit =>
      FlushAgrees(p.s, p.db, q.db);
      FlushKeepsForeignKeys(p.s, p.db, q.db);
      TrackedChain(p.s, p.db);
      AgreedIsTracked(q.s, q.db);
  }

  /**
   Along every history that never creates a collection over surviving child
   rows, tables and memory agree after each commit, and no commit can raise.
   */
  lemma {:induction false} HistoriesStayCoherent(parse: Bytes -> Option<int>, ps: seq<Point>, actions: seq<Action>, i: nat)
    requires History(parse, ps, actions) && Coherent(ps[0]) && i <= |actions|
    requires forall j :: 0 <= j < |actions| && actions[j].Do? ==> !CreatesOverRows(ps[j].s, ps[j].db, actions[j].c)
    ensures Coherent(ps[i]) && NoCollision(ps[i].s, ps[i].db)
    ensures 0 < i && actions[i - 1].Commit? ==> Agrees(ps[i].s, ps[i].db) && ps[i].s.chain == [] && ps[i].s.deletes == []
  {
    if 0 < i {
      HistoriesStayCoherent(parse, ps, actions, i - 1);
      NextKeepsCoherence(parse, ps[i - 1], actions[i - 1], ps[i]);
    }
    NoLeftoversNoCollision(ps[i].s, ps[i].db);
  }

  /** An empty keyspace over empty tables is a coherent start. */
  lemma EmptyIsCoherent()
    ensures Coherent(Point(NEW_STATE, Db(map[], map[], map[])))
  {
    AgreedIsTracked(NEW_STATE, Db(map[], map[], map[]));
  }

  // ----- Delete and re-create in one transaction -----

  /** HSET after DEL of the same key: an old field that the new hash lacks survives the commit. */
  lemma RecreatedHashKeepsOldField(parse: Bytes -> Option<int>, p: Point, k: Key, f: Field, g: Field, v: Bytes, r: Db)
    requires Coherent(p) && ValidKey(k) && ValidField(f) && f != g
    requires k in p.s.entries && (k, g) in p.db.fields
    requires var s := Exec(parse, Exec(parse, p.s, Del(k)), Hset(k, f, v)); Flushed(s, p.db, r)
    ensures var s := Exec(parse, Exec(parse, p.s, Del(k)), Hset(k, f, v));
            (k, g) in r.fields && !Agrees(ClearedState(s), r)
  {
    var s1 := Exec(parse, p.s, Del(k));
    var s := Exec(parse, s1, Hset(k, f, v));
    ExecKeepsTracking(parse, p.s, p.db, Del(k));
    ExecKeepsTracking(parse, s1, p.db, Hset(k, f, v));
    assert s.entries[k].value == VHash(H.SetField(H.NEW_HASH, f, v));
    assert EntryTracked(s, p.db, k);
    assert FieldFlushed(s, p.db, r, (k, g));
    assert forall x :: !DirtyField(s.entries[k].value, g, x);
    var h' := ClearedState(s).entries[k].value.h;
    assert g !in h'.fields && h'.tombstones == [];
    assert !FieldsCovered(h', k, r);
  }

  /** LPUSH or RPUSH after DEL of a list that holds ordinal 0: the commit raises. */
  lemma RecreatedListCollides(parse: Bytes -> Option<int>, p: Point, k: Key, v: Bytes, left: bool)
    requires Coherent(p) && ValidKey(k) && k in p.s.entries && (k, 0) in p.db.items
    ensures !NoCollision(Exec(parse, Exec(parse, p.s, Del(k)), Push(k, v, left)), p.db)
  {
    var s1 := Exec(parse, p.s, Del(k));
    var s := Exec(parse, s1, Push(k, v, left));
    var l := s.entries[k].value.l;
    assert l.nodes == [L.Node(v, 0, true)] && l.deletes == [];
    assert PendingItem(s.entries[k].value, 0, v) && k in s.chain;
  }
}
