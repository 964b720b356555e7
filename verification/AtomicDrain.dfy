/**
 From the published events of atomic HSET and HDEL to the tables. The drain does
 not replay events one by one: it takes the log in batches and runs six grouped
 plans per batch (src/persistence.c:1389-1596). For every run of the commands and
 every cut of their log into batches, this module states exactly when a field in
 the tables is the field in memory.
 */
module AtomicDrain {
  import opened Base
  import opened Tables
  import opened AsyncDrain
  import opened AtomicHash
  import opened AtomicEvents

  // ----- Draining a log in batches -----

  function Joined(batches: seq<seq<Change>>): seq<Change> {
    if batches == [] then [] else Joined(batches[..|batches| - 1]) + batches[|batches| - 1]
  }

  /** One drain after the other; a raise stops. */
  function Drained(db: Db, batches: seq<seq<Change>>): Option<Db> {
    if batches == [] then Some(db)
    else
      match Drained(db, batches[..|batches| - 1])
      case None => None
      case Some(t) => RunPlans(t, Group(batches[|batches| - 1]))
  }

  /** What HSET and HDEL publish. */
  predicate HashLog(cs: seq<Change>) {
    forall i :: 0 <= i < |cs| ==> cs[i].KeyUpsert? || cs[i].FieldUpsert? || cs[i].FieldDelete?
  }

  /** The value of the last upsert of the field in a batch, whatever follows it. */
  function LastUpsert(cs: seq<Change>, kf: (Key, Field)): Option<Bytes> {
    if cs == [] then None
    else
      var c := cs[|cs| - 1];
      if c.FieldUpsert? && (c.k, c.f) == kf then Some(c.v) else LastUpsert(cs[..|cs| - 1], kf)
  }

  /** The upsert that survives although a deletion follows it in the last batch that mentions the field. */
  function Swallowed(batches: seq<seq<Change>>, kf: (Key, Field)): Option<Bytes> {
    if batches == [] then None
    else
      var b := batches[|batches| - 1];
      match FieldFate(b, kf)
      case Untouched => Swallowed(batches[..|batches| - 1], kf)
      case Gone => LastUpsert(b, kf)
      case Now(_) => None
  }

  // ----- One batch, one field -----

  lemma {:induction false} LastUpsertIsGrouped(cs: seq<Change>, kf: (Key, Field))
    ensures Get(LastWins(Group(cs).fieldUps), kf) == LastUpsert(cs, kf)
  {
    if cs != [] {
      var n := |cs| - 1;
      var ups := Group(cs[..n]).fieldUps;
      LastUpsertIsGrouped(cs[..n], kf);
      if cs[n].FieldUpsert? {
        assert Group(cs).fieldUps == ups + [((cs[n].k, cs[n].f), cs[n].v)];
        LastWinsSnoc(ups, (cs[n].k, cs[n].f), cs[n].v);
      } else {
        assert Group(cs).fieldUps == ups;
      }
    }
  }

  /** What one batch leaves in a field: the last upsert if there is any, whatever follows it. */
  lemma BatchField(db: Db, cs: seq<Change>, kf: (Key, Field))
    requires HashLog(cs) && RunPlans(db, Group(cs)).Some?
    ensures Get(RunPlans(db, Group(cs)).value.fields, kf) ==
      match FieldFate(cs, kf)
      case Untouched => Get(db.fields, kf)
      case Gone => LastUpsert(cs, kf)
      case Now(v) => Some(v)
  {
    FieldCell(db, Group(cs), kf);
    GroupedDeletes(cs, kf.0, kf.1, 0);
    GroupedField(cs, kf);
    FieldUntouched(cs, kf);
    LastUpsertIsGrouped(cs, kf);
  }

  // ----- Replay across the cut -----

  lemma {:induction false} ReplayAppend(db: Db, a: seq<Change>, b: seq<Change>)
    ensures Replay(db, a + b) == match Replay(db, a) case None => None case Some(t) => Replay(t, b)
    decreases |b|
  {
    if b == [] {
      assert a + b == a;
    } else {
      var n := |b| - 1;
      assert a + b == a + b[..n] + [b[n]] && b == b[..n] + [b[n]];
      ReplayAppend(db, a, b[..n]);
      ReplaySnoc(db, a + b[..n], b[n]);
      if Replay(db, a).Some? {
        ReplaySnoc(Replay(db, a).value, b[..n], b[n]);
      }
    }
  }

  lemma {:induction false} FateAppend(a: seq<Change>, b: seq<Change>, kf: (Key, Field))
    ensures FieldFate(a + b, kf) == if FieldFate(b, kf).Untouched? then FieldFate(a, kf) else FieldFate(b, kf)
    decreases |b|
  {
    if b == [] {
      assert a + b == a;
    } else {
      var n := |b| - 1;
      assert (a + b)[..|a + b| - 1] == a + b[..n];
      FateAppend(a, b[..n], kf);
    }
  }

  /** Hash events look only at the parent rows. */
  lemma {:induction false} ReplaySameStore(db: Db, t: Db, cs: seq<Change>)
    requires HashLog(cs) && db.store == t.store && Replay(db, cs).Some?
    ensures Replay(t, cs).Some? && Replay(t, cs).value.store == Replay(db, cs).value.store
  {
    if cs != [] {
      var n := |cs| - 1;
      assert HashLog(cs[..n]);
      ReplaySameStore(db, t, cs[..n]);
    }
  }

  /** A batch of hash events that replays also drains, with the same parent rows. */
  lemma BatchDrains(db: Db, cs: seq<Change>)
    requires HashLog(cs) && Replay(db, cs).Some?
    ensures RunPlans(db, Group(cs)).Some? && RunPlans(db, Group(cs)).value.store == Replay(db, cs).value.store
  {
    assert forall ko :: !Inserts(cs, ko);
    assert InsertsOnce(cs);
    GroupedSucceeds(db, cs);
    var r, t := RunPlans(db, Group(cs)).value, Replay(db, cs).value;
    forall k
      ensures Get(r.store, k) == Get(t.store, k)
    {
      KeyAgrees(db, cs, k);
    }
    forall k
      ensures k in r.store <==> k in t.store
      ensures k in r.store ==> r.store[k] == t.store[k]
    {
      assert Get(r.store, k) == Get(t.store, k);
    }
  }

  lemma HashLogSplit(a: seq<Change>, b: seq<Change>)
    requires HashLog(a + b)
    ensures HashLog(a) && HashLog(b)
  {
    assert forall i :: 0 <= i < |a| ==> (a + b)[i] == a[i];
    assert forall i :: 0 <= i < |b| ==> (a + b)[|a| + i] == b[i];
  }

  /** Whatever the cut, the drains go through and leave the parent rows of the replay. */
  lemma {:induction false} DrainsGoThrough(db: Db, batches: seq<seq<Change>>)
    requires HashLog(Joined(batches)) && Replay(db, Joined(batches)).Some?
    ensures Drained(db, batches).Some? && Drained(db, batches).value.store == Replay(db, Joined(batches)).value.store
  {
    if batches != [] {
      var n := |batches| - 1;
      var a, b := Joined(batches[..n]), batches[n];
      HashLogSplit(a, b);
      ReplayAppend(db, a, b);
      DrainsGoThrough(db, batches[..n]);
      var r, t := Replay(db, a).value, Drained(db, batches[..n]).value;
      ReplaySameStore(r, t, b);
      BatchDrains(t, b);
    }
  }

  /** A drained field is the replayed one, except that a swallowed deletion leaves the upsert before it. */
  lemma {:induction false} DrainedField(db: Db, batches: seq<seq<Change>>, kf: (Key, Field))
    requires HashLog(Joined(batches)) && Replay(db, Joined(batches)).Some? && Drained(db, batches).Some?
    ensures Swallowed(batches, kf).Some? ==>
      && Get(Drained(db, batches).value.fields, kf) == Swallowed(batches, kf)
      && Get(Replay(db, Joined(batches)).value.fields, kf) == None
    ensures Swallowed(batches, kf).None? ==>
      Get(Drained(db, batches).value.fields, kf) == Get(Replay(db, Joined(batches)).value.fields, kf)
  {
    if batches != [] {
      var n := |batches| - 1;
      var a, b := Joined(batches[..n]), batches[n];
      HashLogSplit(a, b);
      ReplayAppend(db, a, b);
      DrainsGoThrough(db, batches[..n]);
      DrainedField(db, batches[..n], kf);
      BatchField(Drained(db, batches[..n]).value, b, kf);
      ReplayField(Replay(db, a).value, b, kf);
    }
  }

  // ----- The log of a run -----

  lemma {:induction false} RunLogs(s: State, steps: seq<Step>, policy: Policy)
    requires HashLog(s.log) && Legal(s, steps, policy)
    ensures HashLog(After(s, steps, policy).log)
    decreases |steps|
  {
    if steps != [] {
      RunLogs(Apply(s, steps[0], policy), steps[1..], policy);
    }
  }

  /**
   The exact outcome. Start from agreeing tables and an empty log, let any
   backends run HSET and HDEL in any order under either policy, cut the published
   log into batches anywhere, and drain them. Every drain goes through, and a
   field on which no command is under way is in the tables as it is in memory if
   and only if
     - its last batch does not bury an upsert under a deletion, and the field was
       not lost to a late deletion or a raise; or
     - its last batch does, and memory happens to hold just that upsert.
   */
  lemma DrainAgreesIff(db0: Db, s: State, steps: seq<Step>, policy: Policy, batches: seq<seq<Change>>, kf: (Key, Field))
    requires s.log == [] && Settled(s, db0) && Legal(s, steps, policy)
    requires Joined(batches) == After(s, steps, policy).log
    requires !Pending(After(s, steps, policy), kf) && !Creating(After(s, steps, policy), kf.0)
    ensures var t := After(s, steps, policy);
            && Drained(db0, batches).Some?
            && (CellAgrees(t, Drained(db0, batches).value, kf) <==>
                if Swallowed(batches, kf).Some? then InMemory(t.store, kf) == Swallowed(batches, kf)
                else !Lost(s, steps, policy, db0, kf, false))
            && (ParentAgrees(t, Drained(db0, batches).value, kf.0) <==> !Orphan(s, steps, policy, db0, kf.0, false))
  {
    ReplayAgreesIff(db0, s, steps, policy, kf);
    RunLogs(s, steps, policy);
    DrainsGoThrough(db0, batches);
    DrainedField(db0, batches, kf);
  }

  /** In particular a swallowed deletion brings a field back exactly when nothing else was lost. */
  lemma SwallowedComesBack(db0: Db, s: State, steps: seq<Step>, policy: Policy, batches: seq<seq<Change>>, kf: (Key, Field))
    requires s.log == [] && Settled(s, db0) && Legal(s, steps, policy)
    requires Joined(batches) == After(s, steps, policy).log && Swallowed(batches, kf).Some?
    requires !Pending(After(s, steps, policy), kf) && !Creating(After(s, steps, policy), kf.0)
    ensures var t := After(s, steps, policy);
            && Drained(db0, batches).Some? && Get(Drained(db0, batches).value.fields, kf) == Swallowed(batches, kf)
            && (InMemory(t.store, kf) == None <==> !Lost(s, steps, policy, db0, kf, false))
  {
    ReplayAgreesIff(db0, s, steps, policy, kf);
    RunLogs(s, steps, policy);
    DrainsGoThrough(db0, batches);
    DrainedField(db0, batches, kf);
  }

  // ----- Two runs that go wrong -----

  /** A point of a run: the state, the replayed tables and the verdict on one cell. */
  datatype Point = Point(s: State, db: Db, lost: bool)

  ghost predicate Moves(p: Point, st: Step, policy: Policy, kf: (Key, Field), q: Point) {
    && Enabled(p.s, st)
    && q == Point(Apply(p.s, st, policy), TablesAfter(p.s, st, p.db), LostAfter(p.s, st, policy, p.db, kf, p.lost))
  }

  ghost predicate Reaches(p: Point, steps: seq<Step>, policy: Policy, kf: (Key, Field), q: Point) {
    Legal(p.s, steps, policy) && After(p.s, steps, policy) == q.s && Lost(p.s, steps, policy, p.db, kf, p.lost) == q.lost
  }

  lemma ReachesCons(p: Point, st: Step, q: Point, rest: seq<Step>, policy: Policy, kf: (Key, Field), r: Point)
    requires Moves(p, st, policy, kf, q) && Reaches(q, rest, policy, kf, r)
    ensures Reaches(p, [st] + rest, policy, kf, r)
  {
    assert ([st] + rest)[1..] == rest;
  }

  /** A backend sets the field with room for both events. */
  lemma HsetGoesThrough(p: Point, b: nat, k: Key, f: Field, v: Bytes, policy: Policy) returns (q: Point, r: Point)
    requires Hashes(p.s.store) && b < |p.s.procs| && p.s.procs[b].Idle?
    ensures Moves(p, StartHset(b, k, f, v), policy, (k, f), q) && Moves(q, TryHset(b, 2, false), policy, (k, f), r)
    ensures r.s.procs == p.s.procs && Hashes(r.s.store) && InMemory(r.s.store, (k, f)) == Some(v) && !r.lost
    ensures r.s.log == p.s.log + HsetEvents(k, f, v, WithField(Opened(p.s.store, k, 0), f, v))
  {
    var kf := (k, f);
    var st1, st2 := StartHset(b, k, f, v), TryHset(b, 2, false);
    q := Point(Apply(p.s, st1, policy), p.db, p.lost);
    r := Point(Apply(q.s, st2, policy), TablesAfter(q.s, st2, q.db), LostAfter(q.s, st2, policy, q.db, kf, q.lost));
    MemoryAfter(q.s, st2, policy, kf);
    StoreKept(q.s, st2, policy);
  }

  /** A backend removes the field, with room for the event or not. */
  lemma HdelRemoves(p: Point, b: nat, k: Key, f: Field, room: nat, policy: Policy) returns (q: Point)
    requires Hashes(p.s.store) && b < |p.s.procs| && p.s.procs[b].Idle? && InMemory(p.s.store, (k, f)).Some? && !p.lost
    requires room == 0 ==> policy.SyncFlush?
    ensures Moves(p, TryHdel(b, k, f, room, false), policy, (k, f), q)
    ensures Hashes(q.s.store) && InMemory(q.s.store, (k, f)) == None && !q.lost
    ensures room == 0 ==> q.s.procs == p.s.procs[b := InHdel(k, f, 0)] && q.s.log == p.s.log
    ensures 0 < room ==> q.s.procs == p.s.procs && q.s.log == p.s.log + [FieldDelete(k, f)]
  {
    var kf := (k, f);
    var st := TryHdel(b, k, f, room, false);
    q := Point(Apply(p.s, st, policy), TablesAfter(p.s, st, p.db), LostAfter(p.s, st, policy, p.db, kf, p.lost));
    MemoryAfter(p.s, st, policy, kf);
    StoreKept(p.s, st, policy);
  }

  /** HSET, then HDEL, both complete: memory has no field, nothing was lost, and one batch brings the field back. */
  lemma HsetThenHdelComesBack(db0: Db, s: State, policy: Policy, b: nat, k: Key, f: Field, v: Bytes) returns (steps: seq<Step>)
    requires s.log == [] && Settled(s, db0) && b < |s.procs|
    ensures Legal(s, steps, policy) && !Lost(s, steps, policy, db0, (k, f), false)
    ensures var t := After(s, steps, policy);
            && t.procs == s.procs && InMemory(t.store, (k, f)) == None
            && Drained(db0, [t.log]).Some? && Get(Drained(db0, [t.log]).value.fields, (k, f)) == Some(v)
  {
    var kf := (k, f);
    var p := Point(s, db0, false);
    var q, r := HsetGoesThrough(p, b, k, f, v, policy);
    var t := HdelRemoves(r, b, k, f, 1, policy);
    var st1, st2, st3 := StartHset(b, k, f, v), TryHset(b, 2, false), TryHdel(b, k, f, 1, false);
    assert Reaches(t, [], policy, kf, t);
    ReachesCons(r, st3, t, [], policy, kf, t);
    ReachesCons(q, st2, r, [st3] + [], policy, kf, t);
    ReachesCons(p, st1, q, [st2] + ([st3] + []), policy, kf, t);
    steps := [st1] + ([st2] + ([st3] + []));
    BuriedUpsert(k, f, v, WithField(Opened(s.store, k, 0), f, v), t.s.log);
    SwallowedComesBack(db0, s, steps, policy, [t.s.log], kf);
  }

  lemma BuriedUpsert(k: Key, f: Field, v: Bytes, e: Entry, log: seq<Change>)
    requires log == [] + HsetEvents(k, f, v, e) + [FieldDelete(k, f)]
    ensures Joined([log]) == log && Swallowed([log], (k, f)) == Some(v)
  {
    var up := HsetEvents(k, f, v, e);
    assert log[..2] == up && log[2] == FieldDelete(k, f) && up[1] == FieldUpsert(k, f, v);
    assert LastUpsert(up, (k, f)) == Some(v);
    assert [log][..0] == [];
    assert Joined([log]) == Joined([]) + log;
  }

  /** The waiting HDEL publishes while its field is in memory. */
  lemma DeletionComesLate(p: Point, b: nat, k: Key, f: Field) returns (q: Point)
    requires b < |p.s.procs| && p.s.procs[b] == InHdel(k, f, 0) && InMemory(p.s.store, (k, f)).Some?
    ensures Moves(p, PublishHdel(b, 1, false), SyncFlush, (k, f), q) && q.lost
    ensures q.s.procs == p.s.procs[b := Idle] && q.s.store == p.s.store && q.s.log == p.s.log + [FieldDelete(k, f)]
  {
    var st := PublishHdel(b, 1, false);
    q := Point(Apply(p.s, st, SyncFlush), TablesAfter(p.s, st, p.db), LostAfter(p.s, st, SyncFlush, p.db, (k, f), p.lost));
  }

  /**
   HDEL waits for room, HSET of its field gets through, and the deletion lands
   behind it, in a batch of its own: the field is in memory and gone from the
   tables.
   */
  lemma LateDeletionLosesField(db0: Db, s: State, a: nat, b: nat, k: Key, f: Field, v: Bytes) returns (steps: seq<Step>)
    requires s.log == [] && Settled(s, db0) && a < |s.procs| && b < |s.procs| && a != b
    requires InMemory(s.store, (k, f)).Some?
    ensures Legal(s, steps, SyncFlush) && Lost(s, steps, SyncFlush, db0, (k, f), false)
    ensures var t := After(s, steps, SyncFlush);
            && t.procs == s.procs && InMemory(t.store, (k, f)) == Some(v) && |t.log| == 3
            && Drained(db0, [t.log[..2]] + [t.log[2..]]).Some?
            && (k, f) !in Drained(db0, [t.log[..2]] + [t.log[2..]]).value.fields
  {
    var kf := (k, f);
    var p := Point(s, db0, false);
    var q1 := HdelRemoves(p, a, k, f, 0, SyncFlush);
    var q2, q3 := HsetGoesThrough(q1, b, k, f, v, SyncFlush);
    var st1, st2, st3, st4 := TryHdel(a, k, f, 0, false), StartHset(b, k, f, v), TryHset(b, 2, false), PublishHdel(a, 1, false);
    var t := DeletionComesLate(q3, a, k, f);
    assert Reaches(t, [], SyncFlush, kf, t);
    ReachesCons(q3, st4, t, [], SyncFlush, kf, t);
    ReachesCons(q2, st3, q3, [st4] + [], SyncFlush, kf, t);
    ReachesCons(q1, st2, q2, [st3] + ([st4] + []), SyncFlush, kf, t);
    ReachesCons(p, st1, q1, [st2] + ([st3] + ([st4] + [])), SyncFlush, kf, t);
    steps := [st1] + ([st2] + ([st3] + ([st4] + [])));
    assert t.s.procs == s.procs;
    DeletionApart(db0, s, steps, t.s, k, f, v, WithField(Opened(q1.s.store, k, 0), f, v));
  }

  lemma DeletionApart(db0: Db, s: State, steps: seq<Step>, t: State, k: Key, f: Field, v: Bytes, e: Entry)
    requires s.log == [] && Settled(s, db0) && Legal(s, steps, SyncFlush) && After(s, steps, SyncFlush) == t && t.procs == s.procs
    requires t.log == HsetEvents(k, f, v, e) + [FieldDelete(k, f)] && Lost(s, steps, SyncFlush, db0, (k, f), false)
    requires InMemory(t.store, (k, f)) == Some(v)
    ensures |t.log| == 3
    ensures var batches := [t.log[..2]] + [t.log[2..]];
            Drained(db0, batches).Some? && (k, f) !in Drained(db0, batches).value.fields
  {
    var kf, a, b := (k, f), t.log[..2], t.log[2..];
    var batches := [a] + [b];
    assert batches[..1] == [a] && [a][..0] == [] && Joined([]) == [];
    assert Joined([a]) == Joined([]) + a && Joined(batches) == Joined([a]) + b == t.log;
    assert b == [FieldDelete(k, f)] && b[..0] == [] && FieldFate(b, kf).Gone? && LastUpsert(b, kf) == None;
    assert Swallowed(batches, kf) == None;
    ReplayAgreesIff(db0, s, steps, SyncFlush, kf);
    RunLogs(s, steps, SyncFlush);
    DrainsGoThrough(db0, batches);
    DrainedField(db0, batches, kf);
    FateAppend(a, b, kf);
    assert t.log == a + b;
    ReplayField(db0, t.log, kf);
  }
}
