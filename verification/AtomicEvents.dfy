/**
 Do the events that atomic HSET and HDEL publish bring the tables to what is in
 shared memory? Any number of backends run HSET and HDEL on hashes without
 expiry. Each locked section finds room in the ring for some of its events; with
 too little room the command goes round again or raises, under either setting of
 pg_redis.async_full_action (src/shared_store.c:640-861).
 */
module AtomicEvents {
  import opened Base
  import opened Tables
  import opened AtomicHash
  import opened AsyncDrain

  // handle_ring_full_after_unlock raises at this many full rings in a row.
  const SPIN_LIMIT := 100

  /** pg_redis.async_full_action */
  datatype Policy = SyncFlush | Block

  datatype Proc = Idle | InHset(k: Key, f: Field, v: Bytes, spin: nat) | InHdel(k: Key, f: Field, spin: nat)

  /** `log` holds the published events in ring order. */
  datatype State = State(store: Store, log: seq<Change>, procs: seq<Proc>)

  /**
   `room` is how many events go out before the section stops; `thrown` says that
   it stops with an error, of the synchronous drain that follows a full ring or of
   the allocation for the next event.
   */
  datatype Step =
    | StartHset(b: nat, k: Key, f: Field, v: Bytes)
    | TryHset(b: nat, room: nat, thrown: bool)
    | FailHset(b: nat)   // the table raises before the field is set: out of memory, value too long
    | TryHdel(b: nat, k: Key, f: Field, room: nat, thrown: bool)
    | PublishHdel(b: nat, room: nat, thrown: bool)

  predicate Enabled(s: State, st: Step) {
    && st.b < |s.procs|
    && match st
       case StartHset(b, _, _, _) => s.procs[b].Idle?
       case TryHset(b, _, _) => s.procs[b].InHset?
       case FailHset(b) => s.procs[b].InHset?
       case TryHdel(b, _, _, _, _) => s.procs[b].Idle?
       case PublishHdel(b, _, _) => s.procs[b].InHdel?
  }

  /** After a full ring: the same command again with a new spin count, or an error (Idle). */
  function Again(p: Proc, policy: Policy, thrown: bool): Proc
    requires !p.Idle?
  {
    if thrown then Idle
    else if policy.SyncFlush? then p.(spin := 0)
    else if p.spin + 1 >= SPIN_LIMIT then Idle
    else p.(spin := p.spin + 1)
  }

  function HsetEvents(k: Key, f: Field, v: Bytes, e: Entry): seq<Change> {
    [KeyUpsert(k, KHash, [], e.expireAt, e.version), FieldUpsert(k, f, v)]
  }

  function Apply(s: State, st: Step, policy: Policy): State
    requires Enabled(s, st)
  {
    match st
    case StartHset(b, k, f, v) => s.(procs := s.procs[b := InHset(k, f, v, 0)])
    case TryHset(b, room, thrown) =>
      var p := s.procs[b];
      var (t, out) := Hset(s.store, p.k, p.f, p.v, 0);
      if out.WrongType? then s.(procs := s.procs[b := Idle])
      else
        var events := HsetEvents(p.k, p.f, p.v, WithField(Opened(s.store, p.k, 0), p.f, p.v));
        if room < 2 then State(t, s.log + events[..room], s.procs[b := Again(p, policy, thrown)])
        else State(t, s.log + events, s.procs[b := Idle])
    case FailHset(b) =>
      s.(store := s.store[s.procs[b].k := Opened(s.store, s.procs[b].k, 0)], procs := s.procs[b := Idle])
    case TryHdel(b, k, f, room, thrown) =>
      var (t, out) := Hdel(s.store, k, f, 0);
      if out != Deleted then s.(store := t)
      else if room == 0 then State(t, s.log, s.procs[b := Again(InHdel(k, f, 0), policy, thrown)])
      else State(t, s.log + [FieldDelete(k, f)], s.procs)
    case PublishHdel(b, room, thrown) =>
      var p := s.procs[b];
      if room == 0 then s.(procs := s.procs[b := Again(p, policy, thrown)])
      else State(s.store, s.log + [FieldDelete(p.k, p.f)], s.procs[b := Idle])
  }

  ghost predicate Legal(s: State, steps: seq<Step>, policy: Policy)
    decreases |steps|
  {
    steps == [] || (Enabled(s, steps[0]) && Legal(Apply(s, steps[0], policy), steps[1..], policy))
  }

  ghost function After(s: State, steps: seq<Step>, policy: Policy): State
    requires Legal(s, steps, policy)
    decreases |steps|
  {
    if steps == [] then s else After(Apply(s, steps[0], policy), steps[1..], policy)
  }

  // ----- Memory and the replayed tables -----

  function InMemory(s: Store, kf: (Key, Field)): Option<Bytes> {
    if kf.0 in s then Get(s[kf.0].fields, kf.1) else None
  }

  /** Hashes without expiry, with exact field counters. */
  ghost predicate Hashes(s: Store) {
    (forall k :: k in s ==> s[k].kind == KHash && s[k].expireAt == None) && CountsOk(s)
  }

  /** The tables that replaying the published events one by one leaves. */
  ghost predicate Replayed(db0: Db, s: State, db: Db) {
    Replay(db0, s.log) == Some(db)
  }

  ghost predicate CellAgrees(s: State, db: Db, kf: (Key, Field)) {
    Get(db.fields, kf) == InMemory(s.store, kf)
  }

  predicate HashRow(db: Db, k: Key) {
    k in db.store && db.store[k].kind == KHash
  }

  ghost predicate ParentAgrees(s: State, db: Db, k: Key) {
    k in s.store ==> HashRow(db, k)
  }

  predicate Concerns(p: Proc, kf: (Key, Field)) {
    !p.Idle? && p.k == kf.0 && p.f == kf.1
  }

  /** A command on the cell is under way. */
  ghost predicate Pending(s: State, kf: (Key, Field)) {
    exists b :: 0 <= b < |s.procs| && Concerns(s.procs[b], kf)
  }

  ghost predicate Creating(s: State, k: Key) {
    exists b :: 0 <= b < |s.procs| && s.procs[b].InHset? && s.procs[b].k == k
  }

  /** What the tables become when the events of the step are replayed. */
  function TablesAfter(s: State, st: Step, db: Db): Db
    requires Enabled(s, st)
  {
    match st
    case StartHset(_, _, _, _) => db
    case FailHset(_) => db
    case TryHset(b, room, _) =>
      var p := s.procs[b];
      var e := WithField(Opened(s.store, p.k, 0), p.f, p.v);
      if room == 0 || e.kind != KHash then db
      else
        var row := Row(KHash, None, e.expireAt, e.version);
        Db(db.store[p.k := row], if room == 1 then db.fields else db.fields[(p.k, p.f) := p.v], db.items)
    case TryHdel(_, k, f, room, _) =>
      if 0 < room && InMemory(s.store, (k, f)).Some? then db.(fields := db.fields - {(k, f)}) else db
    case PublishHdel(b, room, _) =>
      if 0 < room then db.(fields := db.fields - {(s.procs[b].k, s.procs[b].f)}) else db
  }

  ghost function TablesAtEnd(s: State, steps: seq<Step>, policy: Policy, db: Db): Db
    requires Legal(s, steps, policy)
    decreases |steps|
  {
    if steps == [] then db else TablesAtEnd(Apply(s, steps[0], policy), steps[1..], policy, TablesAfter(s, steps[0], db))
  }

  lemma HsetReplays(db0: Db, log: seq<Change>, k: Key, f: Field, v: Bytes, e: Entry, room: nat, db: Db)
    requires Replay(db0, log) == Some(db) && room <= 2
    ensures var row := Row(KHash, None, e.expireAt, e.version);
            Replay(db0, log + HsetEvents(k, f, v, e)[..room]) == Some(
              if room == 0 then db
              else Db(db.store[k := row], if room == 1 then db.fields else db.fields[(k, f) := v], db.items))
  {
    var events := HsetEvents(k, f, v, e);
    if room == 0 {
      assert log + events[..0] == log;
    } else {
      ReplaySnoc(db0, log, events[0]);
      assert log + events[..1] == log + [events[0]];
      if room == 2 {
        ReplaySnoc(db0, log + [events[0]], events[1]);
        assert log + events[..2] == log + [events[0]] + [events[1]];
      }
    }
  }

  lemma TryHsetReplays(db0: Db, s: State, st: Step, policy: Policy, db: Db)
    requires st.TryHset? && Enabled(s, st) && Replayed(db0, s, db) && Hashes(s.store)
    ensures Replayed(db0, Apply(s, st, policy), TablesAfter(s, st, db))
  {
    var p := s.procs[st.b];
    var e := WithField(Opened(s.store, p.k, 0), p.f, p.v);
    var events := HsetEvents(p.k, p.f, p.v, e);
    assert events[..2] == events;
    HsetReplays(db0, s.log, p.k, p.f, p.v, e, if st.room < 2 then st.room else 2, db);
  }

  lemma StepReplays(db0: Db, s: State, st: Step, policy: Policy, db: Db)
    requires Enabled(s, st) && Replayed(db0, s, db) && Hashes(s.store)
    ensures Replayed(db0, Apply(s, st, policy), TablesAfter(s, st, db))
  {
    match st
    case StartHset(_, _, _, _) =>
    case FailHset(_) =>
    case TryHset(_, _, _) => TryHsetReplays(db0, s, st, policy, db);
    case TryHdel(_, k, f, _, _) => ReplaySnoc(db0, s.log, FieldDelete(k, f));
    case PublishHdel(b, _, _) => ReplaySnoc(db0, s.log, FieldDelete(s.procs[b].k, s.procs[b].f));
  }

  /** A step keeps the counters and publishes only hash events. */
  lemma StoreKept(s: State, st: Step, policy: Policy)
    requires Enabled(s, st) && Hashes(s.store)
    ensures Hashes(Apply(s, st, policy).store)
  {
    var s' := Apply(s, st, policy);
    if st.TryHset? {
      var p := s.procs[st.b];
      CountsKept(s.store, OpHset(p.k, p.f, p.v), 0);
      assert s'.store == Perform(s.store, OpHset(p.k, p.f, p.v), 0);
    } else if st.TryHdel? {
      CountsKept(s.store, OpHdel(st.k, st.f), 0);
      assert s'.store == Perform(s.store, OpHdel(st.k, st.f), 0);
    }
  }

  /** What a step does to one field in memory; HDEL's publish retries and a failed HSET do nothing. */
  lemma MemoryAfter(s: State, st: Step, policy: Policy, kf: (Key, Field))
    requires Enabled(s, st) && Hashes(s.store)
    ensures InMemory(Apply(s, st, policy).store, kf) ==
      if st.TryHset? && Concerns(s.procs[st.b], kf) then Some(s.procs[st.b].v)
      else if st.TryHdel? && (st.k, st.f) == kf then None
      else InMemory(s.store, kf)
  {
  }

  /** What a step does to one field of the replayed tables. */
  lemma TableAfter(s: State, st: Step, db: Db, kf: (Key, Field))
    requires Enabled(s, st) && Hashes(s.store)
    ensures Get(TablesAfter(s, st, db).fields, kf) ==
      if st.TryHset? && Concerns(s.procs[st.b], kf) && 2 <= st.room then Some(s.procs[st.b].v)
      else if st.TryHdel? && (st.k, st.f) == kf && InMemory(s.store, kf).Some? && 1 <= st.room then None
      else if st.PublishHdel? && Concerns(s.procs[st.b], kf) && 1 <= st.room then None
      else Get(db.fields, kf)
  {
  }

  // ----- The verdict on a cell -----

  /** A published deletion whose field has come back since HDEL removed it. */
  predicate LateDelete(s: State, st: Step) {
    st.PublishHdel? && 0 < st.room && Enabled(s, st) && InMemory(s.store, (s.procs[st.b].k, s.procs[st.b].f)).Some?
  }

  /** The step belongs to a command on the cell. An HDEL that finds no field is none. */
  predicate Touches(s: State, st: Step, kf: (Key, Field))
    requires Enabled(s, st)
  {
    match st
    case StartHset(_, _, _, _) => false
    case TryHset(b, _, _) => Concerns(s.procs[b], kf)
    case FailHset(b) => Concerns(s.procs[b], kf)
    case TryHdel(_, k, f, _, _) => (k, f) == kf && InMemory(s.store, kf).Some?
    case PublishHdel(b, _, _) => Concerns(s.procs[b], kf)
  }

  /** All events of the command are out. */
  predicate Completes(st: Step) {
    match st
    case TryHset(_, room, _) => 2 <= room
    case TryHdel(_, _, _, room, _) => 1 <= room
    case PublishHdel(_, room, _) => 1 <= room
    case _ => false
  }

  /** The command ends with an error, its change in memory standing. */
  predicate Raises(s: State, st: Step, policy: Policy)
    requires Enabled(s, st)
  {
    match st
    case StartHset(_, _, _, _) => false
    case FailHset(_) => true
    case TryHset(b, room, thrown) => room < 2 && Again(s.procs[b], policy, thrown).Idle?
    case TryHdel(_, k, f, room, thrown) => room < 1 && Again(InHdel(k, f, 0), policy, thrown).Idle?
    case PublishHdel(b, room, thrown) => room < 1 && Again(s.procs[b], policy, thrown).Idle?
  }

  /** What the command leaves in memory, read off before it runs. */
  function Leaves(s: State, st: Step, kf: (Key, Field)): Option<Bytes>
    requires Enabled(s, st)
  {
    if st.TryHset? then Some(s.procs[st.b].v) else if st.TryHdel? then None else InMemory(s.store, kf)
  }

  /**
   Is the cell lost after this step? A completed HSET or HDEL heals it, a late
   deletion loses it, and a raise loses it unless the tables already hold what
   memory is left with. Every other step leaves the verdict alone.
   */
  function LostAfter(s: State, st: Step, policy: Policy, db: Db, kf: (Key, Field), lost: bool): bool
    requires Enabled(s, st)
  {
    if !Touches(s, st, kf) then lost
    else if Completes(st) then LateDelete(s, st)
    else if Raises(s, st, policy) then Get(db.fields, kf) != Leaves(s, st, kf)
    else lost
  }

  /** The verdict of the last step of the run that settled the cell. */
  ghost function Lost(s: State, steps: seq<Step>, policy: Policy, db: Db, kf: (Key, Field), lost: bool): bool
    requires Legal(s, steps, policy)
    decreases |steps|
  {
    if steps == [] then lost
    else
      Lost(Apply(s, steps[0], policy), steps[1..], policy, TablesAfter(s, steps[0], db), kf,
           LostAfter(s, steps[0], policy, db, kf, lost))
  }

  /** The same for the parent row: only an HSET that raises before its first event can leave the key without one. */
  function OrphanAfter(s: State, st: Step, policy: Policy, db: Db, k: Key, orphan: bool): bool
    requires Enabled(s, st)
  {
    if !(st.TryHset? || st.FailHset?) || s.procs[st.b].k != k then orphan
    else if st.TryHset? && 1 <= st.room then false
    else if Raises(s, st, policy) then !HashRow(db, k)
    else orphan
  }

  ghost function Orphan(s: State, steps: seq<Step>, policy: Policy, db: Db, k: Key, orphan: bool): bool
    requires Legal(s, steps, policy)
    decreases |steps|
  {
    if steps == [] then orphan
    else
      Orphan(Apply(s, steps[0], policy), steps[1..], policy, TablesAfter(s, steps[0], db), k,
             OrphanAfter(s, steps[0], policy, db, k, orphan))
  }

  // ----- The verdict is right whenever no command on the cell is under way -----

  ghost predicate CellOk(s: State, db: Db, kf: (Key, Field), lost: bool) {
    Pending(s, kf) || (CellAgrees(s, db, kf) <==> !lost)
  }

  ghost predicate RowOk(s: State, db: Db, k: Key, orphan: bool) {
    Creating(s, k) || (ParentAgrees(s, db, k) <==> !orphan)
  }

  lemma OneMoves(s: State, st: Step, policy: Policy)
    requires Enabled(s, st)
    ensures var s' := Apply(s, st, policy); |s'.procs| == |s.procs| && s'.procs == s.procs[st.b := s'.procs[st.b]]
  {
  }

  /** Backends other than the one that moves keep what they are doing. */
  lemma OthersPending(s: State, s': State, b: nat, kf: (Key, Field))
    requires b < |s.procs| && b < |s'.procs| && s'.procs == s.procs[b := s'.procs[b]]
    ensures Pending(s, kf) ==> Pending(s', kf) || Concerns(s.procs[b], kf)
    ensures Concerns(s'.procs[b], kf) ==> Pending(s', kf)
  {
    if Pending(s, kf) {
      var c :| 0 <= c < |s.procs| && Concerns(s.procs[c], kf);
      assert c != b ==> s'.procs[c] == s.procs[c];
    }
  }

  lemma OthersCreating(s: State, s': State, b: nat, k: Key)
    requires b < |s.procs| && b < |s'.procs| && s'.procs == s.procs[b := s'.procs[b]]
    ensures Creating(s, k) ==> Creating(s', k) || (s.procs[b].InHset? && s.procs[b].k == k)
    ensures s'.procs[b].InHset? && s'.procs[b].k == k ==> Creating(s', k)
  {
    if Creating(s, k) {
      var c :| 0 <= c < |s.procs| && s.procs[c].InHset? && s.procs[c].k == k;
      assert c != b ==> s'.procs[c] == s.procs[c];
    }
  }

  lemma StepCell(s: State, st: Step, policy: Policy, db: Db, kf: (Key, Field), lost: bool)
    requires Enabled(s, st) && Hashes(s.store) && CellOk(s, db, kf, lost)
    ensures CellOk(Apply(s, st, policy), TablesAfter(s, st, db), kf, LostAfter(s, st, policy, db, kf, lost))
  {
    OneMoves(s, st, policy);
    OthersPending(s, Apply(s, st, policy), st.b, kf);
    MemoryAfter(s, st, policy, kf);
    TableAfter(s, st, db, kf);
  }

  lemma StepRow(s: State, st: Step, policy: Policy, db: Db, k: Key, orphan: bool)
    requires Enabled(s, st) && Hashes(s.store) && RowOk(s, db, k, orphan)
    ensures RowOk(Apply(s, st, policy), TablesAfter(s, st, db), k, OrphanAfter(s, st, policy, db, k, orphan))
  {
    OneMoves(s, st, policy);
    OthersCreating(s, Apply(s, st, policy), st.b, k);
  }

  lemma {:induction false} RunReplays(db0: Db, s: State, steps: seq<Step>, policy: Policy, db: Db)
    requires Replayed(db0, s, db) && Hashes(s.store) && Legal(s, steps, policy)
    ensures Replayed(db0, After(s, steps, policy), TablesAtEnd(s, steps, policy, db)) && Hashes(After(s, steps, policy).store)
    decreases |steps|
  {
    if steps != [] {
      StoreKept(s, steps[0], policy);
      StepReplays(db0, s, steps[0], policy, db);
      RunReplays(db0, Apply(s, steps[0], policy), steps[1..], policy, TablesAfter(s, steps[0], db));
    }
  }

  lemma {:induction false} RunCell(s: State, steps: seq<Step>, policy: Policy, db: Db, kf: (Key, Field), lost: bool)
    requires Hashes(s.store) && CellOk(s, db, kf, lost) && Legal(s, steps, policy)
    ensures CellOk(After(s, steps, policy), TablesAtEnd(s, steps, policy, db), kf, Lost(s, steps, policy, db, kf, lost))
    decreases |steps|
  {
    if steps != [] {
      StoreKept(s, steps[0], policy);
      StepCell(s, steps[0], policy, db, kf, lost);
      RunCell(Apply(s, steps[0], policy), steps[1..], policy, TablesAfter(s, steps[0], db), kf,
              LostAfter(s, steps[0], policy, db, kf, lost));
    }
  }

  lemma {:induction false} RunRow(s: State, steps: seq<Step>, policy: Policy, db: Db, k: Key, orphan: bool)
    requires Hashes(s.store) && RowOk(s, db, k, orphan) && Legal(s, steps, policy)
    ensures RowOk(After(s, steps, policy), TablesAtEnd(s, steps, policy, db), k, Orphan(s, steps, policy, db, k, orphan))
    decreases |steps|
  {
    if steps != [] {
      StoreKept(s, steps[0], policy);
      StepRow(s, steps[0], policy, db, k, orphan);
      RunRow(Apply(s, steps[0], policy), steps[1..], policy, TablesAfter(s, steps[0], db), k,
             OrphanAfter(s, steps[0], policy, db, k, orphan));
    }
  }

  /** Nobody runs a command, and tables and memory agree. */
  ghost predicate Settled(s: State, db: Db) {
    && Hashes(s.store)
    && (forall b :: 0 <= b < |s.procs| ==> s.procs[b].Idle?)
    && (forall kf :: CellAgrees(s, db, kf))
    && (forall k :: ParentAgrees(s, db, k))
  }

  /**
   For every run under either policy, replaying the published events succeeds,
   and it leaves in a cell exactly what memory holds if and only if the last
   step that settled the cell was neither a late deletion nor a raise that left
   memory with something else than the tables.
   */
  lemma ReplayAgreesIff(db0: Db, s: State, steps: seq<Step>, policy: Policy, kf: (Key, Field))
    requires Replayed(db0, s, db0) && Settled(s, db0) && Legal(s, steps, policy)
    requires !Pending(After(s, steps, policy), kf) && !Creating(After(s, steps, policy), kf.0)
    ensures var t := After(s, steps, policy);
            && Replay(db0, t.log).Some? && CountsOk(t.store)
            && (CellAgrees(t, Replay(db0, t.log).value, kf) <==> !Lost(s, steps, policy, db0, kf, false))
            && (ParentAgrees(t, Replay(db0, t.log).value, kf.0) <==> !Orphan(s, steps, policy, db0, kf.0, false))
  {
    RunReplays(db0, s, steps, policy, db0);
    assert CellAgrees(s, db0, kf) && ParentAgrees(s, db0, kf.0);
    RunCell(s, steps, policy, db0, kf, false);
    RunRow(s, steps, policy, db0, kf.0, false);
  }

  // ----- Backpressure -----

  /** A command that meets `n` full rings in a row, nothing thrown. */
  function Spun(p: Proc, policy: Policy, n: nat): Proc
    requires !p.Idle?
    decreases n
  {
    if n == 0 then p
    else
      var q := Spun(p, policy, n - 1);
      if q.Idle? then Idle else Again(q, policy, false)
  }

  /** In 'block' mode a command gives up at the hundredth full ring in a row and not before; in 'sync_flush' mode it never does. */
  lemma {:induction false} GivesUpIff(p: Proc, policy: Policy, n: nat)
    requires !p.Idle? && p.spin == 0
    ensures Spun(p, policy, n).Idle? <==> policy.Block? && 100 <= n
    ensures !Spun(p, policy, n).Idle? ==> Spun(p, policy, n) == p.(spin := if policy.Block? then n else 0)
  {
    if 0 < n {
      GivesUpIff(p, policy, n - 1);
    }
  }
}
