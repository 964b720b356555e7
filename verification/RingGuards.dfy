/**
 The three facts that the ring relies on without enforcing them: what becomes of
 an event whose position was stale, and for each fact a concrete run that loses,
 replaces or strands an event without it. RingRaces states the exact conditions.
 */
module RingGuards {
  import opened Base
  import opened DirtyRing
  import opened RingSafety

  // ----- A slot may be reserved only for the current write_head (src/dirty_ring.c:186-195, 233-240) -----

  /**
   A call whose reservation succeeds always reports success if it runs on
   undisturbed, but its event enters the published history exactly when
   write_head had not moved since the call read it.
   */
  lemma AcknowledgedIsPublished(s: State, p: Pid)
    requires Inv(s) && Pr(s, p).SawBoth? && At(s, Pr(s, p).w).state == EMPTY
    ensures var steps := [Reserve(p)] + [Fill(p), Publish(p), Advance(p)];
            && Legal(NO_GUARDS, s, steps)
            && var t := After(NO_GUARDS, s, steps);
               && Pr(t, p).Idle?
               && (t.log == s.log + [Pr(s, p).ev] <==> Pr(s, p).w == s.writeHead)
               && (t.log == s.log <==> Pr(s, p).w != s.writeHead)
  {
    var s1 := Apply(s, Reserve(p));
    PutFrame(s, Pr(s, p).w, At(s1, Pr(s, p).w), s1);
    Single(NO_GUARDS, s, Reserve(p));
    SoloFinish(NO_GUARDS, s1, p);
    Concat(NO_GUARDS, s, [Reserve(p)], [Fill(p), Publish(p), Advance(p)]);
  }

  // ----- Concrete runs -----

  lemma {:induction false} Concat(g: Guards, s: State, a: seq<Step>, b: seq<Step>)
    requires 0 < s.cap == |s.slots| && Legal(g, s, a) && Legal(g, After(g, s, a), b)
    ensures Legal(g, s, a + b) && After(g, s, a + b) == After(g, After(g, s, a), b)
    decreases |a|
  {
    if a == [] {
      assert a + b == b;
    } else {
      assert (a + b)[1..] == a[1..] + b;
      Concat(g, Apply(s, a[0]), a[1..], b);
    }
  }

  lemma Single(g: Guards, s: State, x: Step)
    requires 0 < s.cap == |s.slots| && Enabled(g, s, x)
    ensures Legal(g, s, [x]) && After(g, s, [x]) == Apply(s, x)
  {
    assert [x][1..] == [];
    assert Legal(g, Apply(s, x), []) && After(g, Apply(s, x), []) == Apply(s, x);
  }

  lemma Two(g: Guards, s: State, x: Step, y: Step)
    requires 0 < s.cap == |s.slots| && Enabled(g, s, x) && Enabled(g, Apply(s, x), y)
    ensures Legal(g, s, [x, y]) && After(g, s, [x, y]) == Apply(Apply(s, x), y)
  {
    Single(g, Apply(s, x), y);
    assert [x, y][1..] == [y];
  }

  lemma Three(g: Guards, s: State, x: Step, y: Step, z: Step)
    requires 0 < s.cap == |s.slots| && Enabled(g, s, x) && Enabled(g, Apply(s, x), y) && Enabled(g, Apply(Apply(s, x), y), z)
    ensures Legal(g, s, [x, y, z]) && After(g, s, [x, y, z]) == Apply(Apply(Apply(s, x), y), z)
  {
    Two(g, Apply(s, x), y, z);
    assert [x, y, z][1..] == [y, z];
  }

  /** A call that has reserved `w` fills it, marks it READY and tries to advance write_head. */
  lemma SoloFinish(g: Guards, s: State, p: Pid)
    requires 0 < s.cap == |s.slots| && Pr(s, p).Reserved? && At(s, Pr(s, p).w).state == WRITING
    ensures var steps, ev, w := [Fill(p), Publish(p), Advance(p)], Pr(s, p).ev, Pr(s, p).w;
            && Legal(g, s, steps)
            && var t := s.(producers := s.producers[p := Idle], slots := Put(s, w, Slot(READY, ev)),
                           payloads := Hand(s.payloads, ev.spill, InSlot(w)));
               After(g, s, steps) == if s.writeHead == w then t.(writeHead := w + 1, log := s.log + [ev], owner := None) else t
  {
    var Reserved(ev, w) := Pr(s, p);
    var s1 := Apply(s, Fill(p));
    PutFrame(s, w, At(s1, w), s1);
    var s2 := Apply(s1, Publish(p));
    Three(g, s, Fill(p), Publish(p), Advance(p));
    assert s.producers[p := Pr(s1, p)][p := Pr(s2, p)][p := Idle] == s.producers[p := Idle];
    assert s2.slots == Put(s, w, Slot(READY, ev));
  }

  ghost predicate Reaches(g: Guards, s: State, t: State) {
    0 < s.cap == |s.slots| && exists steps :: Legal(g, s, steps) && After(g, s, steps) == t
  }

  lemma Then(g: Guards, s: State, t: State, steps: seq<Step>)
    requires Reaches(g, s, t) && 0 < t.cap == |t.slots| && Legal(g, t, steps)
    ensures Reaches(g, s, After(g, t, steps))
  {
    var first :| Legal(g, s, first) && After(g, s, first) == t;
    Concat(g, s, first, steps);
  }

  lemma StepTo(g: Guards, s0: State, s: State, x: Step) returns (t: State)
    requires Reaches(g, s0, s) && 0 < s.cap == |s.slots| && Enabled(g, s, x)
    ensures Reaches(g, s0, t) && t == Apply(s, x)
  {
    Single(g, s, x);
    Then(g, s0, s, [x]);
    t := Apply(s, x);
  }

  /** One step with its outcome spelled out. */
  ghost predicate Moves(g: Guards, s: State, x: Step, t: State) {
    0 < s.cap == |s.slots| && Enabled(g, s, x) && t == Apply(s, x)
  }

  lemma ThreeTo(g: Guards, s0: State, s: State, x: Step, s1: State, y: Step, s2: State, z: Step, t: State)
    requires Reaches(g, s0, s) && Moves(g, s, x, s1) && Moves(g, s1, y, s2) && Moves(g, s2, z, t)
    ensures Reaches(g, s0, t)
  {
    var t1 := StepTo(g, s0, s, x);
    var t2 := StepTo(g, s0, t1, y);
    var t3 := StepTo(g, s0, t2, z);
  }

  lemma SoloReserveEffect(g: Guards, s: State, p: Pid) returns (s1: State, s2: State, t: State)
    requires 0 < s.cap == |s.slots| && Pr(s, p).Trying? && s.readHead <= s.writeHead < s.readHead + s.cap && At(s, s.writeHead).state == EMPTY
    ensures Moves(g, s, ReadWrite(p), s1) && Moves(g, s1, ReadRead(p), s2) && Moves(g, s2, Reserve(p), t)
    ensures t == s.(producers := s.producers[p := Reserved(Pr(s, p).ev, s.writeHead)], owner := Some(p),
                    slots := Put(s, s.writeHead, At(s, s.writeHead).(state := WRITING)))
  {
    s1 := Apply(s, ReadWrite(p));
    s2 := Apply(s1, ReadRead(p));
    assert At(s2, s.writeHead) == At(s, s.writeHead);
    t := Apply(s2, Reserve(p));
    assert s.producers[p := Pr(s1, p)][p := Pr(s2, p)][p := Pr(t, p)] == s.producers[p := Pr(t, p)];
  }

  /** A call runs alone up to the reservation. */
  lemma SoloReserve(g: Guards, s0: State, s: State, p: Pid) returns (t: State)
    requires Reaches(g, s0, s) && 0 < s.cap == |s.slots| && Pr(s, p).Trying? && s.readHead <= s.writeHead < s.readHead + s.cap && At(s, s.writeHead).state == EMPTY
    ensures Reaches(g, s0, t)
    ensures t == s.(producers := s.producers[p := Reserved(Pr(s, p).ev, s.writeHead)], owner := Some(p),
                    slots := Put(s, s.writeHead, At(s, s.writeHead).(state := WRITING)))
  {
    var s1, s2;
    s1, s2, t := SoloReserveEffect(g, s, p);
    ThreeTo(g, s0, s, ReadWrite(p), s1, ReadRead(p), s2, Reserve(p), t);
  }

  lemma SoloLockEffect(g: Guards, s: State, d: Did) returns (s1: State, s2: State, t: State)
    requires 0 < s.cap == |s.slots| && Dr(s, d).Away? && s.lock.None?
    ensures Moves(g, s, Lock(d, 1), s1) && Moves(g, s1, ReadBase(d), s2) && Moves(g, s2, ReadLimit(d), t)
    ensures t == s.(drainers := s.drainers[d := Collecting(1, s.readHead, s.writeHead, [])], lock := Some(d))
  {
    s1 := Apply(s, Lock(d, 1));
    s2 := Apply(s1, ReadBase(d));
    t := Apply(s2, ReadLimit(d));
    assert s.drainers[d := Dr(s1, d)][d := Dr(s2, d)][d := Dr(t, d)] == s.drainers[d := Dr(t, d)];
  }

  /** A drainer takes the consumer lock and reads both heads. */
  lemma SoloLock(g: Guards, s0: State, s: State, d: Did) returns (t: State)
    requires Reaches(g, s0, s) && 0 < s.cap == |s.slots| && Dr(s, d).Away? && s.lock.None?
    ensures Reaches(g, s0, t)
    ensures t == s.(drainers := s.drainers[d := Collecting(1, s.readHead, s.writeHead, [])], lock := Some(d))
  {
    var s1, s2;
    s1, s2, t := SoloLockEffect(g, s, d);
    ThreeTo(g, s0, s, Lock(d, 1), s1, ReadBase(d), s2, ReadLimit(d), t);
  }

  lemma SoloCollectEffect(g: Guards, s: State, d: Did) returns (s1: State, s2: State, t: State)
    requires 0 < s.cap == |s.slots| && Dr(s, d) == Collecting(1, s.readHead, s.writeHead, []) && s.readHead < s.writeHead && At(s, s.readHead).state == READY
    ensures Moves(g, s, CollectOne(d), s1) && Moves(g, s1, EndCollect(d), s2) && Moves(g, s2, Execute(d, true), t)
    ensures t == s.(drainers := s.drainers[d := Executed(s.readHead, [At(s, s.readHead).ev])], active := Some(d),
                    slots := Put(s, s.readHead, At(s, s.readHead).(state := DRAINING)), lock := None)
  {
    s1 := Apply(s, CollectOne(d));
    assert Dr(s1, d).buf == [At(s, s.readHead).ev];
    s2 := Apply(s1, EndCollect(d));
    t := Apply(s2, Execute(d, true));
    assert s.drainers[d := Dr(s1, d)][d := Dr(s2, d)][d := Dr(t, d)] == s.drainers[d := Dr(t, d)];
  }

  /** A drainer collects the first pending event and its plans succeed. */
  lemma SoloCollect(g: Guards, s0: State, s: State, d: Did) returns (t: State)
    requires Reaches(g, s0, s) && 0 < s.cap == |s.slots| && Dr(s, d) == Collecting(1, s.readHead, s.writeHead, []) && s.readHead < s.writeHead && At(s, s.readHead).state == READY
    ensures Reaches(g, s0, t)
    ensures t == s.(drainers := s.drainers[d := Executed(s.readHead, [At(s, s.readHead).ev])], active := Some(d),
                    slots := Put(s, s.readHead, At(s, s.readHead).(state := DRAINING)), lock := None)
  {
    var s1, s2;
    s1, s2, t := SoloCollectEffect(g, s, d);
    ThreeTo(g, s0, s, CollectOne(d), s1, EndCollect(d), s2, Execute(d, true), t);
  }

  lemma SoloReleaseEffect(g: Guards, s: State, d: Did) returns (s1: State, s2: State, t: State)
    requires 0 < s.cap == |s.slots| && Dr(s, d).Executed? && |Dr(s, d).buf| == 1 && s.lock.None?
    ensures Moves(g, s, BeginRelease(d), s1) && Moves(g, s1, ReleaseOne(d), s2) && Moves(g, s2, EndRelease(d), t)
    ensures t == s.(drainers := s.drainers[d := Away], active := None, readHead := Dr(s, d).base + 1,
                    slots := Put(s, Dr(s, d).base, Slot(EMPTY, At(s, Dr(s, d).base).ev.(spill := 0))),
                    payloads := Forget(s.payloads, At(s, Dr(s, d).base).ev.spill),
                    retired := s.retired + [Released(Dr(s, d).buf)])
  {
    s1 := Apply(s, BeginRelease(d));
    assert At(s1, Dr(s, d).base) == At(s, Dr(s, d).base);
    s2 := Apply(s1, ReleaseOne(d));
    t := Apply(s2, EndRelease(d));
    assert s.drainers[d := Dr(s1, d)][d := Dr(s2, d)][d := Dr(t, d)] == s.drainers[d := Dr(t, d)];
  }

  /** A drainer releases a batch of one. */
  lemma SoloRelease(g: Guards, s0: State, s: State, d: Did) returns (t: State)
    requires Reaches(g, s0, s) && 0 < s.cap == |s.slots| && Dr(s, d).Executed? && |Dr(s, d).buf| == 1 && s.lock.None?
    ensures Reaches(g, s0, t)
    ensures t == s.(drainers := s.drainers[d := Away], active := None, readHead := Dr(s, d).base + 1,
                    slots := Put(s, Dr(s, d).base, Slot(EMPTY, At(s, Dr(s, d).base).ev.(spill := 0))),
                    payloads := Forget(s.payloads, At(s, Dr(s, d).base).ev.spill),
                    retired := s.retired + [Released(Dr(s, d).buf)])
  {
    var s1, s2;
    s1, s2, t := SoloReleaseEffect(g, s, d);
    ThreeTo(g, s0, s, BeginRelease(d), s1, ReleaseOne(d), s2, EndRelease(d), t);
  }

  lemma SoloLockDropEffect(g: Guards, s: State, d: Did) returns (s1: State, s2: State, t: State)
    requires 0 < s.cap == |s.slots| && Dr(s, d).Away? && s.lock.None? && !g.noBatch
    ensures Moves(g, s, LockDrop(d), s1) && Moves(g, s1, ReadDropBase(d), s2) && Moves(g, s2, ReadDropLimit(d), t)
    ensures t == s.(drainers := s.drainers[d := Dropping(s.readHead, s.writeHead, [])], lock := Some(d), active := Some(d))
  {
    s1 := Apply(s, LockDrop(d));
    s2 := Apply(s1, ReadDropBase(d));
    t := Apply(s2, ReadDropLimit(d));
    assert s.drainers[d := Dr(s1, d)][d := Dr(s2, d)][d := Dr(t, d)] == s.drainers[d := Dr(t, d)];
  }

  /** FLUSHALL takes the consumer lock and reads both heads, whether or not a batch is out. */
  lemma SoloLockDrop(g: Guards, s0: State, s: State, d: Did) returns (t: State)
    requires Reaches(g, s0, s) && 0 < s.cap == |s.slots| && Dr(s, d).Away? && s.lock.None? && !g.noBatch
    ensures Reaches(g, s0, t)
    ensures t == s.(drainers := s.drainers[d := Dropping(s.readHead, s.writeHead, [])], lock := Some(d), active := Some(d))
  {
    var s1, s2;
    s1, s2, t := SoloLockDropEffect(g, s, d);
    ThreeTo(g, s0, s, LockDrop(d), s1, ReadDropBase(d), s2, ReadDropLimit(d), t);
  }

  lemma SoloReclaimEffect(g: Guards, s: State, d: Did) returns (s1: State, s2: State, t: State)
    requires 0 < s.cap == |s.slots| && Dr(s, d).Away? && s.lock.None? && !g.deadOwner
    requires 0 < s.cap == |s.slots| && At(s, s.writeHead).state == WRITING && s.owner.Some? && !Pr(s, s.owner.value).Stuck?
    ensures Moves(g, s, LockReclaim(d), s1) && Moves(g, s1, ReadReclaim(d), s2) && Moves(g, s2, Reclaim(d), t)
    ensures t == s.(drainers := s.drainers[d := Away], owner := None,
                    slots := Put(s, s.writeHead, At(s, s.writeHead).(state := EMPTY)))
  {
    s1 := Apply(s, LockReclaim(d));
    s2 := Apply(s1, ReadReclaim(d));
    assert At(s2, s.writeHead) == At(s, s.writeHead);
    t := Apply(s2, Reclaim(d));
    assert s.drainers[d := Dr(s1, d)][d := Dr(s2, d)][d := Dr(t, d)] == s.drainers[d := Dr(t, d)];
  }

  /** The reclaim pass empties the slot at write_head although its call is alive. */
  lemma SoloReclaim(g: Guards, s0: State, s: State, d: Did) returns (t: State)
    requires Reaches(g, s0, s) && 0 < s.cap == |s.slots| && Dr(s, d).Away? && s.lock.None? && !g.deadOwner
    requires 0 < s.cap == |s.slots| && At(s, s.writeHead).state == WRITING && s.owner.Some? && !Pr(s, s.owner.value).Stuck?
    ensures Reaches(g, s0, t)
    ensures t == s.(drainers := s.drainers[d := Away], owner := None,
                    slots := Put(s, s.writeHead, At(s, s.writeHead).(state := EMPTY)))
  {
    var s1, s2;
    s1, s2, t := SoloReclaimEffect(g, s, d);
    ThreeTo(g, s0, s, LockReclaim(d), s1, ReadReclaim(d), s2, Reclaim(d), t);
  }

  lemma SoloDropEffect(g: Guards, s: State, d: Did) returns (s1: State, t: State)
    requires 0 < s.cap == |s.slots| && Dr(s, d) == Dropping(s.readHead, s.writeHead, [])
    requires 0 < s.cap == |s.slots| && s.writeHead == s.readHead + 1 && At(s, s.readHead).state == DRAINING
    ensures Moves(g, s, DropOne(d), s1) && Moves(g, s1, EndDrop(d), t)
    ensures t == s.(drainers := s.drainers[d := Away], active := None, lock := None, readHead := s.writeHead,
                    slots := Put(s, s.readHead, Slot(EMPTY, At(s, s.readHead).ev.(spill := 0))),
                    payloads := Forget(s.payloads, At(s, s.readHead).ev.spill),
                    retired := s.retired + [Dropped([At(s, s.readHead).ev])])
  {
    s1 := Apply(s, DropOne(d));
    assert Dr(s1, d).gone == [At(s, s.readHead).ev];
    t := Apply(s1, EndDrop(d));
    assert s.drainers[d := Dr(s1, d)][d := Away] == s.drainers[d := Away];
  }

  /** The drop takes the only pending slot, DRAINING or not. */
  lemma SoloDrop(g: Guards, s0: State, s: State, d: Did) returns (t: State)
    requires Reaches(g, s0, s) && 0 < s.cap == |s.slots| && Dr(s, d) == Dropping(s.readHead, s.writeHead, [])
    requires 0 < s.cap == |s.slots| && s.writeHead == s.readHead + 1 && At(s, s.readHead).state == DRAINING
    ensures Reaches(g, s0, t)
    ensures t == s.(drainers := s.drainers[d := Away], active := None, lock := None, readHead := s.writeHead,
                    slots := Put(s, s.readHead, Slot(EMPTY, At(s, s.readHead).ev.(spill := 0))),
                    payloads := Forget(s.payloads, At(s, s.readHead).ev.spill),
                    retired := s.retired + [Dropped([At(s, s.readHead).ev])])
  {
    var s1;
    s1, t := SoloDropEffect(g, s, d);
    var u := StepTo(g, s0, s, DropOne(d));
    u := StepTo(g, s0, u, EndDrop(d));
  }

  /** A call that has reserved `w` runs to its end. */
  lemma ThenFinish(g: Guards, s0: State, s: State, p: Pid) returns (t: State)
    requires Reaches(g, s0, s) && 0 < s.cap == |s.slots| && Pr(s, p).Reserved? && At(s, Pr(s, p).w).state == WRITING
    ensures Reaches(g, s0, t)
    ensures var ev, w := Pr(s, p).ev, Pr(s, p).w;
            var u := s.(producers := s.producers[p := Idle], slots := Put(s, w, Slot(READY, ev)),
                        payloads := Hand(s.payloads, ev.spill, InSlot(w)));
            t == if s.writeHead == w then u.(writeHead := w + 1, log := s.log + [ev], owner := None) else u
  {
    SoloFinish(g, s, p);
    Then(g, s0, s, [Fill(p), Publish(p), Advance(p)]);
    t := After(g, s, [Fill(p), Publish(p), Advance(p)]);
  }

  function Fresh(cap: nat): State {
    State(cap, seq(cap, _ => Slot(EMPTY, Event([], 0))), 0, 0, None, map[], map[], [], [], None, None, map[])
  }

  const A: Pid := 1
  const B: Pid := 2
  const BGW: Did := 1
  const OTHER: Did := 2
  const EV_A := Event([65], 0)
  const EV_B := Event([66], 0)

  /** A publishes the first event of a fresh ring. */
  lemma FirstPublish(g: Guards, s0: State, s: State, p: Pid) returns (t: State)
    requires Reaches(g, s0, s) && 0 < s.cap == |s.slots| && Pr(s, p).Trying?
    requires s.readHead <= s.writeHead < s.readHead + s.cap && At(s, s.writeHead).state == EMPTY
    ensures Reaches(g, s0, t)
    ensures t == s.(producers := s.producers[p := Idle], slots := Put(s, s.writeHead, Slot(READY, Pr(s, p).ev)),
                    writeHead := s.writeHead + 1, log := s.log + [Pr(s, p).ev], owner := None,
                    payloads := Hand(s.payloads, Pr(s, p).ev.spill, InSlot(s.writeHead)))
  {
    var ev, w := Pr(s, p).ev, s.writeHead;
    var s1 := SoloReserve(g, s0, s, p);
    PutFrame(s, w, At(s1, w), s1);
    t := ThenFinish(g, s0, s1, p);
    assert s.producers[p := Reserved(ev, w)][p := Idle] == s.producers[p := Idle];
    assert Put(s1, w, Slot(READY, ev)) == Put(s, w, Slot(READY, ev));
  }

  /** A drainer takes the only pending event. */
  lemma FirstCollect(g: Guards, s0: State, s: State, d: Did) returns (t: State)
    requires Reaches(g, s0, s) && 0 < s.cap == |s.slots| && Dr(s, d).Away? && s.lock.None?
    requires s.readHead < s.writeHead && At(s, s.readHead).state == READY
    ensures Reaches(g, s0, t)
    ensures t == s.(drainers := s.drainers[d := Executed(s.readHead, [At(s, s.readHead).ev])], active := Some(d),
                    slots := Put(s, s.readHead, At(s, s.readHead).(state := DRAINING)))
  {
    var s1 := SoloLock(g, s0, s, d);
    assert At(s1, s.readHead) == At(s, s.readHead);
    t := SoloCollect(g, s0, s1, d);
    assert s.drainers[d := Dr(s1, d)][d := Dr(t, d)] == s.drainers[d := Dr(t, d)];
  }

  /** The first event of a fresh ring of `cap` slots has been published by `p` and collected by the worker. */
  lemma FirstBatch(g: Guards, s0: State, s: State, p: Pid, ev: Event) returns (t: State)
    requires Reaches(g, s0, s) && 0 < s.cap == |s.slots| && Pr(s, p) == Trying(ev) && ev.spill == 0
    requires s.readHead == s.writeHead == 0 && s.slots[0].state == EMPTY && s.lock.None? && s.drainers == map[] && s.log == []
    ensures Reaches(g, s0, t) && t.cap == s.cap == |t.slots|
    ensures t.producers == s.producers[p := Idle] && t.drainers == map[BGW := Executed(0, [ev])] && t.log == [ev]
    ensures t.readHead == 0 && t.writeHead == 1 && t.lock.None? && t.slots[0] == Slot(DRAINING, ev)
    ensures t.retired == s.retired && t.payloads == s.payloads
  {
    var s1 := FirstPublish(g, s0, s, p);
    assert At(s1, 0) == Slot(READY, ev);
    t := FirstCollect(g, s0, s1, BGW);
  }

  /** Both calls reported success and nothing is pending, but A's event was never published. */
  ghost predicate EventLost(s: State) {
    && Pr(s, A).Idle? && Pr(s, B).Idle?
    && s.log == [EV_B] && s.readHead == s.writeHead == 1
  }

  /** Calls A and B have built their events and are about to publish them. */
  lemma BothBegun(g: Guards, s0: State) returns (s: State)
    requires Init(s0)
    ensures Reaches(g, s0, s) && s == s0.(producers := map[A := Trying(EV_A), B := Trying(EV_B)])
  {
    assert Legal(g, s0, []) && After(g, s0, []) == s0;
    var s1 := StepTo(g, s0, s0, Begin(A, EV_A));
    s := StepTo(g, s0, s1, Begin(B, EV_B));
  }

  lemma ReadHeadsEffect(g: Guards, s: State, p: Pid) returns (s1: State, t: State)
    requires 0 < s.cap == |s.slots| && Pr(s, p).Trying? && s.readHead == s.writeHead
    ensures Moves(g, s, ReadWrite(p), s1) && Moves(g, s1, ReadRead(p), t)
    ensures t == s.(producers := s.producers[p := SawBoth(Pr(s, p).ev, s.writeHead)])
  {
    s1 := Apply(s, ReadWrite(p));
    t := Apply(s1, ReadRead(p));
    assert s.producers[p := Pr(s1, p)][p := Pr(t, p)] == s.producers[p := Pr(t, p)];
  }

  lemma StaleStart(g: Guards, s0: State) returns (s: State)
    requires Init(s0) && s0.cap == 2
    ensures Reaches(g, s0, s) && s == s0.(producers := map[A := SawBoth(EV_A, 0), B := Trying(EV_B)])
  {
    var s1 := BothBegun(g, s0);
    var s2, s3 := ReadHeadsEffect(g, s1, A);
    var t := StepTo(g, s0, s1, ReadWrite(A));
    s := StepTo(g, s0, t, ReadRead(A));
  }

  /** A call reads write_head, sleeps while its slot goes round once, then reserves the stale position. */
  lemma StaleHeadLosesEvent()
    ensures exists s0, s :: Init(s0) && Reaches(Guards(false, true, true), s0, s) && EventLost(s)
  {
    var g, s0 := Guards(false, true, true), Fresh(2);
    var s1 := StaleStart(g, s0);
    var s2 := FirstBatch(g, s0, s1, B, EV_B);
    StaleFinish(g, s0, s2);
    var t :| Reaches(g, s0, t) && EventLost(t);
  }

  /** The worker releases B's event; A wakes up, reserves the stale position and runs to its end. */
  lemma StaleFinish(g: Guards, s0: State, s: State)
    requires !g.freshHead && Reaches(g, s0, s) && s.cap == |s.slots| == 2 && s.lock.None? && s.writeHead == 1
    requires Pr(s, A) == SawBoth(EV_A, 0) && Pr(s, B).Idle? && Dr(s, BGW) == Executed(0, [EV_B]) && s.log == [EV_B]
    ensures exists t :: Reaches(g, s0, t) && EventLost(t)
  {
    var s3 := SoloRelease(g, s0, s, BGW);
    assert Pr(s3, A) == SawBoth(EV_A, 0) && At(s3, 0).state == EMPTY;
    var s4 := StepTo(g, s0, s3, Reserve(A));
    var s5 := ThenFinish(g, s0, s4, A);
    assert EventLost(s5);
  }

  /** A's event was published, but the drainer executed B's event in its place, which B will publish again. */
  ghost predicate EventReplaced(s: State) {
    s.log == [EV_A] && Dr(s, BGW) == Executed(0, [EV_B]) && Pr(s, B) == Written(EV_B, 0)
  }

  /** The slot of a slow call A is reclaimed under it and reserved again by B. */
  lemma ReclaimedUnderA(g: Guards, s0: State) returns (s: State)
    requires !g.deadOwner && Init(s0) && s0.cap == 2
    ensures Reaches(g, s0, s) && s.cap == |s.slots| == 2 && s.slots[0].state == WRITING
    ensures Pr(s, A) == Reserved(EV_A, 0) && Pr(s, B) == Reserved(EV_B, 0) && s.payloads == map[]
    ensures s.readHead == s.writeHead == 0 && s.lock.None? && Dr(s, BGW).Away? && s.log == []
  {
    var s1 := BothBegun(g, s0);
    var s2 := SoloReserve(g, s0, s1, A);
    var s3 := SoloReclaim(g, s0, s2, BGW);
    assert Pr(s3, A) == Reserved(EV_A, 0) && At(s3, 0).state == EMPTY;
    s := SoloReserve(g, s0, s3, B);
  }

  /** The reclaim pass empties the slot of a call that is merely slow. */
  lemma LiveReclaimReplacesEvent()
    ensures exists s0, s :: Init(s0) && Reaches(Guards(true, false, true), s0, s) && EventReplaced(s)
  {
    var g, s0 := Guards(true, false, true), Fresh(2);
    var s1 := ReclaimedUnderA(g, s0);
    var s2 := ThenFinish(g, s0, s1, A);
    var s3 := StepTo(g, s0, s2, Fill(B));
    assert At(s3, 0) == Slot(READY, EV_B) && s3.log == [EV_A];
    var s4 := FirstCollect(g, s0, s3, BGW);
    assert EventReplaced(s4);
  }

  /** read_head points at an emptied slot: B's published event is gone and no drain can pass its position. */
  ghost predicate RingStranded(s: State) {
    && s.log == [EV_A, EV_B] && s.readHead == 1 && s.writeHead == 2
    && 0 < s.cap == |s.slots| && At(s, 1).state == EMPTY
    && s.retired == [Dropped([EV_A]), Released([EV_A])]
  }

  /** A drop empties the slot of the batch that the worker is executing, and B's event takes its place. */
  lemma DroppedUnderBatch(g: Guards, s0: State) returns (s: State)
    requires !g.noBatch && Init(s0) && s0.cap == 1
    ensures Reaches(g, s0, s) && s.cap == |s.slots| == 1 && s.slots[0] == Slot(EMPTY, EV_A)
    ensures Pr(s, B) == Trying(EV_B) && Dr(s, BGW) == Executed(0, [EV_A]) && s.payloads == map[]
    ensures s.readHead == s.writeHead == 1 && s.lock.None? && s.log == [EV_A] && s.retired == [Dropped([EV_A])]
  {
    var s1 := BothBegun(g, s0);
    s1 := FirstBatch(g, s0, s1, A, EV_A);
    var s2 := SoloLockDrop(g, s0, s1, OTHER);
    s := SoloDrop(g, s0, s2, OTHER);
  }

  /** FLUSHALL drops the slots of a batch that is still being executed. */
  lemma DropUnderBatchStrandsRing()
    ensures exists s0, s :: Init(s0) && Reaches(Guards(true, true, false), s0, s) && RingStranded(s)
  {
    var g, s0 := Guards(true, true, false), Fresh(1);
    var s1 := DroppedUnderBatch(g, s0);
    var s2 := FirstPublish(g, s0, s1, B);
    var s3 := SoloRelease(g, s0, s2, BGW);
    assert RingStranded(s3);
  }
}
