/**
 What a reservation of a stale position does to the ring, in every interleaving
 and under no assumption about the other calls (src/dirty_ring.c:181-241): its
 event never enters the history, and the slot it marks READY is never passed.
 */
module RingStuck {
  import opened Base
  import opened DirtyRing
  import opened RingSafety
  import opened RingRaces

  // ----- write_head and the history move together -----

  lemma {:induction false} HeadsGrow(g: Guards, s: State, steps: seq<Step>)
    requires 0 < s.cap == |s.slots| && Legal(g, s, steps)
    ensures var t := After(g, s, steps); s.writeHead <= t.writeHead && |t.log| - t.writeHead == |s.log| - s.writeHead
    decreases |steps|
  {
    if steps != [] {
      HeadsGrow(g, Apply(s, steps[0]), steps[1..]);
    }
  }

  lemma HistoryStands(g: Guards, s: State, steps: seq<Step>)
    requires 0 < s.cap == |s.slots| && Legal(g, s, steps) && After(g, s, steps).writeHead == s.writeHead
    ensures After(g, s, steps).log == s.log
  {
    HeadsGrow(g, s, steps);
    LogGrows(g, s, steps);
  }

  /**
   Once write_head has passed the position that a call read, whatever happens
   until its last compare-and-swap, that step reports success and publishes
   nothing.
   */
  lemma StaleNeverCounts(g: Guards, s: State, steps: seq<Step>, p: Pid, w: nat)
    requires 0 < s.cap == |s.slots| && w < s.writeHead && Legal(g, s, steps)
    requires Pr(After(g, s, steps), p).Flagged? && Pr(After(g, s, steps), p).w == w
    ensures var t := After(g, s, steps); Pr(Apply(t, Advance(p)), p).Idle? && Apply(t, Advance(p)).log == t.log
  {
    HeadsGrow(g, s, steps);
  }

  // ----- A READY slot that nobody will count -----

  /** Every position that the drainer may still touch lies in [lo, hi). */
  predicate Within(x: Drainer, lo: nat, hi: nat) {
    match x
    case GotBase(_, base) => lo <= base <= hi
    case Collecting(_, base, w, buf) => lo <= base && base + |buf| <= hi && w <= hi
    case Executing(base, buf) => lo <= base && base + |buf| <= hi
    case Executed(base, buf) => lo <= base && base + |buf| <= hi
    case Raised(base, buf) => lo <= base && base + |buf| <= hi
    case Releasing(base, buf, i) => lo <= base && base + |buf| <= hi && i <= |buf|
    case Aborting(base, buf, i) => lo <= base && base + |buf| <= hi && i <= |buf|
    case DropGotBase(base) => lo <= base <= hi
    case Dropping(base, w, gone) => lo <= base && base + |gone| <= hi && w <= hi
    case _ => true
  }

  /** The part that readers of the ring keep: heads below `q`, drainers within the window. */
  ghost predicate Bounded(s: State, lo: nat, q: nat) {
    && 0 < s.cap == |s.slots| && lo <= s.readHead <= s.writeHead <= q < lo + s.cap
    && (forall d :: Within(Dr(s, d), lo, s.writeHead))
    && (forall p :: Pr(s, p).Flagged? ==> Pr(s, p).w != q)
  }

  /** The slot of position `q` is READY, and no call is about to move write_head past it. */
  ghost predicate StuckAt(s: State, lo: nat, q: nat) {
    Bounded(s, lo, q) && At(s, q).state == READY
  }

  /** A publishing call. It may go past any slot but one that is READY or held in WRITING by somebody else. */
  lemma CallBounded(s: State, step: Step, lo: nat, q: nat)
    requires Bounded(s, lo, q) && Enabled(NO_GUARDS, s, step) && IsPublisher(step)
    requires step.Publish? && Pr(s, step.p).w == q ==> At(s, q).state != WRITING
    ensures Bounded(Apply(s, step), lo, q)
  {
    var t := Apply(s, step);
    PublisherFrame(s, step);
    assert forall d :: Dr(t, d) == Dr(s, d);
    assert forall p :: p != step.p ==> Pr(t, p) == Pr(s, p);
    CallMoves(s, step, q);
    forall d
      ensures Within(Dr(t, d), lo, t.writeHead)
    {
      assert Within(Dr(s, d), lo, s.writeHead);
    }
  }

  lemma CallMoves(s: State, step: Step, q: nat)
    requires 0 < s.cap == |s.slots| && s.writeHead <= q && Enabled(NO_GUARDS, s, step) && IsPublisher(step)
    requires Pr(s, step.p).Flagged? ==> Pr(s, step.p).w != q
    requires step.Publish? && Pr(s, step.p).w == q ==> At(s, q).state != WRITING
    ensures var t := Apply(s, step);
            && s.writeHead <= t.writeHead <= q && t.cap == s.cap && |t.slots| == |s.slots|
            && (Pr(t, step.p).Flagged? ==> Pr(t, step.p).w != q)
  {
  }

  /** What a publishing call does to the state of one slot. */
  lemma CallSlot(s: State, step: Step, q: nat)
    requires 0 < s.cap == |s.slots| && Enabled(NO_GUARDS, s, step) && IsPublisher(step)
    ensures At(s, q).state == READY ==> At(Apply(s, step), q).state == READY
    ensures At(s, q).state == WRITING ==>
      At(Apply(s, step), q).state == WRITING || (step.Publish? && Idx(Pr(s, step.p).w, s.cap) == Idx(q, s.cap))
  {
  }

  // ----- Drainers -----

  lemma DrainReads(s: State, step: Step, lo: nat)
    requires IsCollect(step) || step.LockDrop? || step.ReadDropBase? || step.ReadDropLimit?
    requires 0 < s.cap == |s.slots| && Enabled(NO_GUARDS, s, step) && lo <= s.readHead <= s.writeHead
    requires Within(Dr(s, step.d), lo, s.writeHead)
    ensures var t := Apply(s, step);
            t.readHead == s.readHead && t.writeHead == s.writeHead && Within(Dr(t, step.d), lo, t.writeHead)
  {
  }

  lemma DrainHeads(s: State, step: Step, lo: nat)
    requires 0 < s.cap == |s.slots| && Enabled(NO_GUARDS, s, step) && !IsPublisher(step) && lo <= s.readHead <= s.writeHead
    requires Within(Dr(s, step.d), lo, s.writeHead)
    ensures var t := Apply(s, step);
            lo <= t.readHead <= t.writeHead == s.writeHead && Within(Dr(t, step.d), lo, t.writeHead)
  {
    if IsCollect(step) || step.LockDrop? || step.ReadDropBase? || step.ReadDropLimit? {
      DrainReads(s, step, lo);
    }
  }

  /** A drainer touches no other drainer, and of the calls only one that is dead. */
  lemma DrainerOnly(s: State, step: Step)
    requires 0 < s.cap == |s.slots| && Enabled(NO_GUARDS, s, step) && !IsPublisher(step)
    ensures var t := Apply(s, step);
            && t.drainers == s.drainers[step.d := Dr(t, step.d)]
            && forall p :: Pr(t, p) == Pr(s, p) || (Pr(s, p).Stuck? && Pr(t, p).Idle?)
  {
  }

  lemma DrainBounded(s: State, step: Step, lo: nat, q: nat)
    requires Bounded(s, lo, q) && Enabled(NO_GUARDS, s, step) && !IsPublisher(step)
    ensures Bounded(Apply(s, step), lo, q)
  {
    var t := Apply(s, step);
    assert Within(Dr(s, step.d), lo, s.writeHead);
    DrainHeads(s, step, lo);
    DrainerOnly(s, step);
    assert forall d :: d != step.d ==> Dr(t, d) == Dr(s, d);
  }

  /** It rewrites at most one slot: one of the window, or a WRITING one that it reclaims. */
  lemma DrainWrites(s: State, step: Step, lo: nat) returns (pos: nat, x: Slot)
    requires 0 < s.cap == |s.slots| && Enabled(NO_GUARDS, s, step) && !IsPublisher(step) && !step.Reclaim?
    requires Within(Dr(s, step.d), lo, s.writeHead)
    ensures Apply(s, step).slots == s.slots || (lo <= pos < s.writeHead && Apply(s, step).slots == Put(s, pos, x))
  {
    pos, x := s.writeHead, Slot(EMPTY, Event([], 0));
    match step
    case CollectOne(d) =>
      pos := Dr(s, d).base + |Dr(s, d).buf|;
      x := At(s, pos).(state := DRAINING);
    case ReleaseOne(d) =>
      pos := Dr(s, d).base + Dr(s, d).i;
      x := Slot(EMPTY, At(s, pos).ev.(spill := 0));
    case AbortOne(d) =>
      pos := Dr(s, d).base + Dr(s, d).i;
      x := At(s, pos).(state := READY);
    case DropOne(d) =>
      pos := Dr(s, d).base + |Dr(s, d).gone|;
      x := Slot(EMPTY, At(s, pos).ev.(spill := 0));
    case _ =>
  }

  lemma DrainSlot(s: State, step: Step, lo: nat, q: nat)
    requires Bounded(s, lo, q) && Enabled(NO_GUARDS, s, step) && !IsPublisher(step)
    requires !step.Reclaim? || At(s, q).state != WRITING
    ensures At(Apply(s, step), q).state == At(s, q).state
  {
    var t := Apply(s, step);
    if !step.Reclaim? {
      assert Within(Dr(s, step.d), lo, s.writeHead);
      var pos, x := DrainWrites(s, step, lo);
      if t.slots != s.slots {
        IdxDistinct(pos, q, s.cap);
      }
    }
  }

  // ----- In every run -----

  lemma StuckStep(s: State, step: Step, lo: nat, q: nat)
    requires StuckAt(s, lo, q) && Enabled(NO_GUARDS, s, step)
    ensures StuckAt(Apply(s, step), lo, q)
  {
    if IsPublisher(step) {
      CallBounded(s, step, lo, q);
      CallSlot(s, step, q);
    } else {
      DrainBounded(s, step, lo, q);
      DrainSlot(s, step, lo, q);
    }
  }

  /** Whatever the calls and drainers do, further stale reservations included, write_head never passes the slot. */
  lemma {:induction false} StuckForever(g: Guards, s: State, lo: nat, q: nat, steps: seq<Step>)
    requires StuckAt(s, lo, q) && Legal(g, s, steps)
    ensures StuckAt(After(g, s, steps), lo, q)
    decreases |steps|
  {
    if steps != [] {
      StuckStep(s, steps[0], lo, q);
      StuckForever(g, Apply(s, steps[0]), lo, q, steps[1..]);
    }
  }

  /** Once write_head has come to the slot, nothing is ever published again. */
  lemma WedgedForever(g: Guards, s: State, lo: nat, steps: seq<Step>)
    requires StuckAt(s, lo, s.writeHead) && Legal(g, s, steps)
    ensures var t := After(g, s, steps); StuckAt(t, lo, s.writeHead) && t.writeHead == s.writeHead && t.log == s.log
  {
    StuckForever(g, s, lo, s.writeHead, steps);
    HeadsGrow(g, s, steps);
    HistoryStands(g, s, steps);
  }

  // ----- How a stale reservation gets there -----

  /** Past its reservation and before its last two compare-and-swaps. */
  predicate Claims(x: Producer) {
    x.Reserved? || x.Written?
  }

  /** The slot of position `q` is reserved by `p` for another position of the same slot, and by nobody else. */
  ghost predicate Claimed(s: State, lo: nat, q: nat, p: Pid) {
    && Bounded(s, lo, q) && At(s, q).state == WRITING
    && Claims(Pr(s, p)) && Pr(s, p).w != q && Idx(Pr(s, p).w, s.cap) == Idx(q, s.cap)
    && forall r :: r != p && Claims(Pr(s, r)) ==> Idx(Pr(s, r).w, s.cap) != Idx(q, s.cap)
  }

  lemma CallClaims(s: State, step: Step, r: Pid, q: nat)
    requires 0 < s.cap == |s.slots| && Enabled(NO_GUARDS, s, step) && IsPublisher(step) && At(s, q).state == WRITING
    requires Claims(Pr(s, r)) ==> Idx(Pr(s, r).w, s.cap) != Idx(q, s.cap)
    ensures Claims(Pr(Apply(s, step), r)) ==> Idx(Pr(Apply(s, step), r).w, s.cap) != Idx(q, s.cap)
  {
  }

  lemma ClaimedStep(s: State, step: Step, lo: nat, q: nat, p: Pid)
    requires Claimed(s, lo, q, p) && Enabled(NO_GUARDS, s, step) && !step.Reclaim? && step != Publish(p) && step != Raise(p)
    ensures Claimed(Apply(s, step), lo, q, p) && Pr(Apply(s, step), p).w == Pr(s, p).w
  {
    var t := Apply(s, step);
    if IsPublisher(step) {
      assert step.p != p && Claims(Pr(s, step.p)) ==> Idx(Pr(s, step.p).w, s.cap) != Idx(q, s.cap);
      CallBounded(s, step, lo, q);
      CallSlot(s, step, q);
      forall r | r != p
        ensures Claims(Pr(t, r)) ==> Idx(Pr(t, r).w, t.cap) != Idx(q, t.cap)
      {
        CallClaims(s, step, r, q);
      }
    } else {
      DrainBounded(s, step, lo, q);
      DrainSlot(s, step, lo, q);
      DrainerOnly(s, step);
    }
  }

  lemma {:induction false} ClaimedRun(s: State, steps: seq<Step>, lo: nat, q: nat, p: Pid)
    requires Claimed(s, lo, q, p) && Legal(NO_GUARDS, s, steps)
    requires forall i :: 0 <= i < |steps| ==> !steps[i].Reclaim? && steps[i] != Publish(p) && steps[i] != Raise(p)
    ensures var t := After(NO_GUARDS, s, steps); Claimed(t, lo, q, p) && Pr(t, p).w == Pr(s, p).w
    decreases |steps|
  {
    if steps != [] {
      ClaimedStep(s, steps[0], lo, q, p);
      ClaimedRun(Apply(s, steps[0]), steps[1..], lo, q, p);
    }
  }

  lemma ClaimPublished(s: State, lo: nat, q: nat, p: Pid)
    requires Claimed(s, lo, q, p) && Pr(s, p).Written?
    ensures StuckAt(Apply(s, Publish(p)), lo, q) && Pr(Apply(s, Publish(p)), p) == Flagged(Pr(s, p).ev, Pr(s, p).w)
  {
    CallBounded(s, Publish(p), lo, q);
  }

  /** The reservation itself: an EMPTY slot ahead of write_head, taken for a position that is behind it. */
  lemma StaleReserve(s: State, p: Pid, q: nat)
    requires Inv(s) && Pr(s, p).SawBoth? && At(s, Pr(s, p).w).state == EMPTY
    requires s.writeHead <= q < s.readHead + s.cap && Idx(Pr(s, p).w, s.cap) == Idx(q, s.cap) && Pr(s, p).w != q
    ensures Claimed(Apply(s, Reserve(p)), s.readHead, q, p) && Pr(Apply(s, Reserve(p)), p).w == Pr(s, p).w
  {
    var t := Apply(s, Reserve(p));
    assert At(t, q).state == WRITING;
    forall d
      ensures Within(Dr(t, d), s.readHead, t.writeHead)
    {
      assert DrainerOk(s, d);
    }
    forall r | r != p
      ensures Pr(t, r) == Pr(s, r)
      ensures Pr(t, r).Flagged? ==> Pr(t, r).w != q
      ensures Claims(Pr(t, r)) ==> Idx(Pr(t, r).w, t.cap) != Idx(q, t.cap)
    {
      assert ProducerOk(s, r);
      assert At(s, q).state == EMPTY;
    }
  }

  /** Outside every consumer-lock section an EMPTY slot always belongs to a position ahead of write_head. */
  lemma EmptyIsAhead(s: State, w: nat) returns (q: nat)
    requires Inv(s) && s.lock.None? && At(s, w).state == EMPTY
    ensures s.writeHead <= q < s.readHead + s.cap && Idx(w, s.cap) == Idx(q, s.cap)
  {
    q := LapPosition(w, s.readHead, s.cap);
    assert At(s, q) == At(s, w);
    assert s.active.Some? ==> DrainerOk(s, s.active.value);
    assert q < s.writeHead ==> At(s, q).state == Expected(ActiveDrainer(s), q - s.readHead);
  }

  /**
   Take any reachable state, let a call reserve an EMPTY slot for a position that
   write_head has left behind, and let everyone go on. If the call comes to mark
   the slot READY (no reclaim in between), it will report success, its event never
   enters the history, and from then on, in every run, write_head stays at or
   below the slot; when it gets there, the ring stands still for good.
   */
  lemma StaleReservationStops(s: State, p: Pid, q: nat, before: seq<Step>, later: seq<Step>)
    requires Inv(s) && Pr(s, p).SawBoth? && Pr(s, p).w < s.writeHead && At(s, Pr(s, p).w).state == EMPTY
    requires s.writeHead <= q < s.readHead + s.cap && Idx(Pr(s, p).w, s.cap) == Idx(q, s.cap)
    requires Legal(NO_GUARDS, Apply(s, Reserve(p)), before)
    requires forall i :: 0 <= i < |before| ==> !before[i].Reclaim? && before[i] != Publish(p) && before[i] != Raise(p)
    requires Pr(After(NO_GUARDS, Apply(s, Reserve(p)), before), p).Written?
    requires Legal(NO_GUARDS, Apply(After(NO_GUARDS, Apply(s, Reserve(p)), before), Publish(p)), later)
    ensures var t := After(NO_GUARDS, Apply(After(NO_GUARDS, Apply(s, Reserve(p)), before), Publish(p)), later);
            && StuckAt(t, s.readHead, q) && t.writeHead <= q
            && (Pr(t, p).Flagged? && Pr(t, p).w == Pr(s, p).w ==>
                  Pr(Apply(t, Advance(p)), p).Idle? && Apply(t, Advance(p)).log == t.log)
  {
    var s1 := Apply(s, Reserve(p));
    StaleReserve(s, p, q);
    ClaimedRun(s1, before, s.readHead, q, p);
    HeadsGrow(NO_GUARDS, s1, before);
    var s2 := After(NO_GUARDS, s1, before);
    ClaimPublished(s2, s.readHead, q, p);
    var s3 := Apply(s2, Publish(p));
    StuckForever(NO_GUARDS, s3, s.readHead, q, later);
    var t := After(NO_GUARDS, s3, later);
    if Pr(t, p).Flagged? && Pr(t, p).w == Pr(s, p).w {
      StaleNeverCounts(NO_GUARDS, s3, later, p, Pr(s, p).w);
    }
  }
}
