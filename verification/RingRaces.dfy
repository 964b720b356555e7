/**
 What two of the unenforced facts decide, for every reachable state and every
 interleaving: a drop under a batch, and a reclaim under a live producer
 (src/dirty_ring.c:201-241, 426-486).
 */
module RingRaces {
  import opened Base
  import opened DirtyRing
  import opened RingSafety

  // ----- Dropping pending events while a batch is out -----

  /** A drainer outside every consumer-lock section. */
  predicate Parked(x: Drainer) {
    x.Away? || x.Executing? || x.Executed? || x.Raised?
  }

  /** The drop of `d` is under way over the batch that `e` collected from `base`. */
  ghost predicate DropsUnder(s: State, d: Did, e: Did, base: nat, buf: seq<Event>) {
    && 0 < s.cap == |s.slots| && d != e && s.lock == Some(d)
    && s.readHead == base < s.writeHead
    && (forall x :: x != d ==> Parked(Dr(s, x)))
    && !Dr(s, e).Away? && Dr(s, e).base == base && Dr(s, e).buf == buf
    && match Dr(s, d)
       case DropLocked => At(s, base).state == DRAINING
       case DropGotBase(r) => r == base && At(s, base).state == DRAINING
       case Dropping(r, w, gone) => r == base < w && (gone == [] ==> At(s, base).state == DRAINING)
       case _ => false
  }

  /** A publishing call never touches a slot that is being drained. */
  lemma DrainingStays(s: State, step: Step, pos: nat)
    requires 0 < s.cap == |s.slots| && Enabled(NO_GUARDS, s, step) && IsPublisher(step) && At(s, pos).state == DRAINING
    ensures At(Apply(s, step), pos).state == DRAINING && s.writeHead <= Apply(s, step).writeHead
  {
  }

  lemma DropStep(s: State, step: Step, d: Did, e: Did, base: nat, buf: seq<Event>)
    requires DropsUnder(s, d, e, base, buf) && Enabled(NO_GUARDS, s, step) && step != EndDrop(d)
    ensures DropsUnder(Apply(s, step), d, e, base, buf)
  {
    var s' := Apply(s, step);
    if IsPublisher(step) {
      PublisherFrame(s, step);
      assert forall x :: Dr(s', x) == Dr(s, x);
      if At(s, base).state == DRAINING {
        DrainingStays(s, step, base);
      }
      PublisherHeads(s, step);
    } else if step.d != d {
      assert Parked(Dr(s, step.d));
      assert step.Execute?;
      assert forall x :: x != step.d ==> Dr(s', x) == Dr(s, x);
    } else {
      assert step.ReadDropBase? || step.ReadDropLimit? || step.DropOne?;
      assert forall x :: x != d ==> Dr(s', x) == Dr(s, x);
    }
  }

  lemma PublisherHeads(s: State, step: Step)
    requires 0 < s.cap == |s.slots| && Enabled(NO_GUARDS, s, step) && IsPublisher(step)
    ensures s.writeHead <= Apply(s, step).writeHead
  {
  }

  lemma {:induction false} DropRun(s: State, steps: seq<Step>, d: Did, e: Did, base: nat, buf: seq<Event>)
    requires DropsUnder(s, d, e, base, buf) && Legal(NO_GUARDS, s, steps) && EndDrop(d) !in steps
    ensures DropsUnder(After(NO_GUARDS, s, steps), d, e, base, buf)
    decreases |steps|
  {
    if steps != [] {
      DropStep(s, steps[0], d, e, base, buf);
      DropRun(Apply(s, steps[0]), steps[1..], d, e, base, buf);
    }
  }

  lemma DropBegins(s: State, d: Did, e: Did)
    requires Inv(s) && Enabled(NO_GUARDS, s, LockDrop(d)) && Outstanding(Dr(s, e)) != []
    ensures DropsUnder(Apply(s, LockDrop(d)), d, e, s.readHead, Outstanding(Dr(s, e)))
  {
    var s' := Apply(s, LockDrop(d));
    forall x | x != d
      ensures Parked(Dr(s', x))
    {
      assert DrainerOk(s, x);
    }
    assert DrainerOk(s, e) && DrainerOk(s, d);
    assert At(s, s.readHead).state == Expected(ActiveDrainer(s), s.readHead - s.readHead);
    assert At(s', s.readHead) == At(s, s.readHead);
  }

  lemma DropEnds(s: State, d: Did, e: Did, base: nat, buf: seq<Event>)
    requires DropsUnder(s, d, e, base, buf) && buf != [] && Enabled(NO_GUARDS, s, EndDrop(d))
    ensures var t := Apply(s, EndDrop(d)); Outstanding(Dr(t, e)) == buf && Dr(t, e).base == base < t.readHead
  {
  }

  /** Whatever happens in between, a finished drop has moved read_head past the base of the batch that was out. */
  lemma DropPassesBatch(s: State, steps: seq<Step>, d: Did, e: Did)
    requires Inv(s) && Enabled(NO_GUARDS, s, LockDrop(d)) && Outstanding(Dr(s, e)) != []
    requires Legal(NO_GUARDS, Apply(s, LockDrop(d)), steps) && EndDrop(d) !in steps
    requires Enabled(NO_GUARDS, After(NO_GUARDS, Apply(s, LockDrop(d)), steps), EndDrop(d))
    ensures var t := Apply(After(NO_GUARDS, Apply(s, LockDrop(d)), steps), EndDrop(d));
            Outstanding(Dr(t, e)) == Outstanding(Dr(s, e)) && Dr(t, e).base < t.readHead
  {
    DropBegins(s, d, e);
    DropRun(Apply(s, LockDrop(d)), steps, d, e, s.readHead, Outstanding(Dr(s, e)));
    DropEnds(After(NO_GUARDS, Apply(s, LockDrop(d)), steps), d, e, s.readHead, Outstanding(Dr(s, e)));
  }

  lemma {:induction false} Unguarded(s: State, steps: seq<Step>)
    requires 0 < s.cap == |s.slots| && Legal(ALL_GUARDS, s, steps)
    ensures Legal(NO_GUARDS, s, steps) && After(NO_GUARDS, s, steps) == After(ALL_GUARDS, s, steps)
    decreases |steps|
  {
    if steps != [] {
      Unguarded(Apply(s, steps[0]), steps[1..]);
    }
  }

  lemma NoBatchNoActive(s: State)
    requires CoreOk(s) && s.lock.None? && forall e :: Outstanding(Dr(s, e)) == []
    ensures s.active.None?
  {
    assert s.active.Some? ==> DrainerOk(s, s.active.value);
  }

  /** The assertion at the head of release_batch, for everyone who may still release or abort. */
  ghost predicate BasesHold(s: State) {
    forall e :: Outstanding(Dr(s, e)) != [] ==> Dr(s, e).base == s.readHead
  }

  /**
   Take any reachable state, begin a drop there, and let everyone go on until it
   ends. Every batch still outstanding then meets read_head == base if and only
   if no batch was out when the drop took the lock.
   */
  lemma DropSparesBatchesIff(s: State, steps: seq<Step>, d: Did)
    requires Inv(s) && Dr(s, d).Away? && s.lock.None?
    requires Legal(ALL_GUARDS, Apply(s, LockDrop(d)), steps) && EndDrop(d) !in steps
    requires Enabled(ALL_GUARDS, After(ALL_GUARDS, Apply(s, LockDrop(d)), steps), EndDrop(d))
    ensures BasesHold(Apply(After(ALL_GUARDS, Apply(s, LockDrop(d)), steps), EndDrop(d)))
      <==> forall e :: Outstanding(Dr(s, e)) == []
  {
    var s1 := Apply(s, LockDrop(d));
    var s2 := After(ALL_GUARDS, s1, steps);
    if e :| Outstanding(Dr(s, e)) != [] {
      Unguarded(s1, steps);
      DropPassesBatch(s, steps, d, e);
    } else {
      NoBatchNoActive(s);
      StepInv(s, LockDrop(d));
      RunInv(s1, steps);
      StepInv(s2, EndDrop(d));
      var t := Apply(s2, EndDrop(d));
      forall e | Outstanding(Dr(t, e)) != []
        ensures Dr(t, e).base == t.readHead
      {
        OneBatch(t, e, e);
      }
    }
  }

  // ----- Reclaiming the slot of a live producer -----

  /** The ring as if call `p`, which still thinks it owns a slot, had already been told to retry. */
  function Hide(s: State, p: Pid, ev: Event): State {
    s.(producers := s.producers[p := Full(ev)])
  }

  ghost predicate ByCall(step: Step, p: Pid) {
    IsPublisher(step) && step.p == p
  }

  lemma HideCall(s: State, step: Step, p: Pid, ev: Event)
    requires 0 < s.cap == |s.slots| && IsPublisher(step) && step.p != p && Enabled(ALL_GUARDS, s, step)
    ensures Enabled(ALL_GUARDS, Hide(s, p, ev), step)
    ensures Apply(Hide(s, p, ev), step) == Hide(Apply(s, step), p, ev) && Pr(Apply(s, step), p) == Pr(s, p)
  {
    var s', q := Apply(s, step), step.p;
    assert s'.producers == s.producers[q := Pr(s', q)];
    assert s.producers[q := Pr(s', q)][p := Full(ev)] == s.producers[p := Full(ev)][q := Pr(s', q)];
  }

  lemma HideReclaim(s: State, d: Did, p: Pid, ev: Event)
    requires 0 < s.cap == |s.slots| && Enabled(ALL_GUARDS, s, Reclaim(d)) && s.owner != Some(p)
    ensures Enabled(ALL_GUARDS, Hide(s, p, ev), Reclaim(d))
    ensures Apply(Hide(s, p, ev), Reclaim(d)) == Hide(Apply(s, Reclaim(d)), p, ev) && Pr(Apply(s, Reclaim(d)), p) == Pr(s, p)
  {
    var q := s.owner.value;
    assert s.producers[q := Idle][p := Full(ev)] == s.producers[p := Full(ev)][q := Idle];
  }

  ghost predicate IsCollect(step: Step) {
    step.Lock? || step.ReadBase? || step.ReadLimit? || step.CollectOne? || step.EndCollect? || step.Execute? || step.BeginRelease?
  }

  lemma HideCollect(s: State, step: Step, p: Pid, ev: Event)
    requires 0 < s.cap == |s.slots| && IsCollect(step) && Enabled(ALL_GUARDS, s, step)
    ensures Enabled(ALL_GUARDS, Hide(s, p, ev), step)
    ensures Apply(Hide(s, p, ev), step) == Hide(Apply(s, step), p, ev) && Pr(Apply(s, step), p) == Pr(s, p)
  {
  }

  lemma HideDrainer(s: State, step: Step, p: Pid, ev: Event)
    requires 0 < s.cap == |s.slots| && !IsPublisher(step) && !IsCollect(step) && !step.Reclaim? && Enabled(ALL_GUARDS, s, step)
    ensures Enabled(ALL_GUARDS, Hide(s, p, ev), step)
    ensures Apply(Hide(s, p, ev), step) == Hide(Apply(s, step), p, ev) && Pr(Apply(s, step), p) == Pr(s, p)
  {
  }

  lemma HideStep(s: State, step: Step, p: Pid, ev: Event)
    requires 0 < s.cap == |s.slots| && Enabled(ALL_GUARDS, s, step) && !ByCall(step, p) && s.owner != Some(p)
    ensures Enabled(ALL_GUARDS, Hide(s, p, ev), step)
    ensures Apply(Hide(s, p, ev), step) == Hide(Apply(s, step), p, ev) && Pr(Apply(s, step), p) == Pr(s, p)
  {
    if IsPublisher(step) {
      HideCall(s, step, p, ev);
    } else if step.Reclaim? {
      HideReclaim(s, step.d, p, ev);
    } else if IsCollect(step) {
      HideCollect(s, step, p, ev);
    } else {
      HideDrainer(s, step, p, ev);
    }
  }

  lemma HiddenIsNoOwner(s: State, p: Pid, ev: Event)
    requires CoreOk(Hide(s, p, ev))
    ensures s.owner != Some(p)
  {
  }

  lemma HideStepInv(s: State, step: Step, p: Pid, ev: Event)
    requires Inv(Hide(s, p, ev)) && Enabled(ALL_GUARDS, s, step) && !ByCall(step, p)
    ensures Inv(Hide(Apply(s, step), p, ev)) && Pr(Apply(s, step), p) == Pr(s, p)
  {
    HiddenIsNoOwner(s, p, ev);
    HideStep(s, step, p, ev);
    StepInv(Hide(s, p, ev), step);
  }

  /** Steps of the others cannot tell the difference. */
  lemma {:induction false} HideRun(s: State, steps: seq<Step>, p: Pid, ev: Event)
    requires Inv(Hide(s, p, ev)) && Legal(ALL_GUARDS, s, steps)
    requires forall i :: 0 <= i < |steps| ==> !ByCall(steps[i], p)
    ensures var t := After(ALL_GUARDS, s, steps); Inv(Hide(t, p, ev)) && Pr(t, p) == Pr(s, p)
    decreases |steps|
  {
    if steps != [] {
      HideStepInv(s, steps[0], p, ev);
      HideRun(Apply(s, steps[0]), steps[1..], p, ev);
    }
  }

  /** After the reclaim under a live owner, everything but the owner's own belief is in order. */
  lemma ReclaimHides(s: State, d: Did)
    requires Inv(s) && Dr(s, d).Reclaiming? && At(s, Dr(s, d).w).state == WRITING
    requires s.owner.Some? && (Pr(s, s.owner.value).Reserved? || Pr(s, s.owner.value).Written?)
    ensures Dr(s, d).w == s.writeHead == Pr(s, s.owner.value).w
    ensures Inv(Hide(Apply(s, Reclaim(d)), s.owner.value, Pr(s, s.owner.value).ev))
    ensures Pr(Apply(s, Reclaim(d)), s.owner.value) == Pr(s, s.owner.value)
  {
    var p := s.owner.value;
    var ev, w := Pr(s, p).ev, Dr(s, d).w;
    WritingIsHead(s, w, d);
    assert ProducerOk(s, p) && DrainerOk(s, d);
    var s1 := Apply(s, Reclaim(d));
    var h := Hide(s1, p, ev);
    var t := s.(producers := s.producers[p := Full(ev)], slots := s1.slots, owner := None);
    PutFrame(s, w, At(t, w), t);
    HeadSlotFrame(s, t, p);
    assert DrainerOk(t, d);
    DrainFrame(t, h, d);
    RobbedPayloads(s, h, p);
  }

  lemma RobbedPayloads(s: State, h: State, p: Pid)
    requires Inv(s) && CoreOk(h) && s.writeHead < s.readHead + s.cap && h.payloads == s.payloads
    requires h.cap == s.cap && h.readHead == s.readHead && h.writeHead == s.writeHead
    requires h.slots == Put(s, s.writeHead, At(h, s.writeHead))
    requires At(s, s.writeHead).state == WRITING && At(h, s.writeHead).state == EMPTY
    requires CallerHolds(Pr(s, p)) && h.producers == s.producers[p := Full(Pr(s, p).ev)]
    ensures PayloadsOk(h)
  {
    HeadSlotPrivate(s, h);
    assert forall r :: r != p ==> Pr(h, r) == Pr(s, r);
    SameHolders(s, h);
  }

  /** The only WRITING slot is the one at write_head. */
  lemma WritingIsHead(s: State, w: nat, d: Did)
    requires CoreOk(s) && DrainerOk(s, d) && Dr(s, d) == Reclaiming(w) && At(s, w).state == WRITING
    ensures w == s.writeHead < s.readHead + s.cap
  {
    WritingIsReserved(s, w);
    if w < s.writeHead {
      IdxDistinct(w, s.writeHead, s.cap);
    }
  }

  /** Every position has a counterpart in the current lap. */
  lemma {:induction false} LapPosition(w: nat, r: nat, cap: nat) returns (pos: nat)
    requires 0 < cap
    ensures r <= pos < r + cap && Idx(pos, cap) == Idx(w, cap)
    decreases if w < r then r - w else w - r
  {
    if w < r {
      pos := LapUp(w, r, cap);
    } else if r + cap <= w {
      pos := LapPosition(w - cap, r, cap);
    } else {
      pos := w;
    }
  }

  lemma {:induction false} LapUp(w: nat, r: nat, cap: nat) returns (pos: nat)
    requires 0 < cap && w < r
    ensures r <= pos < r + cap && Idx(pos, cap) == Idx(w, cap)
    decreases r - w
  {
    if r <= w + cap {
      pos := w + cap;
    } else {
      pos := LapUp(w + cap, r, cap);
    }
  }

  /** A slot is WRITING exactly when it is the one at write_head and its owner has not flagged it. */
  lemma WritingIsReserved(s: State, w: nat)
    requires CoreOk(s)
    ensures At(s, w).state == WRITING <==>
      s.owner.Some? && Idx(w, s.cap) == Idx(s.writeHead, s.cap) && !Pr(s, s.owner.value).Flagged?
  {
    var pos := LapPosition(w, s.readHead, s.cap);
    assert At(s, w) == At(s, pos);
    assert pos < s.writeHead ==> At(s, pos).state == Expected(ActiveDrainer(s), pos - s.readHead);
    if s.owner.Some? && pos != s.writeHead {
      IdxDistinct(if pos < s.writeHead then pos else s.writeHead, if pos < s.writeHead then s.writeHead else pos, s.cap);
    }
  }

  /** The slot at `w` is reserved by a call other than the one that was robbed. */
  ghost predicate ReservedAgain(s: State, w: nat)
    requires 0 < s.cap
  {
    s.owner.Some? && Idx(w, s.cap) == Idx(s.writeHead, s.cap) && !Pr(s, s.owner.value).Flagged?
  }

  lemma HiddenAgain(s: State, p: Pid, ev: Event, w: nat)
    requires CoreOk(Hide(s, p, ev))
    ensures At(s, w).state == WRITING <==> ReservedAgain(s, w)
  {
    var h := Hide(s, p, ev);
    HiddenIsNoOwner(s, p, ev);
    WritingIsReserved(h, w);
    assert At(h, w) == At(s, w);
    assert s.owner.Some? ==> Pr(h, s.owner.value) == Pr(s, s.owner.value);
  }

  /** The robbed call is told to retry, and everything is in order, when nobody has reserved the slot again. */
  lemma RobbedRetries(t: State, p: Pid, ev: Event, w: nat)
    requires Inv(Hide(t, p, ev)) && Pr(t, p) == Written(ev, w) && !ReservedAgain(t, w)
    ensures Apply(t, Publish(p)) == Hide(t, p, ev) && Inv(Apply(t, Publish(p)))
  {
    HiddenAgain(t, p, ev, w);
  }

  /** The event is in the history as the last one, and in its slot. */
  ghost predicate Kept(t: State, u: State, w: nat, ev: Event) {
    && 0 < u.cap == |u.slots|
    && u.log == t.log + [ev] && u.writeHead == w + 1 && At(u, w) == Slot(READY, ev)
  }

  /** The robbed call flags the slot that somebody else has reserved, and reports success. */
  function Success(t: State, p: Pid): State
    requires 0 < t.cap == |t.slots| && Pr(t, p).Written? && At(t, Pr(t, p).w).state == WRITING
  {
    Apply(Apply(t, Publish(p)), Advance(p))
  }

  lemma SuccessEffect(t: State, p: Pid, ev: Event, w: nat)
    requires 0 < t.cap == |t.slots| && Pr(t, p) == Written(ev, w) && At(t, w).state == WRITING
    ensures var u := Success(t, p);
            && Pr(u, p).Idle? && (forall r :: r != p ==> Pr(u, r) == Pr(t, r))
            && u.slots == Put(t, w, At(t, w).(state := READY)) && u.cap == t.cap && u.readHead == t.readHead
            && (if w == t.writeHead then u.log == t.log + [ev] && u.writeHead == w + 1 else u.log == t.log && u.writeHead == t.writeHead)
  {
  }

  /**
   It reports success over a slot reserved again. Its event is then in the history
   and in its slot if and only if its position is still the current one and the
   slot still holds what it wrote.
   */
  lemma LateSuccessIff(t: State, p: Pid, ev: Event, w: nat)
    requires Inv(Hide(t, p, ev)) && Pr(t, p) == Written(ev, w) && ReservedAgain(t, w)
    ensures At(t, w).state == WRITING && Pr(Success(t, p), p).Idle?
    ensures Kept(t, Success(t, p), w, ev) <==> w == t.writeHead && At(t, w).ev == ev
    ensures w != t.writeHead ==> Success(t, p).log == t.log
  {
    HiddenAgain(t, p, ev, w);
    SuccessEffect(t, p, ev, w);
  }

  /** FIFO across that success: the window is still the history if and only if the slot holds what the call wrote. */
  lemma LateSuccessFifo(t: State, p: Pid, ev: Event)
    requires Inv(Hide(t, p, ev)) && Pr(t, p) == Written(ev, t.writeHead) && ReservedAgain(t, t.writeHead)
    ensures At(t, t.writeHead).state == WRITING
    ensures var u := Success(t, p); ShapeOk(u) && (WindowOk(u) <==> At(t, t.writeHead).ev == ev)
  {
    var h, w := Hide(t, p, ev), t.writeHead;
    HiddenAgain(t, p, ev, w);
    HiddenIsNoOwner(t, p, ev);
    SuccessEffect(t, p, ev, w);
    var u := Success(t, p);
    assert OwnerOk(h);
    PutFrame(t, w, At(t, w).(state := READY), u);
    assert u.drainers == h.drainers && u.active == h.active;
    if At(t, w).ev == ev {
      LateWindow(h, u);
    } else {
      assert At(u, w).ev != u.log[w];
      assert w < u.writeHead && At(u, w).state != EMPTY;
    }
  }

  lemma LateWindow(h: State, u: State)
    requires CoreOk(h) && ShapeOk(u) && h.writeHead < h.readHead + h.cap && u.cap == h.cap
    requires u.slots == Put(h, h.writeHead, Slot(READY, At(h, h.writeHead).ev)) && u.readHead == h.readHead
    requires u.writeHead == h.writeHead + 1 && u.log == h.log + [At(h, h.writeHead).ev]
    requires u.drainers == h.drainers && u.active == h.active
    ensures WindowOk(u)
  {
    var w := h.writeHead;
    PutFrame(h, w, Slot(READY, At(h, w).ev), u);
    if h.active.Some? {
      assert DrainerOk(h, h.active.value);
    }
    assert Expected(ActiveDrainer(h), w - h.readHead) == READY;
    forall pos: nat | h.readHead <= pos < w
      ensures At(u, pos) == At(h, pos) && At(h, pos).state == Expected(ActiveDrainer(h), pos - h.readHead)
    {
    }
  }

  /**
   What the second owner then does to the slot. One that has filled it already
   left its own event there; one that has not does so now; both are told to retry
   and will publish that event a second time. One that is dead does nothing.
   */
  lemma SecondOwner(t: State, p: Pid, ev: Event, w: nat) returns (v: State)
    requires Inv(Hide(t, p, ev)) && Pr(t, p) == Written(ev, w) && ReservedAgain(t, w)
    ensures At(t, w).state == WRITING
    ensures var q, u := t.owner.value, Success(t, p);
            match Pr(t, q)
            case Written(evq, _) =>
              && At(t, w).ev == evq && Enabled(NO_GUARDS, u, Publish(q)) && v == Apply(u, Publish(q))
              && Pr(v, q) == Full(evq) && (Kept(t, v, w, ev) <==> w == t.writeHead && evq == ev)
            case Reserved(evq, _) =>
              && Enabled(NO_GUARDS, u, Fill(q)) && Enabled(NO_GUARDS, Apply(u, Fill(q)), Publish(q))
              && v == Apply(Apply(u, Fill(q)), Publish(q))
              && Pr(v, q) == Full(evq) && (Kept(t, v, w, ev) <==> w == t.writeHead && evq == ev)
            case Stuck(_, _) =>
              && v == u && (Kept(t, v, w, ev) <==> w == t.writeHead && At(t, w).ev == ev)
              && forall step :: ByCall(step, q) ==> !Enabled(NO_GUARDS, u, step)
            case _ => false
  {
    var q, h := t.owner.value, Hide(t, p, ev);
    HiddenAgain(t, p, ev, w);
    HiddenIsNoOwner(t, p, ev);
    SuccessEffect(t, p, ev, w);
    assert ProducerOk(h, q) && OwnerOk(h) && Pr(h, q) == Pr(t, q);
    assert At(h, t.writeHead) == At(t, t.writeHead) == At(t, w);
    var u := Success(t, p);
    v := u;
    match Pr(t, q)
    case Written(evq, _) => v := Apply(u, Publish(q));
    case Reserved(evq, _) => v := Apply(Apply(u, Fill(q)), Publish(q));
    case Stuck(_, _) =>
    case _ =>
  }

  /**
   A call that had filled its slot is robbed of it by the reclaim pass; the others
   go on in any way until it comes to its compare-and-swap. If the slot has not
   been reserved again, it is told to retry and history, window and payloads are
   in order. If it has, it reports success, and its event is in the history and
   in its slot if and only if its position is current and the slot still holds it.
   */
  lemma ReclaimOutcome(s: State, d: Did, others: seq<Step>)
    requires Inv(s) && Enabled(NO_GUARDS, s, Reclaim(d)) && s.owner.Some? && Pr(s, s.owner.value).Written?
    requires Legal(ALL_GUARDS, Apply(s, Reclaim(d)), others)
    requires forall i :: 0 <= i < |others| ==> !ByCall(others[i], s.owner.value)
    ensures var p, t := s.owner.value, After(ALL_GUARDS, Apply(s, Reclaim(d)), others);
            var ev, w := Pr(s, p).ev, Pr(s, p).w;
            && Pr(t, p) == Pr(s, p) && Inv(Hide(t, p, ev))
            && (!ReservedAgain(t, w) ==> Apply(t, Publish(p)) == Hide(t, p, ev) && Inv(Apply(t, Publish(p))))
            && (ReservedAgain(t, w) ==>
                  && At(t, w).state == WRITING && Pr(Success(t, p), p).Idle?
                  && (Kept(t, Success(t, p), w, ev) <==> w == t.writeHead && At(t, w).ev == ev))
  {
    var p := s.owner.value;
    var ev, w := Pr(s, p).ev, Pr(s, p).w;
    ReclaimHides(s, d);
    HideRun(Apply(s, Reclaim(d)), others, p, ev);
    var t := After(ALL_GUARDS, Apply(s, Reclaim(d)), others);
    if ReservedAgain(t, w) {
      LateSuccessIff(t, p, ev, w);
    } else {
      RobbedRetries(t, p, ev, w);
    }
  }

  /**
   The same for a call robbed before it had filled the slot: the others go on, it
   writes its payload late, the others go on. If that write was harmless (see
   RobbedFillsIff), it comes to its compare-and-swap as if robbed after filling,
   so that LateSuccessIff, LateSuccessFifo and SecondOwner apply.
   */
  lemma RobbedBeforeFilling(s: State, d: Did, before: seq<Step>, others: seq<Step>)
    requires Inv(s) && Enabled(NO_GUARDS, s, Reclaim(d)) && s.owner.Some? && Pr(s, s.owner.value).Reserved?
    requires Legal(ALL_GUARDS, Apply(s, Reclaim(d)), before)
    requires forall i :: 0 <= i < |before| ==> !ByCall(before[i], s.owner.value)
    ensures var p, t := s.owner.value, After(ALL_GUARDS, Apply(s, Reclaim(d)), before);
            var ev, w := Pr(s, p).ev, Pr(s, p).w;
            && Pr(t, p) == Reserved(ev, w)
            && (Inv(Hide(Apply(t, Fill(p)), p, ev)) <==> FillIsHarmless(t, w, ev))
            && (FillIsHarmless(t, w, ev) && Legal(ALL_GUARDS, Apply(t, Fill(p)), others)
                && (forall i :: 0 <= i < |others| ==> !ByCall(others[i], p)) ==>
                  var u := After(ALL_GUARDS, Apply(t, Fill(p)), others);
                  Inv(Hide(u, p, ev)) && Pr(u, p) == Written(ev, w))
  {
    var p := s.owner.value;
    var ev, w := Pr(s, p).ev, Pr(s, p).w;
    ReclaimHides(s, d);
    HideRun(Apply(s, Reclaim(d)), before, p, ev);
    var t := After(ALL_GUARDS, Apply(s, Reclaim(d)), before);
    RobbedFillsIff(t, p, ev, w);
    if FillIsHarmless(t, w, ev) && Legal(ALL_GUARDS, Apply(t, Fill(p)), others)
       && forall i :: 0 <= i < |others| ==> !ByCall(others[i], p) {
      HideRun(Apply(t, Fill(p)), others, p, ev);
    }
  }

  /** Nobody relies on the payload of the slot. */
  ghost predicate FillIsHarmless(t: State, w: nat, ev: Event)
    requires 0 < t.cap == |t.slots|
  {
    At(t, w).state == EMPTY || At(t, w).ev == ev || (ReservedAgain(t, w) && !Pr(t, t.owner.value).Written?)
  }

  /** The slots differ at most in payloads that nobody reads. */
  ghost predicate SameReadable(s: State, t: State)
    requires 0 < s.cap == |s.slots|
  {
    && t == s.(slots := t.slots) && |t.slots| == s.cap
    && (forall pos: nat :: At(t, pos).state == At(s, pos).state)
    && (forall pos: nat :: At(s, pos).state == READY || At(s, pos).state == DRAINING ==> At(t, pos) == At(s, pos))
    && (s.owner.Some? && Pr(s, s.owner.value).Written? ==> At(t, s.writeHead) == At(s, s.writeHead))
  }

  lemma UnreadSlot(s: State, w: nat, ev: Event)
    requires CoreOk(s)
    requires At(s, w).state == EMPTY || (ReservedAgain(s, w) && !Pr(s, s.owner.value).Written?)
    ensures SameReadable(s, s.(slots := Put(s, w, At(s, w).(ev := ev))))
  {
    WritingIsReserved(s, w);
    assert s.owner.Some? && Pr(s, s.owner.value).Written? ==> At(s, s.writeHead).state == WRITING;
  }

  lemma ReadableProducer(s: State, t: State, r: Pid)
    requires ShapeOk(s) && ShapeOk(t) && SameReadable(s, t) && ProducerOk(s, r) && OwnerOk(s)
    ensures ProducerOk(t, r)
  {
  }

  lemma ReadableWindow(s: State, t: State)
    requires ShapeOk(s) && ShapeOk(t) && SameReadable(s, t) && WindowOk(s)
    ensures WindowOk(t)
  {
    forall pos: nat | s.readHead <= pos < s.writeHead
      ensures At(t, pos).state == Expected(ActiveDrainer(t), pos - s.readHead)
      ensures At(t, pos).state != EMPTY ==> At(t, pos).ev == s.log[pos]
    {
      assert At(s, pos).state == Expected(ActiveDrainer(s), pos - s.readHead);
    }
  }

  lemma ReadableCore(s: State, t: State)
    requires CoreOk(s) && SameReadable(s, t)
    ensures CoreOk(t)
  {
    forall r
      ensures ProducerOk(t, r)
    {
      assert ProducerOk(s, r);
      ReadableProducer(s, t, r);
    }
    forall e
      ensures DrainerOk(t, e)
    {
      assert DrainerOk(s, e);
    }
    ReadableWindow(s, t);
  }

  lemma ReadablePayloads(s: State, t: State)
    requires Inv(s) && ShapeOk(t) && SameReadable(s, t)
    ensures PayloadsOk(t)
  {
    assert forall p :: SameCaller(s, t, p);
    assert forall pos: nat :: SameSlot(s, t, pos);
    SameHolders(s, t);
  }

  /** Rewriting the payload of a slot that nobody reads. */
  lemma EvOnly(s: State, w: nat, ev: Event)
    requires Inv(s)
    requires At(s, w).state == EMPTY || (ReservedAgain(s, w) && !Pr(s, s.owner.value).Written?)
    ensures Inv(s.(slots := Put(s, w, At(s, w).(ev := ev))))
  {
    var t := s.(slots := Put(s, w, At(s, w).(ev := ev)));
    UnreadSlot(s, w, ev);
    ReadableCore(s, t);
    ReadablePayloads(s, t);
  }

  lemma EvRead(s: State, w: nat, ev: Event)
    requires CoreOk(s) && At(s, w).state != EMPTY && At(s, w).ev != ev
    requires ReservedAgain(s, w) ==> Pr(s, s.owner.value).Written?
    ensures !CoreOk(s.(slots := Put(s, w, At(s, w).(ev := ev))))
  {
    var t := s.(slots := Put(s, w, At(s, w).(ev := ev)));
    var pos := LapPosition(w, s.readHead, s.cap);
    WritingIsReserved(s, w);
    assert At(s, pos) == At(s, w) && At(t, pos) == At(s, w).(ev := ev);
    if pos < s.writeHead {
      assert At(s, pos).ev == s.log[pos];
      assert ShapeOk(t) && !WindowOk(t);
    } else {
      assert pos == s.writeHead && s.owner.Some?;
      assert ProducerOk(s, s.owner.value);
      assert ShapeOk(t) && !ProducerOk(t, s.owner.value);
    }
  }

  /** A robbed call that had not yet filled its slot does so without harm exactly when nobody relies on what is there. */
  lemma RobbedFillsIff(t: State, p: Pid, ev: Event, w: nat)
    requires Inv(Hide(t, p, ev)) && Pr(t, p) == Reserved(ev, w)
    ensures Inv(Hide(Apply(t, Fill(p)), p, ev)) <==> FillIsHarmless(t, w, ev)
  {
    var h := Hide(t, p, ev);
    var h' := h.(slots := Put(h, w, At(h, w).(ev := ev)));
    HiddenIsNoOwner(t, p, ev);
    assert At(h, w) == At(t, w);
    assert t.producers[p := Written(ev, w)][p := Full(ev)] == t.producers[p := Full(ev)];
    assert Hide(Apply(t, Fill(p)), p, ev) == h';
    assert t.owner.Some? ==> Pr(h, t.owner.value) == Pr(t, t.owner.value);
    if At(t, w).state == EMPTY || (ReservedAgain(t, w) && !Pr(t, t.owner.value).Written?) {
      EvOnly(h, w, ev);
    } else if At(t, w).ev == ev {
      assert h'.slots == h.slots;
    } else {
      EvRead(h, w, ev);
    }
  }
}
