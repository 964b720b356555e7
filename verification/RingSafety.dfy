/** What every reachable state of the dirty ring satisfies, and what follows for whole runs. */
module RingSafety {
  import opened Base
  import opened DirtyRing

  // ----- Position arithmetic -----

  lemma MulGap(d: nat, a: int, b: int)
    requires a < b
    ensures d * a + d <= d * b
  {
    assert d * b == d * a + d * (b - a);
    assert 0 <= d * (b - a - 1);
  }

  lemma RemainderIsUnique(n: nat, d: nat, q: int, r: nat)
    requires 0 < d && n == d * q + r && r < d
    ensures n % d == r
  {
    var q' := n / d;
    assert n == d * q' + n % d;
    if q < q' {
      MulGap(d, q, q');
    }
    if q' < q {
      MulGap(d, q', q);
    }
  }

  lemma {:induction false} IdxIsMod(pos: nat, cap: nat)
    requires 0 < cap
    ensures Idx(pos, cap) == pos % cap
  {
    if pos >= cap {
      IdxIsMod(pos - cap, cap);
      var q, r := (pos - cap) / cap, (pos - cap) % cap;
      RemainderIsUnique(pos, cap, q + 1, r);
    } else {
      RemainderIsUnique(pos, cap, 0, pos);
    }
  }

  lemma {:induction false} IdxDistinct(a: nat, b: nat, cap: nat)
    requires 0 < cap && a < b < a + cap
    ensures Idx(a, cap) != Idx(b, cap)
  {
    if a >= cap {
      IdxDistinct(a - cap, b - cap, cap);
    }
  }

  /** Writing one slot leaves every other position of the same lap alone. */
  lemma PutFrame(s: State, q: nat, x: Slot, s': State)
    requires 0 < s.cap == |s.slots| && s'.cap == s.cap && s'.slots == Put(s, q, x)
    ensures At(s', q) == x
    ensures forall pos: nat :: pos != q && pos < q + s.cap && q < pos + s.cap ==> At(s', pos) == At(s, pos)
  {
    forall pos: nat | pos != q && pos < q + s.cap && q < pos + s.cap
      ensures At(s', pos) == At(s, pos)
    {
      IdxDistinct(if pos < q then pos else q, if pos < q then q else pos, s.cap);
    }
  }

  // ----- The invariant -----

  /** The slot state that the active batch imposes `off` positions after read_head. */
  function Expected(x: Drainer, off: nat): SlotState {
    match x
    case Collecting(_, _, _, buf) => if off < |buf| then DRAINING else READY
    case Executing(_, buf) => if off < |buf| then DRAINING else READY
    case Executed(_, buf) => if off < |buf| then DRAINING else READY
    case Raised(_, buf) => if off < |buf| then DRAINING else READY
    case Releasing(_, buf, i) => if off < i then EMPTY else if off < |buf| then DRAINING else READY
    case Aborting(_, buf, i) => if i <= off < |buf| then DRAINING else READY
    case Dropping(_, _, gone) => if off < |gone| then EMPTY else READY
    case _ => READY
  }

  function ActiveDrainer(s: State): Drainer {
    if s.active.Some? then Dr(s, s.active.value) else Away
  }

  ghost predicate ShapeOk(s: State) {
    && 0 < s.cap == |s.slots|
    && s.readHead <= s.writeHead <= s.readHead + s.cap
    && |s.log| == s.writeHead
  }

  ghost predicate ProducerOk(s: State, p: Pid)
    requires ShapeOk(s)
  {
    match Pr(s, p)
    case SawWrite(_, w) => w <= s.writeHead
    case SawBoth(_, w) => w <= s.writeHead && w < s.readHead + s.cap
    case Reserved(_, w) => s.owner == Some(p) && w == s.writeHead
    case Stuck(_, w) => s.owner == Some(p) && w == s.writeHead
    case Written(ev, w) => s.owner == Some(p) && w == s.writeHead && At(s, w).ev == ev
    case Flagged(ev, w) => s.owner == Some(p) && w == s.writeHead && At(s, w).ev == ev
    case _ => true
  }

  /** The slot at write_head is claimed by at most one publishing call. */
  ghost predicate OwnerOk(s: State)
    requires ShapeOk(s)
  {
    match s.owner
    case None => s.writeHead < s.readHead + s.cap ==> At(s, s.writeHead).state == EMPTY
    case Some(p) =>
      && s.writeHead < s.readHead + s.cap
      && (Pr(s, p).Reserved? || Pr(s, p).Written? || Pr(s, p).Stuck? || Pr(s, p).Flagged?)
      && At(s, s.writeHead).state == if Pr(s, p).Flagged? then READY else WRITING
  }

  ghost predicate WindowOk(s: State)
    requires ShapeOk(s)
  {
    && (forall pos: nat :: s.readHead <= pos < s.writeHead ==>
          At(s, pos).state == Expected(ActiveDrainer(s), pos - s.readHead))
    && (forall pos: nat :: s.readHead <= pos < s.writeHead && At(s, pos).state != EMPTY ==>
          At(s, pos).ev == s.log[pos])
    && (forall pos: nat :: s.writeHead < pos < s.readHead + s.cap ==> At(s, pos).state == EMPTY)
  }

  /** `buf` is the stretch of the history that starts at `base`. */
  ghost predicate Copies(log: seq<Event>, base: nat, buf: seq<Event>) {
    base + |buf| <= |log| && forall i :: 0 <= i < |buf| ==> buf[i] == log[base + i]
  }

  ghost predicate BatchOk(s: State, d: Did, base: nat, buf: seq<Event>)
    requires ShapeOk(s)
  {
    && base == s.readHead && Copies(s.log, base, buf)
    && (buf != [] <==> s.active == Some(d))
  }

  ghost predicate DrainerOk(s: State, d: Did)
    requires ShapeOk(s)
  {
    match Dr(s, d)
    case Away => s.lock != Some(d) && s.active != Some(d)
    case Locked(_) => s.lock == Some(d) && s.active != Some(d)
    case GotBase(_, base) => s.lock == Some(d) && s.active != Some(d) && base == s.readHead
    case Collecting(_, base, w, buf) =>
      s.lock == Some(d) && BatchOk(s, d, base, buf) && base + |buf| <= w <= s.writeHead
    case Executing(base, buf) => s.lock != Some(d) && buf != [] && BatchOk(s, d, base, buf)
    case Executed(base, buf) => s.lock != Some(d) && buf != [] && BatchOk(s, d, base, buf)
    case Raised(base, buf) => s.lock != Some(d) && buf != [] && BatchOk(s, d, base, buf)
    case Releasing(base, buf, i) => s.lock == Some(d) && buf != [] && BatchOk(s, d, base, buf) && i <= |buf|
    case Aborting(base, buf, i) => s.lock == Some(d) && buf != [] && BatchOk(s, d, base, buf) && i <= |buf|
    case ReclaimLocked => s.lock == Some(d) && s.active != Some(d)
    case Reclaiming(w) => s.lock == Some(d) && s.active != Some(d) && s.readHead <= w <= s.writeHead
    case DropLocked => s.lock == Some(d) && s.active.None?
    case DropGotBase(base) => s.lock == Some(d) && s.active.None? && base == s.readHead
    case Dropping(base, w, gone) =>
      && s.lock == Some(d) && s.active == Some(d)
      && base == s.readHead && base + |gone| <= w <= s.writeHead
      && Copies(s.log, base, gone)
  }

  function Flatten(bs: seq<Batch>): seq<Event> {
    if bs == [] then [] else Flatten(bs[..|bs| - 1]) + bs[|bs| - 1].evs
  }

  ghost predicate CallerHolds(x: Producer) {
    x.Trying? || x.SawWrite? || x.SawBoth? || x.Reserved? || x.Written? || x.Full?
  }

  ghost predicate SlotHolds(s: State, pos: nat)
    requires ShapeOk(s)
  {
    && s.readHead <= pos <= s.writeHead && pos < s.readHead + s.cap
    && (At(s, pos).state == READY || At(s, pos).state == DRAINING)
  }

  ghost predicate Recorded(s: State, x: Spill)
    requires ShapeOk(s)
  {
    x in s.payloads ==>
      && x != 0
      && match s.payloads[x]
         case Caller(p) => CallerHolds(Pr(s, p)) && Pr(s, p).ev.spill == x
         case InSlot(pos) => SlotHolds(s, pos) && At(s, pos).ev.spill == x
         case Leaked => true
  }

  ghost predicate CallerRecorded(s: State, p: Pid) {
    CallerHolds(Pr(s, p)) && Pr(s, p).ev.spill != 0 ==>
      var x := Pr(s, p).ev.spill; x in s.payloads && s.payloads[x] == Caller(p)
  }

  ghost predicate SlotRecorded(s: State, pos: nat)
    requires ShapeOk(s)
  {
    SlotHolds(s, pos) && At(s, pos).ev.spill != 0 ==>
      var x := At(s, pos).ev.spill; x in s.payloads && s.payloads[x] == InSlot(pos)
  }

  /** Every live payload has exactly one holder, and every holder's payload is live. */
  ghost predicate PayloadsOk(s: State)
    requires ShapeOk(s)
  {
    && (forall x :: Recorded(s, x))
    && (forall p :: CallerRecorded(s, p))
    && (forall pos: nat :: SlotRecorded(s, pos))
  }

  ghost predicate CoreOk(s: State) {
    && ShapeOk(s)
    && (forall p :: ProducerOk(s, p))
    && OwnerOk(s)
    && WindowOk(s)
    && (forall d :: DrainerOk(s, d))
    && Flatten(s.retired) == s.log[..s.readHead]
  }

  ghost predicate Inv(s: State) {
    CoreOk(s) && PayloadsOk(s)
  }

  lemma InitInv(s: State)
    requires Init(s)
    ensures Inv(s)
  {
    forall pos: nat | pos < s.cap
      ensures At(s, pos).state == EMPTY
    {
    }
  }

  // ----- Frames: what a step may change without breaking the rest -----

  /** A publishing call moves on and touches no slot and no head. */
  lemma CallFrame(s: State, s': State, p: Pid)
    requires CoreOk(s)
    requires s' == s.(producers := s.producers[p := Pr(s', p)], payloads := s'.payloads)
    requires ProducerOk(s', p) && OwnerOk(s')
    ensures CoreOk(s')
  {
    forall r
      ensures ProducerOk(s', r)
    {
      assert ProducerOk(s, r);
    }
    forall d
      ensures DrainerOk(s', d)
    {
      assert DrainerOk(s, d);
    }
    WindowFrame(s, s');
  }

  lemma WindowFrame(s: State, s': State)
    requires ShapeOk(s) && ShapeOk(s') && WindowOk(s)
    requires s'.cap == s.cap && s'.slots == s.slots && s'.readHead == s.readHead && s'.writeHead == s.writeHead && s'.log == s.log
    requires forall off: nat :: Expected(ActiveDrainer(s'), off) == Expected(ActiveDrainer(s), off)
    ensures WindowOk(s')
  {
    assert forall pos: nat :: At(s', pos) == At(s, pos);
  }

  /** A drainer moves on, taking or dropping the lock, and touches no slot and no head. */
  lemma DrainFrame(s: State, s': State, d: Did)
    requires CoreOk(s)
    requires s' == s.(drainers := s.drainers[d := Dr(s', d)], lock := s'.lock, active := s'.active)
    requires DrainerOk(s', d)
    requires s'.lock != s.lock ==> s.lock in {None, Some(d)} && s'.lock in {None, Some(d)}
    requires s'.active != s.active ==> s.lock == Some(d) && s.active in {None, Some(d)} && s'.active in {None, Some(d)}
    requires forall off: nat :: Expected(ActiveDrainer(s'), off) == Expected(ActiveDrainer(s), off)
    ensures CoreOk(s')
  {
    forall r
      ensures ProducerOk(s', r)
    {
      assert ProducerOk(s, r) && Pr(s', r) == Pr(s, r);
      assert forall pos: nat :: At(s', pos) == At(s, pos);
    }
    forall e
      ensures DrainerOk(s', e)
    {
      assert DrainerOk(s, e);
    }
    WindowFrame(s, s');
    assert At(s', s'.writeHead) == At(s, s.writeHead);
  }

  lemma HeadSlotProducer(s: State, s': State, p: Pid, r: Pid)
    requires CoreOk(s) && s.writeHead < s.readHead + s.cap && s.owner in {None, Some(p)}
    requires s'.cap == s.cap && |s'.slots| == |s.slots|
    requires s' == s.(producers := s.producers[p := Pr(s', p)], slots := Put(s, s.writeHead, At(s', s.writeHead)),
                      owner := s'.owner, payloads := s'.payloads)
    requires ProducerOk(s', p) && OwnerOk(s')
    ensures ProducerOk(s', r)
  {
    PutFrame(s, s.writeHead, At(s', s.writeHead), s');
    assert ProducerOk(s, r);
  }

  lemma HeadSlotWindow(s: State, s': State, p: Pid)
    requires CoreOk(s) && s.writeHead < s.readHead + s.cap && s.owner in {None, Some(p)}
    requires s'.cap == s.cap && |s'.slots| == |s.slots|
    requires s' == s.(producers := s.producers[p := Pr(s', p)], slots := Put(s, s.writeHead, At(s', s.writeHead)),
                      owner := s'.owner, payloads := s'.payloads)
    ensures WindowOk(s')
  {
    PutFrame(s, s.writeHead, At(s', s.writeHead), s');
    assert ActiveDrainer(s') == ActiveDrainer(s);
    assert forall pos: nat :: s.readHead <= pos < s.readHead + s.cap && pos != s.writeHead ==> At(s', pos) == At(s, pos);
  }

  /** The owner of the slot at write_head rewrites it. */
  lemma HeadSlotFrame(s: State, s': State, p: Pid)
    requires CoreOk(s) && s.writeHead < s.readHead + s.cap && s.owner in {None, Some(p)}
    requires s'.cap == s.cap && |s'.slots| == |s.slots|
    requires s' == s.(producers := s.producers[p := Pr(s', p)], slots := Put(s, s.writeHead, At(s', s.writeHead)),
                      owner := s'.owner, payloads := s'.payloads)
    requires ProducerOk(s', p) && OwnerOk(s')
    ensures CoreOk(s')
  {
    forall r
      ensures ProducerOk(s', r)
    {
      HeadSlotProducer(s, s', p, r);
    }
    forall e
      ensures DrainerOk(s', e)
    {
      assert DrainerOk(s, e) && Dr(s', e) == Dr(s, e);
    }
    HeadSlotWindow(s, s', p);
  }

  /** The lock holder moves the slot at position `q` of the window to its next expected state. */
  lemma WindowSlotFrame(s: State, s': State, d: Did, q: nat)
    requires CoreOk(s) && s.lock == Some(d) && s.readHead <= q < s.writeHead
    requires s'.cap == s.cap && |s'.slots| == |s.slots|
    requires s' == s.(drainers := s.drainers[d := Dr(s', d)], slots := Put(s, q, At(s', q)),
                      active := s'.active, payloads := s'.payloads)
    requires s.active in {None, Some(d)} && s'.active == Some(d)
    requires DrainerOk(s', d)
    requires At(s', q).state == Expected(Dr(s', d), q - s.readHead)
    requires At(s', q).state != EMPTY ==> At(s', q).ev == s.log[q]
    requires forall off: nat :: off != q - s.readHead ==> Expected(Dr(s', d), off) == Expected(ActiveDrainer(s), off)
    ensures CoreOk(s')
  {
    PutFrame(s, q, At(s', q), s');
    forall r
      ensures ProducerOk(s', r)
    {
      assert ProducerOk(s, r) && Pr(s', r) == Pr(s, r);
    }
    forall e
      ensures DrainerOk(s', e)
    {
      assert DrainerOk(s, e);
    }
    assert OwnerOk(s') by {
      assert At(s', s.writeHead) == At(s, s.writeHead) || s.writeHead == s.readHead + s.cap;
    }
    WindowAfterPut(s, s', Dr(s', d), q);
  }

  lemma WindowAfterPut(s: State, s': State, x: Drainer, q: nat)
    requires ShapeOk(s) && ShapeOk(s') && WindowOk(s) && s.readHead <= q < s.writeHead
    requires s'.cap == s.cap && s'.readHead == s.readHead && s'.writeHead == s.writeHead && s'.log == s.log
    requires s'.slots == Put(s, q, At(s', q)) && ActiveDrainer(s') == x
    requires At(s', q).state == Expected(x, q - s.readHead)
    requires At(s', q).state != EMPTY ==> At(s', q).ev == s.log[q]
    requires forall off: nat :: off != q - s.readHead ==> Expected(x, off) == Expected(ActiveDrainer(s), off)
    ensures WindowOk(s')
  {
    PutFrame(s, q, At(s', q), s');
    forall pos: nat | s.readHead <= pos < s.writeHead
      ensures At(s', pos).state == Expected(x, pos - s.readHead)
      ensures At(s', pos).state != EMPTY ==> At(s', pos).ev == s.log[pos]
    {
      if pos != q {
        assert At(s', pos) == At(s, pos);
        assert At(s, pos).state == Expected(ActiveDrainer(s), pos - s.readHead);
      }
    }
    forall pos: nat | s.writeHead < pos < s.readHead + s.cap
      ensures At(s', pos).state == EMPTY
    {
      assert At(s', pos) == At(s, pos);
    }
  }

  // ----- Each step keeps the core -----

  ghost predicate IsCall(step: Step) {
    step.Begin? || step.ReadWrite? || step.ReadRead? || step.Retry? || step.GiveUp? || step.Raise?
  }

  lemma CallCore(s: State, step: Step)
    requires CoreOk(s) && IsCall(step) && Enabled(ALL_GUARDS, s, step)
    ensures CoreOk(Apply(s, step))
  {
    var s' := Apply(s, step);
    assert ProducerOk(s, step.p);
    assert At(s', s.writeHead) == At(s, s.writeHead);
    CallFrame(s, s', step.p);
  }

  lemma ReserveCore(s: State, step: Step)
    requires CoreOk(s) && step.Reserve? && Enabled(ALL_GUARDS, s, step)
    ensures CoreOk(Apply(s, step))
  {
    var s' := Apply(s, step);
    var SawBoth(ev, w) := Pr(s, step.p);
    assert ProducerOk(s, step.p);
    if At(s, w).state == EMPTY {
      PutFrame(s, w, At(s', w), s');
      HeadSlotFrame(s, s', step.p);
    } else {
      assert At(s', s.writeHead) == At(s, s.writeHead);
      CallFrame(s, s', step.p);
    }
  }

  lemma FillCore(s: State, step: Step)
    requires CoreOk(s) && step.Fill? && Enabled(ALL_GUARDS, s, step)
    ensures CoreOk(Apply(s, step))
  {
    var s' := Apply(s, step);
    assert ProducerOk(s, step.p);
    PutFrame(s, s.writeHead, At(s', s.writeHead), s');
    HeadSlotFrame(s, s', step.p);
  }

  lemma PublishCore(s: State, step: Step)
    requires CoreOk(s) && step.Publish? && Enabled(ALL_GUARDS, s, step)
    ensures CoreOk(Apply(s, step))
  {
    var s' := Apply(s, step);
    assert ProducerOk(s, step.p);
    PutFrame(s, s.writeHead, At(s', s.writeHead), s');
    HeadSlotFrame(s, s', step.p);
  }

  /** write_head moves past its READY slot: the window gains one event. */
  lemma AdvanceCore(s: State, p: Pid, s': State)
    requires CoreOk(s) && Pr(s, p).Flagged?
    requires s' == s.(producers := s.producers[p := Idle], writeHead := s.writeHead + 1, log := s.log + [Pr(s, p).ev], owner := None)
    ensures CoreOk(s')
  {
    assert ProducerOk(s, p);
    forall r
      ensures ProducerOk(s', r)
    {
      assert ProducerOk(s, r);
    }
    forall e
      ensures DrainerOk(s', e)
    {
      assert DrainerOk(s, e) && Dr(s', e) == Dr(s, e);
    }
    WindowGrows(s, s');
    assert At(s', s'.writeHead) == At(s, s'.writeHead);
    assert s'.log[..s.readHead] == s.log[..s.readHead];
  }

  lemma WindowGrows(s: State, s': State)
    requires CoreOk(s) && ShapeOk(s') && s.writeHead < s.readHead + s.cap
    requires At(s, s.writeHead).state == READY && s'.slots == s.slots && s'.cap == s.cap
    requires s'.readHead == s.readHead && s'.writeHead == s.writeHead + 1 && s'.log == s.log + [At(s, s.writeHead).ev]
    requires s'.drainers == s.drainers && s'.active == s.active
    ensures WindowOk(s')
  {
    var w := s.writeHead;
    if s.active.Some? {
      assert DrainerOk(s, s.active.value);
    }
    assert Expected(ActiveDrainer(s), w - s.readHead) == READY;
    forall pos: nat
      ensures At(s', pos) == At(s, pos)
    {
    }
  }

  /** Only program points, the lock and the active drainer differ. */
  ghost predicate MovesOnly(s: State, s': State) {
    && s'.cap == s.cap && s'.slots == s.slots && s'.readHead == s.readHead && s'.writeHead == s.writeHead
    && s'.producers == s.producers && s'.payloads == s.payloads
  }

  ghost predicate IsCollectMove(step: Step) {
    step.Lock? || step.ReadBase? || step.ReadLimit? || step.EndCollect? || step.Execute?
  }

  lemma CollectMoveCore(s: State, step: Step)
    requires CoreOk(s) && IsCollectMove(step) && Enabled(ALL_GUARDS, s, step)
    ensures CoreOk(Apply(s, step)) && MovesOnly(s, Apply(s, step))
  {
    var s' := Apply(s, step);
    assert DrainerOk(s, step.d);
    DrainFrame(s, s', step.d);
  }

  ghost predicate IsFinishMove(step: Step) {
    step.BeginRelease? || step.BeginAbort? || step.EndAbort?
  }

  lemma FinishMoveCore(s: State, step: Step)
    requires CoreOk(s) && IsFinishMove(step) && Enabled(ALL_GUARDS, s, step)
    ensures CoreOk(Apply(s, step)) && MovesOnly(s, Apply(s, step))
  {
    var s' := Apply(s, step);
    assert DrainerOk(s, step.d);
    DrainFrame(s, s', step.d);
  }

  ghost predicate IsReclaimMove(step: Step) {
    step.LockReclaim? || step.ReadReclaim? || step.EndReclaim?
  }

  lemma ReclaimMoveCore(s: State, step: Step)
    requires CoreOk(s) && IsReclaimMove(step) && Enabled(ALL_GUARDS, s, step)
    ensures CoreOk(Apply(s, step)) && MovesOnly(s, Apply(s, step))
  {
    var s' := Apply(s, step);
    assert DrainerOk(s, step.d);
    DrainFrame(s, s', step.d);
  }

  ghost predicate IsDropMove(step: Step) {
    step.LockDrop? || step.ReadDropBase? || step.ReadDropLimit?
  }

  lemma DropMoveCore(s: State, step: Step)
    requires CoreOk(s) && IsDropMove(step) && Enabled(ALL_GUARDS, s, step)
    ensures CoreOk(Apply(s, step)) && MovesOnly(s, Apply(s, step))
  {
    var s' := Apply(s, step);
    assert DrainerOk(s, step.d);
    DrainFrame(s, s', step.d);
  }

  /** Whoever can still collect is the only one with a batch. */
  lemma CollectorAlone(s: State, d: Did)
    requires CoreOk(s) && Enabled(ALL_GUARDS, s, CollectOne(d))
    ensures s.active in {None, Some(d)}
  {
    assert DrainerOk(s, d);
    if s.active.Some? {
      assert DrainerOk(s, s.active.value);
      assert At(s, s.readHead).state == Expected(ActiveDrainer(s), 0);
    }
  }

  lemma CopiesSnoc(log: seq<Event>, base: nat, buf: seq<Event>)
    requires Copies(log, base, buf) && base + |buf| < |log|
    ensures Copies(log, base, buf + [log[base + |buf|]])
  {
  }

  lemma CollectOneCore(s: State, d: Did, s': State)
    requires CoreOk(s) && Enabled(ALL_GUARDS, s, CollectOne(d))
    requires var Collecting(max, base, w, buf) := Dr(s, d); var x := At(s, base + |buf|);
             s' == s.(drainers := s.drainers[d := Collecting(max, base, w, buf + [x.ev])],
                      slots := Put(s, base + |buf|, x.(state := DRAINING)), active := Some(d))
    ensures CoreOk(s')
  {
    var Collecting(max, base, w, buf) := Dr(s, d);
    var q := base + |buf|;
    assert DrainerOk(s, d);
    CollectorAlone(s, d);
    PutFrame(s, q, At(s', q), s');
    assert At(s, q).ev == s.log[q];
    CopiesSnoc(s.log, base, buf);
    WindowSlotFrame(s, s', d, q);
  }

  lemma ReleaseOneCore(s: State, step: Step)
    requires CoreOk(s) && step.ReleaseOne? && Enabled(ALL_GUARDS, s, step)
    ensures CoreOk(Apply(s, step))
  {
    var s' := Apply(s, step);
    var q := Dr(s, step.d).base + Dr(s, step.d).i;
    assert DrainerOk(s, step.d);
    PutFrame(s, q, At(s', q), s');
    WindowSlotFrame(s, s', step.d, q);
  }

  lemma AbortOneCore(s: State, step: Step)
    requires CoreOk(s) && step.AbortOne? && Enabled(ALL_GUARDS, s, step)
    ensures CoreOk(Apply(s, step))
  {
    var s' := Apply(s, step);
    var q := Dr(s, step.d).base + Dr(s, step.d).i;
    assert DrainerOk(s, step.d);
    PutFrame(s, q, At(s', q), s');
    WindowSlotFrame(s, s', step.d, q);
  }

  /** The dropping drainer after one more slot. */
  lemma DroppedDrainer(s: State, d: Did, s': State)
    requires ShapeOk(s) && ShapeOk(s') && Dr(s, d).Dropping? && DrainerOk(s, d) && Dr(s, d).base + |Dr(s, d).gone| < Dr(s, d).w
    requires s'.lock == s.lock && s'.active == s.active && s'.readHead == s.readHead && s'.writeHead == s.writeHead && s'.log == s.log
    requires Dr(s', d) == Dr(s, d).(gone := Dr(s, d).gone + [s.log[Dr(s, d).base + |Dr(s, d).gone|]])
    ensures DrainerOk(s', d)
  {
    CopiesSnoc(s.log, Dr(s, d).base, Dr(s, d).gone);
  }

  lemma DropOneCore(s: State, d: Did, s': State)
    requires CoreOk(s) && Enabled(ALL_GUARDS, s, DropOne(d))
    requires var Dropping(base, w, gone) := Dr(s, d); var x := At(s, base + |gone|);
             s' == s.(drainers := s.drainers[d := Dropping(base, w, gone + [x.ev])],
                      slots := Put(s, base + |gone|, Slot(EMPTY, x.ev.(spill := 0))), payloads := s'.payloads)
    ensures CoreOk(s')
  {
    var Dropping(base, w, gone) := Dr(s, d);
    var q := base + |gone|;
    assert DrainerOk(s, d);
    assert At(s, q).ev == s.log[q];
    DroppedDrainer(s, d, s');
    PutFrame(s, q, At(s', q), s');
    WindowSlotFrame(s, s', d, q);
  }

  /** The window after read_head has moved past `n` emptied slots. */
  lemma RetireWindow(s: State, s': State, d: Did, n: nat)
    requires CoreOk(s) && s.lock == Some(d) && s.active == Some(d) && n <= s.writeHead - s.readHead
    requires forall off: nat :: Expected(Dr(s, d), off) == if off < n then EMPTY else READY
    requires Dr(s', d) == Away && s'.lock == None && s'.active == None && s'.readHead == s.readHead + n
    requires s' == s.(drainers := s.drainers[d := Away], readHead := s'.readHead, lock := None, active := None, retired := s'.retired)
    ensures WindowOk(s') && OwnerOk(s')
  {
    assert forall pos: nat :: At(s', pos) == At(s, pos);
    forall pos: nat | s.readHead + s.cap <= pos < s.readHead + s.cap + n
      ensures At(s, pos).state == EMPTY
    {
      var prev := pos - s.cap;
      assert Idx(pos, s.cap) == Idx(prev, s.cap);
      assert At(s, prev).state == Expected(ActiveDrainer(s), prev - s.readHead);
    }
    assert ActiveDrainer(s') == Away;
  }

  /** read_head moves past slots already emptied: they become the free tail of the next lap. */
  lemma RetireCore(s: State, s': State, d: Did, n: nat)
    requires CoreOk(s) && s.lock == Some(d) && s.active == Some(d) && n <= s.writeHead - s.readHead
    requires forall off: nat :: Expected(Dr(s, d), off) == if off < n then EMPTY else READY
    requires Dr(s', d) == Away && s'.lock == None && s'.active == None && s'.readHead == s.readHead + n
    requires s' == s.(drainers := s.drainers[d := Away], readHead := s'.readHead, lock := None, active := None, retired := s'.retired)
    requires Flatten(s'.retired) == Flatten(s.retired) + s.log[s.readHead..s.readHead + n]
    ensures CoreOk(s')
  {
    RetireWindow(s, s', d, n);
    assert forall pos: nat :: At(s', pos) == At(s, pos);
    forall r
      ensures ProducerOk(s', r)
    {
      assert ProducerOk(s, r) && Pr(s', r) == Pr(s, r);
    }
    forall e
      ensures DrainerOk(s', e)
    {
      assert DrainerOk(s, e);
    }
    assert s.log[..s.readHead] + s.log[s.readHead..s.readHead + n] == s.log[..s.readHead + n];
  }

  lemma EndReleaseCore(s: State, step: Step)
    requires CoreOk(s) && step.EndRelease? && Enabled(ALL_GUARDS, s, step)
    ensures CoreOk(Apply(s, step))
  {
    var s' := Apply(s, step);
    assert DrainerOk(s, step.d);
    assert s'.retired[..|s.retired|] == s.retired;
    assert Dr(s, step.d).buf == s.log[s.readHead..s.readHead + |Dr(s, step.d).buf|];
    RetireCore(s, s', step.d, |Dr(s, step.d).buf|);
  }

  lemma EndDropCore(s: State, step: Step)
    requires CoreOk(s) && step.EndDrop? && Enabled(ALL_GUARDS, s, step)
    ensures CoreOk(Apply(s, step))
  {
    var s' := Apply(s, step);
    assert DrainerOk(s, step.d);
    assert s'.retired[..|s.retired|] == s.retired;
    assert Dr(s, step.d).gone == s.log[s.readHead..s.readHead + |Dr(s, step.d).gone|];
    RetireCore(s, s', step.d, |Dr(s, step.d).gone|);
  }

  lemma ReclaimCore(s: State, step: Step)
    requires CoreOk(s) && step.Reclaim? && Enabled(ALL_GUARDS, s, step)
    ensures CoreOk(Apply(s, step))
  {
    var s' := Apply(s, step);
    var p, w := s.owner.value, Dr(s, step.d).w;
    assert DrainerOk(s, step.d) && ProducerOk(s, p);
    assert w == s.writeHead;
    var t := s.(producers := s.producers[p := Idle], slots := s'.slots, owner := None);
    PutFrame(s, w, At(t, w), t);
    HeadSlotFrame(s, t, p);
    assert DrainerOk(t, step.d);
    DrainFrame(t, s', step.d);
  }

  // ----- Each step keeps the payload accounting -----

  /** Same holding calls, with the same payloads. */
  ghost predicate SameCaller(s: State, s': State, p: Pid) {
    && (CallerHolds(Pr(s', p)) <==> CallerHolds(Pr(s, p)))
    && (CallerHolds(Pr(s, p)) ==> Pr(s', p).ev.spill == Pr(s, p).ev.spill)
  }

  /** Same holding slot, with the same payload. */
  ghost predicate SameSlot(s: State, s': State, pos: nat)
    requires ShapeOk(s) && ShapeOk(s')
  {
    && (SlotHolds(s', pos) <==> SlotHolds(s, pos))
    && (SlotHolds(s, pos) ==> At(s', pos).ev.spill == At(s, pos).ev.spill)
  }

  lemma SameHolders(s: State, s': State)
    requires ShapeOk(s) && ShapeOk(s') && PayloadsOk(s) && s'.payloads == s.payloads
    requires forall p :: SameCaller(s, s', p)
    requires forall pos: nat :: SameSlot(s, s', pos)
    ensures PayloadsOk(s')
  {
    forall x
      ensures Recorded(s', x)
    {
      assert Recorded(s, x);
      if x in s.payloads && s.payloads[x].Caller? {
        assert SameCaller(s, s', s.payloads[x].p);
      }
      if x in s.payloads && s.payloads[x].InSlot? {
        assert SameSlot(s, s', s.payloads[x].pos);
      }
    }
    forall p
      ensures CallerRecorded(s', p)
    {
      assert CallerRecorded(s, p) && SameCaller(s, s', p);
    }
    forall pos: nat
      ensures SlotRecorded(s', pos)
    {
      assert SlotRecorded(s, pos) && SameSlot(s, s', pos);
    }
  }

  /** The slot at `q` lets go of its payload, which is freed. */
  lemma SlotFreed(s: State, s': State, q: nat)
    requires ShapeOk(s) && ShapeOk(s') && PayloadsOk(s) && SlotHolds(s, q)
    requires s'.payloads == Forget(s.payloads, At(s, q).ev.spill) && !SlotHolds(s', q)
    requires forall p :: SameCaller(s, s', p)
    requires forall pos: nat :: pos != q ==> SameSlot(s, s', pos)
    ensures PayloadsOk(s')
  {
    assert SlotRecorded(s, q);
    forall x
      ensures Recorded(s', x)
    {
      assert Recorded(s, x);
      if x in s.payloads && s.payloads[x].Caller? {
        assert SameCaller(s, s', s.payloads[x].p);
      }
      if x in s.payloads && s.payloads[x].InSlot? && s.payloads[x].pos != q {
        assert SameSlot(s, s', s.payloads[x].pos);
      }
    }
    forall p
      ensures CallerRecorded(s', p)
    {
      assert CallerRecorded(s, p) && SameCaller(s, s', p);
    }
    forall pos: nat | pos != q
      ensures SlotRecorded(s', pos)
    {
      assert SlotRecorded(s, pos) && SameSlot(s, s', pos);
    }
    assert SlotRecorded(s', q);
  }

  /** One call acquires a fresh payload, frees its own, or leaks it. */
  lemma CallerChanged(s: State, s': State, p: Pid)
    requires ShapeOk(s) && ShapeOk(s') && PayloadsOk(s)
    requires forall r :: r != p ==> Pr(s', r) == Pr(s, r)
    requires forall pos: nat :: SameSlot(s, s', pos)
    requires if CallerHolds(Pr(s, p))
             then !CallerHolds(Pr(s', p))
                  && (s'.payloads == Forget(s.payloads, Pr(s, p).ev.spill) || s'.payloads == Hand(s.payloads, Pr(s, p).ev.spill, Leaked))
             else CallerHolds(Pr(s', p)) && Pr(s', p).ev.spill !in s.payloads
                  && s'.payloads == Hand(s.payloads, Pr(s', p).ev.spill, Caller(p))
    ensures PayloadsOk(s')
  {
    assert CallerRecorded(s, p);
    forall x
      ensures Recorded(s', x)
    {
      assert Recorded(s, x);
      if x in s.payloads && s.payloads[x].InSlot? {
        assert SameSlot(s, s', s.payloads[x].pos);
      }
    }
    forall r
      ensures CallerRecorded(s', r)
    {
      assert CallerRecorded(s, r);
    }
    forall pos: nat
      ensures SlotRecorded(s', pos)
    {
      assert SlotRecorded(s, pos) && SameSlot(s, s', pos);
    }
  }

  lemma UntouchedSlots(s: State, s': State)
    requires ShapeOk(s) && ShapeOk(s')
    requires s'.cap == s.cap && s'.slots == s.slots && s'.readHead == s.readHead && s'.writeHead == s.writeHead
    ensures forall pos: nat :: SameSlot(s, s', pos)
  {
    assert forall pos: nat :: At(s', pos) == At(s, pos);
  }

  /** The slot at write_head changes while nobody counts it as a holder. */
  lemma HeadSlotPrivate(s: State, s': State)
    requires ShapeOk(s) && ShapeOk(s') && s.writeHead < s.readHead + s.cap
    requires s'.cap == s.cap && s'.readHead == s.readHead && s'.writeHead == s.writeHead
    requires s'.slots == Put(s, s.writeHead, At(s', s.writeHead))
    requires !SlotHolds(s, s.writeHead) && !SlotHolds(s', s.writeHead)
    ensures forall pos: nat :: SameSlot(s, s', pos)
  {
    PutFrame(s, s.writeHead, At(s', s.writeHead), s');
    forall pos: nat
      ensures SameSlot(s, s', pos)
    {
      if s.readHead <= pos < s.writeHead {
        assert At(s', pos) == At(s, pos);
      }
    }
  }

  lemma MovePayloads(s: State, s': State)
    requires Inv(s) && ShapeOk(s') && MovesOnly(s, s')
    ensures PayloadsOk(s')
  {
    UntouchedSlots(s, s');
    assert forall p :: Pr(s', p) == Pr(s, p);
    SameHolders(s, s');
  }

  lemma CallPayloads(s: State, step: Step)
    requires Inv(s) && IsCall(step) && Enabled(ALL_GUARDS, s, step)
    requires ShapeOk(Apply(s, step))
    ensures PayloadsOk(Apply(s, step))
  {
    var s' := Apply(s, step);
    UntouchedSlots(s, s');
    assert forall p :: p != step.p ==> Pr(s', p) == Pr(s, p);
    if step.Begin? || step.GiveUp? || step.Raise? {
      assert forall x :: Recorded(s, x);
      assert Recorded(s, 0);
      CallerChanged(s, s', step.p);
    } else {
      SameHolders(s, s');
    }
  }

  lemma ReservePayloads(s: State, step: Step)
    requires Inv(s) && (step.Reserve? || step.Fill?) && Enabled(ALL_GUARDS, s, step)
    requires CoreOk(Apply(s, step))
    ensures PayloadsOk(Apply(s, step))
  {
    var s' := Apply(s, step);
    assert ProducerOk(s, step.p) && ProducerOk(s', step.p);
    assert forall p :: p != step.p ==> Pr(s', p) == Pr(s, p);
    if s'.slots == s.slots {
      UntouchedSlots(s, s');
    } else {
      PutFrame(s, s.writeHead, At(s', s.writeHead), s');
      HeadSlotPrivate(s, s');
    }
    SameHolders(s, s');
  }

  /** At READY the payload passes from the caller to the slot. */
  lemma PublishPayloads(s: State, step: Step)
    requires Inv(s) && step.Publish? && Enabled(ALL_GUARDS, s, step)
    requires CoreOk(Apply(s, step))
    ensures PayloadsOk(Apply(s, step))
  {
    var s', p, w := Apply(s, step), step.p, s.writeHead;
    assert ProducerOk(s, p) && CallerRecorded(s, p);
    PutFrame(s, w, At(s', w), s');
    forall x
      ensures Recorded(s', x)
    {
      assert Recorded(s, x);
    }
    forall r
      ensures CallerRecorded(s', r)
    {
      assert CallerRecorded(s, r);
    }
    forall pos: nat
      ensures SlotRecorded(s', pos)
    {
      assert SlotRecorded(s, pos);
    }
  }

  lemma AdvancePayloads(s: State, step: Step)
    requires Inv(s) && step.Advance? && Enabled(ALL_GUARDS, s, step)
    requires CoreOk(Apply(s, step))
    ensures PayloadsOk(Apply(s, step))
  {
    var s' := Apply(s, step);
    assert ProducerOk(s, step.p);
    assert forall pos: nat :: At(s', pos) == At(s, pos);
    SameHolders(s, s');
  }

  /** Retired slots were emptied before, so moving read_head changes no holder. */
  lemma RetirePayloads(s: State, s': State)
    requires Inv(s) && CoreOk(s') && s.readHead <= s'.readHead
    requires s' == s.(drainers := s'.drainers, readHead := s'.readHead, lock := s'.lock, active := s'.active, retired := s'.retired)
    requires forall pos: nat :: s.readHead <= pos < s'.readHead ==> At(s, pos).state == EMPTY
    ensures PayloadsOk(s')
  {
    assert forall p :: Pr(s', p) == Pr(s, p);
    forall pos: nat
      ensures SameSlot(s, s', pos)
    {
      assert At(s', pos) == At(s, pos);
    }
    SameHolders(s, s');
  }

  /** The retired prefix of the window is empty when the last step of a release or drop is taken. */
  lemma RetiredIsEmpty(s: State, step: Step)
    requires CoreOk(s) && (step.EndRelease? || step.EndDrop?) && Enabled(ALL_GUARDS, s, step)
    ensures var s' := Apply(s, step);
            && s.readHead <= s'.readHead
            && s' == s.(drainers := s'.drainers, readHead := s'.readHead, lock := s'.lock, active := s'.active, retired := s'.retired)
            && forall pos: nat :: s.readHead <= pos < s'.readHead ==> At(s, pos).state == EMPTY
  {
    assert DrainerOk(s, step.d);
    forall pos: nat | s.readHead <= pos < Apply(s, step).readHead
      ensures At(s, pos).state == EMPTY
    {
      assert At(s, pos).state == Expected(ActiveDrainer(s), pos - s.readHead);
    }
  }

  ghost predicate SlotChange(s: State, s': State, q: nat)
    requires ShapeOk(s) && ShapeOk(s')
  {
    && s.readHead <= q < s.writeHead && s'.cap == s.cap && s'.slots == Put(s, q, At(s', q))
    && s'.readHead == s.readHead && s'.writeHead == s.writeHead && s'.producers == s.producers
  }

  lemma OtherSlotsSame(s: State, s': State, q: nat)
    requires ShapeOk(s) && ShapeOk(s') && SlotChange(s, s', q)
    ensures forall pos: nat :: pos != q ==> SameSlot(s, s', pos)
    ensures forall p :: SameCaller(s, s', p)
  {
    PutFrame(s, q, At(s', q), s');
    forall pos: nat | pos != q
      ensures SameSlot(s, s', pos)
    {
      if s.readHead <= pos < s.readHead + s.cap {
        assert At(s', pos) == At(s, pos);
      }
    }
    assert forall p :: Pr(s', p) == Pr(s, p);
  }

  /** Flipping READY and DRAINING keeps the slot as the holder. */
  lemma FlipPayloads(s: State, s': State, q: nat)
    requires Inv(s) && ShapeOk(s') && SlotChange(s, s', q) && s'.payloads == s.payloads
    requires SlotHolds(s, q) && SlotHolds(s', q) && At(s', q).ev == At(s, q).ev
    ensures PayloadsOk(s')
  {
    OtherSlotsSame(s, s', q);
    SameHolders(s, s');
  }

  /** Emptying a slot frees the payload that this slot, and nobody else, holds. */
  lemma EmptyPayloads(s: State, s': State, q: nat)
    requires Inv(s) && ShapeOk(s') && SlotChange(s, s', q) && SlotHolds(s, q)
    requires At(s', q).state == EMPTY && s'.payloads == Forget(s.payloads, At(s, q).ev.spill)
    ensures PayloadsOk(s')
  {
    OtherSlotsSame(s, s', q);
    SlotFreed(s, s', q);
  }

  lemma ReclaimPayloads(s: State, step: Step)
    requires Inv(s) && step.Reclaim? && Enabled(ALL_GUARDS, s, step)
    requires CoreOk(Apply(s, step))
    ensures PayloadsOk(Apply(s, step))
  {
    var s' := Apply(s, step);
    assert DrainerOk(s, step.d) && ProducerOk(s, s.owner.value);
    assert Dr(s, step.d).w == s.writeHead;
    PutFrame(s, s.writeHead, At(s', s.writeHead), s');
    HeadSlotPrivate(s, s');
    assert forall p :: p != s.owner.value ==> Pr(s', p) == Pr(s, p);
    SameHolders(s, s');
  }

  // ----- The invariant over whole runs -----

  lemma StepInv(s: State, step: Step)
    requires Inv(s) && Enabled(ALL_GUARDS, s, step)
    ensures Inv(Apply(s, step))
  {
    if IsCall(step) {
      CallCore(s, step);
      CallPayloads(s, step);
    } else if IsCollectMove(step) {
      CollectMoveCore(s, step);
      MovePayloads(s, Apply(s, step));
    } else if IsFinishMove(step) {
      FinishMoveCore(s, step);
      MovePayloads(s, Apply(s, step));
    } else if IsReclaimMove(step) {
      ReclaimMoveCore(s, step);
      MovePayloads(s, Apply(s, step));
    } else if IsDropMove(step) {
      DropMoveCore(s, step);
      MovePayloads(s, Apply(s, step));
    } else if step.Reserve? || step.Fill? || step.Publish? || step.Advance? {
      PublishStepInv(s, step);
    } else {
      DrainStepInv(s, step);
    }
  }

  lemma PublishStepInv(s: State, step: Step)
    requires Inv(s) && Enabled(ALL_GUARDS, s, step)
    requires step.Reserve? || step.Fill? || step.Publish? || step.Advance?
    ensures Inv(Apply(s, step))
  {
    match step
    case Reserve(_) => ReserveCore(s, step); ReservePayloads(s, step);
    case Fill(_) => FillCore(s, step); ReservePayloads(s, step);
    case Publish(_) => PublishCore(s, step); PublishPayloads(s, step);
    case Advance(p) => assert ProducerOk(s, p); AdvanceCore(s, p, Apply(s, step)); AdvancePayloads(s, step);
  }

  lemma DrainStepInv(s: State, step: Step)
    requires Inv(s) && Enabled(ALL_GUARDS, s, step)
    requires step.CollectOne? || step.AbortOne? || step.ReleaseOne? || step.DropOne? || step.EndRelease? || step.EndDrop? || step.Reclaim?
    ensures Inv(Apply(s, step))
  {
    match step
    case CollectOne(d) => CollectOneInv(s, d);
    case AbortOne(d) => AbortOneInv(s, d);
    case ReleaseOne(d) => ReleaseOneInv(s, d);
    case DropOne(d) => DropOneInv(s, d);
    case EndRelease(_) => EndReleaseCore(s, step); RetiredIsEmpty(s, step); RetirePayloads(s, Apply(s, step));
    case EndDrop(_) => EndDropCore(s, step); RetiredIsEmpty(s, step); RetirePayloads(s, Apply(s, step));
    case Reclaim(_) => ReclaimCore(s, step); ReclaimPayloads(s, step);
  }

  lemma CollectOneInv(s: State, d: Did)
    requires Inv(s) && Enabled(ALL_GUARDS, s, CollectOne(d))
    ensures Inv(Apply(s, CollectOne(d)))
  {
    var s', q := Apply(s, CollectOne(d)), Dr(s, d).base + |Dr(s, d).buf|;
    assert DrainerOk(s, d);
    CollectOneCore(s, d, s');
    PutFrame(s, q, At(s', q), s');
    FlipPayloads(s, s', q);
  }

  lemma AbortOneInv(s: State, d: Did)
    requires Inv(s) && Enabled(ALL_GUARDS, s, AbortOne(d))
    ensures Inv(Apply(s, AbortOne(d)))
  {
    var s', q := Apply(s, AbortOne(d)), Dr(s, d).base + Dr(s, d).i;
    assert DrainerOk(s, d);
    AbortOneCore(s, AbortOne(d));
    PutFrame(s, q, At(s', q), s');
    FlipPayloads(s, s', q);
  }

  lemma ReleaseOneInv(s: State, d: Did)
    requires Inv(s) && Enabled(ALL_GUARDS, s, ReleaseOne(d))
    ensures Inv(Apply(s, ReleaseOne(d)))
  {
    var s', q := Apply(s, ReleaseOne(d)), Dr(s, d).base + Dr(s, d).i;
    assert DrainerOk(s, d);
    ReleaseOneCore(s, ReleaseOne(d));
    PutFrame(s, q, At(s', q), s');
    assert At(s, q).state == Expected(ActiveDrainer(s), q - s.readHead);
    EmptyPayloads(s, s', q);
  }

  lemma DropOnePayloads(s: State, d: Did, s': State)
    requires Inv(s) && Dr(s, d).Dropping? && DrainerOk(s, d) && Dr(s, d).base + |Dr(s, d).gone| < Dr(s, d).w && ShapeOk(s')
    requires s'.cap == s.cap && s'.readHead == s.readHead && s'.writeHead == s.writeHead && s'.producers == s.producers
    requires var q := Dr(s, d).base + |Dr(s, d).gone|; At(s, q).state == READY || At(s, q).state == DRAINING
    requires var q := Dr(s, d).base + |Dr(s, d).gone|;
             s'.slots == Put(s, q, Slot(EMPTY, At(s, q).ev.(spill := 0))) && s'.payloads == Forget(s.payloads, At(s, q).ev.spill)
    ensures PayloadsOk(s')
  {
    var q := Dr(s, d).base + |Dr(s, d).gone|;
    PutFrame(s, q, Slot(EMPTY, At(s, q).ev.(spill := 0)), s');
    EmptyPayloads(s, s', q);
  }

  lemma DropOneInv(s: State, d: Did)
    requires Inv(s) && Enabled(ALL_GUARDS, s, DropOne(d))
    ensures Inv(Apply(s, DropOne(d)))
  {
    var s' := Apply(s, DropOne(d));
    assert DrainerOk(s, d);
    DropOneCore(s, d, s');
    DropOnePayloads(s, d, s');
  }

  /** Every state of every guarded run satisfies the invariant. */
  lemma {:induction false} RunInv(s: State, steps: seq<Step>)
    requires Inv(s) && Legal(ALL_GUARDS, s, steps)
    ensures Inv(After(ALL_GUARDS, s, steps))
    decreases |steps|
  {
    if steps != [] {
      StepInv(s, steps[0]);
      RunInv(Apply(s, steps[0]), steps[1..]);
    }
  }

  // ----- What the invariant means -----

  /** The events still in the ring, read slot by slot in position order. */
  ghost function Pending(s: State): seq<Event>
    requires ShapeOk(s)
  {
    seq(s.writeHead - s.readHead, i requires 0 <= i < s.writeHead - s.readHead => At(s, s.readHead + i).ev)
  }

  /** Outside every consumer-lock section no slot of the window has been emptied. */
  lemma WindowIsHistory(s: State)
    requires CoreOk(s) && s.lock.None?
    ensures Pending(s) == s.log[s.readHead..]
  {
    if s.active.Some? {
      assert DrainerOk(s, s.active.value);
    }
    forall pos: nat | s.readHead <= pos < s.writeHead
      ensures At(s, pos).ev == s.log[pos]
    {
      assert At(s, pos).state == Expected(ActiveDrainer(s), pos - s.readHead);
    }
  }

  /**
   FIFO: whenever nobody is inside a consumer-lock section, the batches retired
   so far followed by the slots of the window are the published events in
   write_head order; nothing is lost, duplicated or reordered.
   */
  lemma Fifo(s0: State, steps: seq<Step>)
    requires Init(s0) && Legal(ALL_GUARDS, s0, steps)
    ensures var s := After(ALL_GUARDS, s0, steps);
            ShapeOk(s) && (s.lock.None? ==> Flatten(s.retired) + Pending(s) == s.log)
  {
    InitInv(s0);
    RunInv(s0, steps);
    var s := After(ALL_GUARDS, s0, steps);
    if s.lock.None? {
      WindowIsHistory(s);
      assert s.log == s.log[..s.readHead] + s.log[s.readHead..];
    }
  }

  /** The batch a drainer has collected and not yet retired. */
  function Outstanding(x: Drainer): seq<Event> {
    match x
    case Collecting(_, _, _, buf) => buf
    case Executing(_, buf) => buf
    case Executed(_, buf) => buf
    case Raised(_, buf) => buf
    case Releasing(_, buf, _) => buf
    case Aborting(_, buf, _) => buf
    case _ => []
  }

  /** At most one non-empty batch is outstanding, and read_head is still its base. */
  lemma OneBatch(s: State, d: Did, e: Did)
    requires Inv(s)
    requires Outstanding(Dr(s, d)) != [] && Outstanding(Dr(s, e)) != []
    ensures d == e && Dr(s, d).base == s.readHead
    ensures s.readHead <= |s.log| && Outstanding(Dr(s, d)) <= s.log[s.readHead..]
  {
    assert DrainerOk(s, d) && DrainerOk(s, e);
  }

  /** While a batch is outstanding, its first slot is DRAINING and another collector has taken nothing. */
  lemma OthersHoldNothing(s: State, d: Did, e: Did)
    requires CoreOk(s) && d != e && Outstanding(Dr(s, d)) != [] && Dr(s, e).Collecting?
    ensures Dr(s, e).buf == [] && Dr(s, e).base == s.readHead && At(s, s.readHead).state != READY
  {
    assert DrainerOk(s, d) && DrainerOk(s, e);
    assert ActiveDrainer(s) == Dr(s, d);
    assert At(s, s.readHead).state == Expected(ActiveDrainer(s), s.readHead - s.readHead);
  }

  /** While a batch is outstanding, another drainer's collect ends with nothing. */
  lemma OthersCollectNothing(s: State, d: Did, e: Did)
    requires Inv(s) && d != e && Outstanding(Dr(s, d)) != [] && Dr(s, e).Collecting?
    ensures Dr(s, e).buf == []
    ensures !Enabled(NO_GUARDS, s, CollectOne(e)) && Enabled(NO_GUARDS, s, EndCollect(e))
    ensures Apply(s, EndCollect(e)).drainers[e] == Away
  {
    OthersHoldNothing(s, d, e);
  }

  /** The assertion at the head of release_batch, and its counterpart in the abort path. */
  lemma ReleaseAssertion(s: State, d: Did)
    requires Inv(s) && (Dr(s, d).Executed? || Dr(s, d).Raised?)
    ensures s.readHead == Dr(s, d).base
  {
    assert DrainerOk(s, d);
  }

  /** No step frees a payload that is not live: each spilled payload is freed once. */
  lemma FreedOnce(s: State, step: Step)
    requires Inv(s) && Enabled(ALL_GUARDS, s, step)
    ensures step.ReleaseOne? ==> var x := At(s, Dr(s, step.d).base + Dr(s, step.d).i).ev.spill; x == 0 || x in s.payloads
    ensures step.DropOne? ==> var x := At(s, Dr(s, step.d).base + |Dr(s, step.d).gone|).ev.spill; x == 0 || x in s.payloads
    ensures step.GiveUp? ==> Pr(s, step.p).ev.spill == 0 || Pr(s, step.p).ev.spill in s.payloads
  {
    if step.ReleaseOne? || step.DropOne? {
      var x := Dr(s, step.d);
      var q := if step.ReleaseOne? then x.base + x.i else x.base + |x.gone|;
      assert DrainerOk(s, step.d);
      assert At(s, q).state == Expected(ActiveDrainer(s), q - s.readHead);
      assert SlotRecorded(s, q);
    } else if step.GiveUp? {
      assert CallerRecorded(s, step.p);
    }
  }

  /**
   The other half of "freed once": when no call is under way and the ring is
   empty, every payload ever handed over has been freed, but for the leaked ones.
   */
  lemma OnlyLeaksRemain(s: State, x: Spill)
    requires Inv(s) && (forall p :: Pr(s, p).Idle?) && s.readHead == s.writeHead && x in s.payloads
    ensures s.payloads[x].Leaked?
  {
    NobodyOwns(s);
    assert Recorded(s, x);
  }

  lemma NobodyOwns(s: State)
    requires CoreOk(s) && forall p :: Pr(s, p).Idle?
    ensures s.owner.None?
  {
  }

  /** The published history only grows along a run, guarded or not. */
  lemma {:induction false} LogGrows(g: Guards, s: State, steps: seq<Step>)
    requires 0 < s.cap == |s.slots| && Legal(g, s, steps)
    ensures s.log <= After(g, s, steps).log
    decreases |steps|
  {
    if steps != [] {
      LogGrows(g, Apply(s, steps[0]), steps[1..]);
    }
  }

  lemma DrainersNeverLeak(s: State, step: Step, x: Spill)
    requires 0 < s.cap == |s.slots| && Enabled(NO_GUARDS, s, step) && !IsPublisher(step) && x in Apply(s, step).payloads
    ensures x in s.payloads && s.payloads[x] == Apply(s, step).payloads[x]
  {
  }

  /** Only an error leaks a payload. */
  lemma LeakedByRaise(s: State, step: Step, x: Spill)
    requires 0 < s.cap == |s.slots| && Enabled(NO_GUARDS, s, step)
    requires x in Apply(s, step).payloads && Apply(s, step).payloads[x].Leaked?
    ensures step.Raise? || (x in s.payloads && s.payloads[x].Leaked?)
  {
    if !IsPublisher(step) {
      DrainersNeverLeak(s, step, x);
    }
  }

  /** read_head moves only when a batch is released or dropped. */
  ghost predicate NothingRetired(steps: seq<Step>) {
    forall i :: 0 <= i < |steps| ==> !steps[i].EndRelease? && !steps[i].EndDrop?
  }

  lemma {:induction false} HeadFixed(g: Guards, s: State, steps: seq<Step>)
    requires 0 < s.cap == |s.slots| && Legal(g, s, steps) && NothingRetired(steps)
    ensures After(g, s, steps).readHead == s.readHead
    decreases |steps|
  {
    if steps != [] {
      assert !steps[0].EndRelease? && !steps[0].EndDrop?;
      HeadFixed(g, Apply(s, steps[0]), steps[1..]);
    }
  }

  /**
   At-least-once: until some batch is retired, whatever any drainer collects
   later starts at the same base and is comparable with the earlier batch: the
   same events in the same order, from the first one on.
   */
  lemma Recollected(s: State, steps: seq<Step>, d: Did, e: Did)
    requires Inv(s) && Legal(ALL_GUARDS, s, steps) && NothingRetired(steps)
    requires Outstanding(Dr(s, d)) != [] && Outstanding(Dr(After(ALL_GUARDS, s, steps), e)) != []
    ensures var t := After(ALL_GUARDS, s, steps);
            var a, b := Outstanding(Dr(s, d)), Outstanding(Dr(t, e));
            Dr(t, e).base == Dr(s, d).base && (a <= b || b <= a)
  {
    var t := After(ALL_GUARDS, s, steps);
    RunInv(s, steps);
    LogGrows(ALL_GUARDS, s, steps);
    HeadFixed(ALL_GUARDS, s, steps);
    OneBatch(s, d, d);
    OneBatch(t, e, e);
    assert s.log[s.readHead..] <= t.log[s.readHead..];
  }

  /** The plans of the batch raised and its abort is not over. */
  predicate Failed(x: Drainer) {
    x.Raised? || x.Aborting?
  }

  /** No batch can be retired while another one is being aborted. */
  lemma NoneRetires(s: State, step: Step, d: Did)
    requires CoreOk(s) && Enabled(ALL_GUARDS, s, step) && Failed(Dr(s, d))
    ensures !step.EndRelease? && !step.EndDrop?
  {
    assert DrainerOk(s, d);
    assert step.EndRelease? || step.EndDrop? ==> DrainerOk(s, step.d);
  }

  lemma PublisherFrame(s: State, step: Step)
    requires 0 < s.cap == |s.slots| && Enabled(NO_GUARDS, s, step) && IsPublisher(step)
    ensures var s' := Apply(s, step);
            s'.drainers == s.drainers && s'.readHead == s.readHead && s'.lock == s.lock && s'.active == s.active && s'.retired == s.retired
  {
  }

  lemma OtherDrainerFrame(s: State, step: Step, d: Did)
    requires 0 < s.cap == |s.slots| && Enabled(NO_GUARDS, s, step) && !IsPublisher(step) && step.d != d
    ensures Dr(Apply(s, step), d) == Dr(s, d)
    ensures !step.EndRelease? && !step.EndDrop? ==> Apply(s, step).readHead == s.readHead && Apply(s, step).retired == s.retired
  {
  }

  lemma FailedStays(s: State, step: Step, d: Did)
    requires 0 < s.cap == |s.slots| && Enabled(ALL_GUARDS, s, step)
    requires Failed(Dr(s, d)) && step != EndAbort(d) && !step.EndRelease? && !step.EndDrop?
    ensures var s' := Apply(s, step);
            && Failed(Dr(s', d)) && Dr(s', d).base == Dr(s, d).base && Dr(s', d).buf == Dr(s, d).buf
            && s'.readHead == s.readHead && s'.retired == s.retired
  {
    if IsPublisher(step) {
      PublisherFrame(s, step);
    } else if step.d != d {
      OtherDrainerFrame(s, step, d);
    } else {
      assert step.BeginAbort? || step.AbortOne?;
    }
  }

  /** While the abort of a batch is under way, nobody retires anything. */
  lemma {:induction false} FailedUntilAbort(s: State, steps: seq<Step>, d: Did)
    requires Inv(s) && Legal(ALL_GUARDS, s, steps) && Failed(Dr(s, d)) && EndAbort(d) !in steps
    ensures var t := After(ALL_GUARDS, s, steps);
            && Failed(Dr(t, d)) && Dr(t, d).base == Dr(s, d).base && Dr(t, d).buf == Dr(s, d).buf
            && t.readHead == s.readHead && t.retired == s.retired
    decreases |steps|
  {
    if steps != [] {
      NoneRetires(s, steps[0], d);
      FailedStays(s, steps[0], d);
      StepInv(s, steps[0]);
      FailedUntilAbort(Apply(s, steps[0]), steps[1..], d);
    }
  }

  /** The events of `buf` are READY at the positions from `base` on. */
  ghost predicate ReadyFrom(t: State, base: nat, buf: seq<Event>)
    requires 0 < t.cap == |t.slots|
  {
    forall i: nat :: i < |buf| ==> At(t, base + i) == Slot(READY, buf[i])
  }

  /** The batch of `e` starts at `base` and has the events of `buf` in their order, or a first part of them. */
  ghost predicate StartsWith(u: State, e: Did, base: nat, buf: seq<Event>) {
    Outstanding(Dr(u, e)) != [] && Dr(u, e).base == base && (buf <= Outstanding(Dr(u, e)) || Outstanding(Dr(u, e)) <= buf)
  }

  lemma AbortEnds(s: State, d: Did, t: State)
    requires Inv(s) && Enabled(ALL_GUARDS, s, EndAbort(d)) && t == Apply(s, EndAbort(d))
    ensures Inv(t) && t.readHead == Dr(s, d).base && Copies(t.log, Dr(s, d).base, Dr(s, d).buf) && ReadyFrom(t, Dr(s, d).base, Dr(s, d).buf)
  {
    StepInv(s, EndAbort(d));
    assert DrainerOk(s, d);
    var buf := Dr(s, d).buf;
    forall i: nat | i < |buf|
      ensures At(t, t.readHead + i) == Slot(READY, buf[i])
    {
      assert At(t, t.readHead + i).state == Expected(ActiveDrainer(t), t.readHead + i - t.readHead);
    }
  }

  /** What is collected at the front of the window is comparable with any other stretch that starts there. */
  lemma SameFront(t: State, later: seq<Step>, u: State, base: nat, buf: seq<Event>, e: Did)
    requires Inv(t) && Legal(ALL_GUARDS, t, later) && NothingRetired(later) && u == After(ALL_GUARDS, t, later)
    requires base == t.readHead && Copies(t.log, base, buf) && Outstanding(Dr(u, e)) != []
    ensures StartsWith(u, e, base, buf)
  {
    RunInv(t, later);
    HeadFixed(ALL_GUARDS, t, later);
    LogGrows(ALL_GUARDS, t, later);
    OneBatch(u, e, e);
    Comparable(t.log, u.log, base, buf, Outstanding(Dr(u, e)));
  }

  lemma Comparable(log: seq<Event>, log': seq<Event>, base: nat, a: seq<Event>, b: seq<Event>)
    requires log <= log' && Copies(log, base, a) && base <= |log'| && b <= log'[base..]
    ensures a <= b || b <= a
  {
    assert a == log'[base..][..|a|] && b == log'[base..][..|b|];
  }

  /**
   An aborted batch comes back. Take any run from the failure of the plans to the
   EndAbort of that batch, with any steps of others in between: nothing is retired
   meanwhile, and every event of the batch is READY again at its old position.
   Whoever collects next, before anything else is retired, starts at the same
   base with the same events in the same order.
   */
  lemma AbortedComesBack(s: State, d: Did, abort: seq<Step>, t0: State, t: State, later: seq<Step>, u: State, e: Did)
    requires Inv(s) && Dr(s, d).Raised? && Legal(ALL_GUARDS, s, abort) && EndAbort(d) !in abort && t0 == After(ALL_GUARDS, s, abort)
    requires Enabled(ALL_GUARDS, t0, EndAbort(d)) && t == Apply(t0, EndAbort(d))
    requires Legal(ALL_GUARDS, t, later) && NothingRetired(later) && u == After(ALL_GUARDS, t, later) && Outstanding(Dr(u, e)) != []
    ensures ReadyFrom(t, Dr(s, d).base, Dr(s, d).buf) && StartsWith(u, e, Dr(s, d).base, Dr(s, d).buf)
  {
    UntilAbort(s, d, abort, t0);
    AbortEnds(t0, d, t);
    SameFront(t, later, u, Dr(s, d).base, Dr(s, d).buf, e);
  }

  lemma UntilAbort(s: State, d: Did, abort: seq<Step>, t0: State)
    requires Inv(s) && Dr(s, d).Raised? && Legal(ALL_GUARDS, s, abort) && EndAbort(d) !in abort && t0 == After(ALL_GUARDS, s, abort)
    ensures Inv(t0) && Failed(Dr(t0, d)) && Dr(t0, d).base == Dr(s, d).base && Dr(t0, d).buf == Dr(s, d).buf
  {
    RunInv(s, abort);
    FailedUntilAbort(s, abort, d);
  }
}
