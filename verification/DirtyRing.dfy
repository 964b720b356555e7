/**
 The multi-producer dirty ring with a two-phase drain (src/dirty_ring.c and its
 callers in src/persistence.c), as a step machine over any number of publishing
 calls and drainers. One step is one atomic access to shared memory; stores to a
 slot that its owner alone may touch are merged with the access that follows.

 `log`, `retired`, `owner`, `active` and `payloads` are history variables: they
 record what happened and no guard of the program reads them.
 */
module DirtyRing {
  import opened Base

  type Pid = nat
  type Did = nat
  type Spill = nat   // a DSA payload pointer; 0 stands for an inline event

  datatype Event = Event(body: Bytes, spill: Spill)

  datatype SlotState = EMPTY | WRITING | READY | DRAINING

  datatype Slot = Slot(state: SlotState, ev: Event)

  /** Program points of one call of pg_redis_dirty_ring_publish. */
  datatype Producer =
    | Idle
    | Trying(ev: Event)              // about to read write_head
    | SawWrite(ev: Event, w: nat)    // about to read read_head
    | SawBoth(ev: Event, w: nat)     // not full: about to CAS the slot EMPTY -> WRITING
    | Reserved(ev: Event, w: nat)    // about to fill the payload
    | Written(ev: Event, w: nat)     // about to CAS the slot WRITING -> READY
    | Flagged(ev: Event, w: nat)     // about to CAS write_head w -> w + 1
    | Full(ev: Event)                // returned PG_REDIS_RING_FULL; the caller still owns the payload
    | Stuck(ev: Event, w: nat)       // raised between reserve and publish; will never publish

  /** Program points of a drainer, a reclaim pass or FLUSHALL's drop. */
  datatype Drainer =
    | Away
    | Locked(max: nat)
    | GotBase(max: nat, base: nat)
    | Collecting(max: nat, base: nat, w: nat, buf: seq<Event>)
    | Executing(base: nat, buf: seq<Event>)      // lock dropped, plans running
    | Executed(base: nat, buf: seq<Event>)       // plans succeeded
    | Raised(base: nat, buf: seq<Event>)         // plans raised
    | Releasing(base: nat, buf: seq<Event>, i: nat)
    | Aborting(base: nat, buf: seq<Event>, i: nat)
    | ReclaimLocked
    | Reclaiming(w: nat)
    | DropLocked
    | DropGotBase(base: nat)
    | Dropping(base: nat, w: nat, gone: seq<Event>)

  datatype Batch = Released(evs: seq<Event>) | Dropped(evs: seq<Event>)

  /** Who must free a live spill payload. */
  datatype Holder = Caller(p: Pid) | InSlot(pos: nat) | Leaked

  datatype State = State(
    cap: nat, slots: seq<Slot>, writeHead: nat, readHead: nat, lock: Option<Did>,
    producers: map<Pid, Producer>, drainers: map<Did, Drainer>,
    log: seq<Event>, retired: seq<Batch>,
    owner: Option<Pid>, active: Option<Did>, payloads: map<Spill, Holder>)

  datatype Step =
    | Begin(p: Pid, ev: Event)
    | ReadWrite(p: Pid)
    | ReadRead(p: Pid)
    | Reserve(p: Pid)
    | Fill(p: Pid)
    | Publish(p: Pid)
    | Advance(p: Pid)
    | Retry(p: Pid)
    | GiveUp(p: Pid)
    | Raise(p: Pid)
    | Lock(d: Did, max: nat)
    | ReadBase(d: Did)
    | ReadLimit(d: Did)
    | CollectOne(d: Did)
    | EndCollect(d: Did)
    | Execute(d: Did, ok: bool)
    | BeginRelease(d: Did)
    | ReleaseOne(d: Did)
    | EndRelease(d: Did)
    | BeginAbort(d: Did)
    | AbortOne(d: Did)
    | EndAbort(d: Did)
    | LockReclaim(d: Did)
    | ReadReclaim(d: Did)
    | Reclaim(d: Did)
    | EndReclaim(d: Did)
    | LockDrop(d: Did)
    | ReadDropBase(d: Did)
    | ReadDropLimit(d: Did)
    | DropOne(d: Did)
    | EndDrop(d: Did)

  /** The three facts that the code relies on but does not enforce. */
  datatype Guards = Guards(freshHead: bool, deadOwner: bool, noBatch: bool)

  const ALL_GUARDS := Guards(true, true, true)
  const NO_GUARDS := Guards(false, false, false)

  // ----- Reading the state -----

  /** `pos % cap`, written so that it unfolds without division (see IdxIsMod). */
  function Idx(pos: nat, cap: nat): (i: nat)
    requires 0 < cap
    ensures i < cap
  {
    if pos < cap then pos else Idx(pos - cap, cap)
  }

  function At(s: State, pos: nat): Slot
    requires 0 < s.cap == |s.slots|
  {
    s.slots[Idx(pos, s.cap)]
  }

  function Put(s: State, pos: nat, x: Slot): seq<Slot>
    requires 0 < s.cap == |s.slots|
  {
    s.slots[Idx(pos, s.cap) := x]
  }

  function Pr(s: State, p: Pid): Producer {
    if p in s.producers then s.producers[p] else Idle
  }

  function Dr(s: State, d: Did): Drainer {
    if d in s.drainers then s.drainers[d] else Away
  }

  function Forget(m: map<Spill, Holder>, x: Spill): map<Spill, Holder> {
    if x == 0 then m else m - {x}
  }

  function Hand(m: map<Spill, Holder>, x: Spill, h: Holder): map<Spill, Holder> {
    if x == 0 then m else m[x := h]
  }

  // ----- The steps -----

  predicate Enabled(g: Guards, s: State, step: Step)
    requires 0 < s.cap == |s.slots|
  {
    match step
    case Begin(p, ev) => Pr(s, p).Idle? && (ev.spill == 0 || ev.spill !in s.payloads)
    case ReadWrite(p) => Pr(s, p).Trying?
    case ReadRead(p) => Pr(s, p).SawWrite?
    case Reserve(p) =>
      && Pr(s, p).SawBoth?
      && (g.freshHead && At(s, Pr(s, p).w).state == EMPTY ==> Pr(s, p).w == s.writeHead)
    case Fill(p) => Pr(s, p).Reserved?
    case Publish(p) => Pr(s, p).Written?
    case Advance(p) => Pr(s, p).Flagged?
    case Retry(p) => Pr(s, p).Full?
    case GiveUp(p) => Pr(s, p).Full?
    case Raise(p) =>
      var x := Pr(s, p); x.Trying? || x.SawWrite? || x.SawBoth? || x.Reserved? || x.Written? || x.Full?
    case Lock(d, max) => Dr(s, d).Away? && s.lock.None?
    case ReadBase(d) => Dr(s, d).Locked?
    case ReadLimit(d) => Dr(s, d).GotBase?
    case CollectOne(d) =>
      var x := Dr(s, d);
      && x.Collecting? && |x.buf| < x.max && x.base + |x.buf| < x.w
      && At(s, x.base + |x.buf|).state == READY
    case EndCollect(d) =>
      var x := Dr(s, d);
      && x.Collecting?
      && (|x.buf| >= x.max || x.base + |x.buf| >= x.w || At(s, x.base + |x.buf|).state != READY)
    case Execute(d, ok) => Dr(s, d).Executing?
    case BeginRelease(d) => Dr(s, d).Executed? && s.lock.None?
    case ReleaseOne(d) => Dr(s, d).Releasing? && Dr(s, d).i < |Dr(s, d).buf|
    case EndRelease(d) => Dr(s, d).Releasing? && Dr(s, d).i == |Dr(s, d).buf|
    case BeginAbort(d) => Dr(s, d).Raised? && s.lock.None?
    case AbortOne(d) => Dr(s, d).Aborting? && Dr(s, d).i < |Dr(s, d).buf|
    case EndAbort(d) => Dr(s, d).Aborting? && Dr(s, d).i == |Dr(s, d).buf|
    case LockReclaim(d) => Dr(s, d).Away? && s.lock.None?
    case ReadReclaim(d) => Dr(s, d).ReclaimLocked?
    case Reclaim(d) =>
      && Dr(s, d).Reclaiming? && At(s, Dr(s, d).w).state == WRITING
      && (g.deadOwner ==> s.owner.Some? && Pr(s, s.owner.value).Stuck?)
    case EndReclaim(d) => Dr(s, d).Reclaiming?
    case LockDrop(d) => Dr(s, d).Away? && s.lock.None? && (g.noBatch ==> s.active.None?)
    case ReadDropBase(d) => Dr(s, d).DropLocked?
    case ReadDropLimit(d) => Dr(s, d).DropGotBase?
    case DropOne(d) =>
      var x := Dr(s, d);
      && x.Dropping? && x.base + |x.gone| < x.w
      && (At(s, x.base + |x.gone|).state == READY || At(s, x.base + |x.gone|).state == DRAINING)
    case EndDrop(d) =>
      var x := Dr(s, d);
      && x.Dropping?
      && (x.base + |x.gone| >= x.w
          || (At(s, x.base + |x.gone|).state != READY && At(s, x.base + |x.gone|).state != DRAINING))
  }

  function SetP(s: State, p: Pid, x: Producer): State {
    s.(producers := s.producers[p := x])
  }

  function SetD(s: State, d: Did, x: Drainer): State {
    s.(drainers := s.drainers[d := x])
  }

  /** Steps of pg_redis_dirty_ring_publish and its callers. */
  predicate IsPublisher(step: Step) {
    || step.Begin? || step.ReadWrite? || step.ReadRead? || step.Reserve? || step.Fill? || step.Publish? || step.Advance?
    || step.Retry? || step.GiveUp? || step.Raise?
  }

  function ApplyCall(s: State, step: Step): (s': State)
    requires IsPublisher(step)
    requires 0 < s.cap == |s.slots|
    requires Enabled(NO_GUARDS, s, step)
    ensures s'.cap == s.cap && |s'.slots| == |s.slots|
  {
    match step
    case Begin(p, ev) => SetP(s, p, Trying(ev)).(payloads := Hand(s.payloads, ev.spill, Caller(p)))
    case ReadWrite(p) => SetP(s, p, SawWrite(Pr(s, p).ev, s.writeHead))
    case ReadRead(p) =>
      // w - r is unsigned: a read_head beyond w also reads as full.
      var SawWrite(ev, w) := Pr(s, p);
      SetP(s, p, if w < s.readHead || w - s.readHead >= s.cap then Full(ev) else SawBoth(ev, w))
    case Reserve(p) =>
      var SawBoth(ev, w) := Pr(s, p);
      if At(s, w).state == EMPTY
      then SetP(s, p, Reserved(ev, w)).(slots := Put(s, w, At(s, w).(state := WRITING)), owner := Some(p))
      else SetP(s, p, Trying(ev))
    case Fill(p) =>
      var Reserved(ev, w) := Pr(s, p);
      SetP(s, p, Written(ev, w)).(slots := Put(s, w, At(s, w).(ev := ev)))
    case Publish(p) =>
      var Written(ev, w) := Pr(s, p);
      if At(s, w).state == WRITING
      then SetP(s, p, Flagged(ev, w)).(slots := Put(s, w, At(s, w).(state := READY)),
                                      payloads := Hand(s.payloads, ev.spill, InSlot(w)))
      else SetP(s, p, Full(ev))
    case Advance(p) =>
      var Flagged(ev, w) := Pr(s, p);
      if s.writeHead == w
      then SetP(s, p, Idle).(writeHead := w + 1, log := s.log + [ev], owner := None)
      else SetP(s, p, Idle)
    case Retry(p) => SetP(s, p, Trying(Pr(s, p).ev))
    case GiveUp(p) => SetP(s, p, Idle).(payloads := Forget(s.payloads, Pr(s, p).ev.spill))
    case Raise(p) =>
      var x := Pr(s, p);
      SetP(s, p, if x.Reserved? || x.Written? then Stuck(x.ev, x.w) else Idle)
      .(payloads := Hand(s.payloads, x.ev.spill, Leaked))
  }

  function ApplyDrain(s: State, step: Step): (s': State)
    requires !IsPublisher(step)
    requires 0 < s.cap == |s.slots|
    requires Enabled(NO_GUARDS, s, step)
    ensures s'.cap == s.cap && |s'.slots| == |s.slots|
  {
    match step
    case Lock(d, max) => SetD(s, d, Locked(max)).(lock := Some(d))
    case ReadBase(d) => SetD(s, d, GotBase(Dr(s, d).max, s.readHead))
    case ReadLimit(d) => SetD(s, d, Collecting(Dr(s, d).max, Dr(s, d).base, s.writeHead, []))
    case CollectOne(d) =>
      var Collecting(max, base, w, buf) := Dr(s, d);
      var x := At(s, base + |buf|);
      SetD(s, d, Collecting(max, base, w, buf + [x.ev]))
      .(slots := Put(s, base + |buf|, x.(state := DRAINING)), active := Some(d))
    case EndCollect(d) =>
      var x := Dr(s, d);
      SetD(s, d, if x.buf == [] then Away else Executing(x.base, x.buf)).(lock := None)
    case Execute(d, ok) =>
      var Executing(base, buf) := Dr(s, d);
      SetD(s, d, if ok then Executed(base, buf) else Raised(base, buf))
    case BeginRelease(d) => SetD(s, d, Releasing(Dr(s, d).base, Dr(s, d).buf, 0)).(lock := Some(d))
    case ReleaseOne(d) =>
      var Releasing(base, buf, i) := Dr(s, d);
      var x := At(s, base + i);
      SetD(s, d, Releasing(base, buf, i + 1))
      .(slots := Put(s, base + i, Slot(EMPTY, x.ev.(spill := 0))), payloads := Forget(s.payloads, x.ev.spill))
    case EndRelease(d) =>
      var Releasing(base, buf, i) := Dr(s, d);
      SetD(s, d, Away).(readHead := base + |buf|, lock := None, active := None, retired := s.retired + [Released(buf)])
    case BeginAbort(d) => SetD(s, d, Aborting(Dr(s, d).base, Dr(s, d).buf, 0)).(lock := Some(d))
    case AbortOne(d) =>
      var Aborting(base, buf, i) := Dr(s, d);
      SetD(s, d, Aborting(base, buf, i + 1)).(slots := Put(s, base + i, At(s, base + i).(state := READY)))
    case EndAbort(d) => SetD(s, d, Away).(lock := None, active := None)
    case LockReclaim(d) => SetD(s, d, ReclaimLocked).(lock := Some(d))
    case ReadReclaim(d) => SetD(s, d, Reclaiming(s.writeHead))
    case Reclaim(d) =>
      var w := Dr(s, d).w;
      var t := SetD(s, d, Away).(lock := None, owner := None, slots := Put(s, w, At(s, w).(state := EMPTY)));
      if s.owner.Some? && Pr(s, s.owner.value).Stuck? then SetP(t, s.owner.value, Idle) else t
    case EndReclaim(d) => SetD(s, d, Away).(lock := None)
    case LockDrop(d) => SetD(s, d, DropLocked).(lock := Some(d))
    case ReadDropBase(d) => SetD(s, d, DropGotBase(s.readHead))
    case ReadDropLimit(d) => SetD(s, d, Dropping(Dr(s, d).base, s.writeHead, [])).(active := Some(d))
    case DropOne(d) =>
      var Dropping(base, w, gone) := Dr(s, d);
      var x := At(s, base + |gone|);
      SetD(s, d, Dropping(base, w, gone + [x.ev]))
      .(slots := Put(s, base + |gone|, Slot(EMPTY, x.ev.(spill := 0))), payloads := Forget(s.payloads, x.ev.spill))
    case EndDrop(d) =>
      var Dropping(base, w, gone) := Dr(s, d);
      SetD(s, d, Away).(readHead := if gone == [] then s.readHead else base + |gone|,
                        lock := None, active := None, retired := s.retired + [Dropped(gone)])
  }

  function Apply(s: State, step: Step): (s': State)
    requires 0 < s.cap == |s.slots|
    requires Enabled(NO_GUARDS, s, step)
    ensures s'.cap == s.cap && |s'.slots| == |s.slots|
  {
    if IsPublisher(step) then ApplyCall(s, step) else ApplyDrain(s, step)
  }

  /** The ring as shmem start-up leaves it: every slot zeroed, nobody running. */
  ghost predicate Init(s: State) {
    && 0 < s.cap == |s.slots|
    && (forall i :: 0 <= i < s.cap ==> s.slots[i].state == EMPTY)
    && s.writeHead == 0 && s.readHead == 0 && s.lock.None?
    && s.producers == map[] && s.drainers == map[]
    && s.log == [] && s.retired == [] && s.owner.None? && s.active.None? && s.payloads == map[]
  }

  /** `steps` can be taken one after the other from `s`. */
  ghost predicate Legal(g: Guards, s: State, steps: seq<Step>)
    requires 0 < s.cap == |s.slots|
    decreases |steps|
  {
    steps == [] || (Enabled(g, s, steps[0]) && Legal(g, Apply(s, steps[0]), steps[1..]))
  }

  ghost function After(g: Guards, s: State, steps: seq<Step>): (t: State)
    requires 0 < s.cap == |s.slots|
    requires Legal(g, s, steps)
    ensures 0 < t.cap == |t.slots|
    decreases |steps|
  {
    if steps == [] then s else After(g, Apply(s, steps[0]), steps[1..])
  }
}
