/**
 The cold-start load of storage_mode = 'shared' (src/persistence.c,
 pg_redis_persistence_load_if_needed). Any number of backends race on the
 `loaded` word: 0 is unloaded, 1 is loading, 2 is loaded. One step is one
 access to shared memory, so every interleaving of the source is a run here.

 Two facts that the source relies on but does not enforce are guards of the
 step relation: the watchdog resets the word only under a dead loader, and
 FLUSHALL stores 2 only when nobody is loading.
 */
module ColdStart {

  const UNLOADED := 0
  const LOADING := 1
  const LOADED := 2

  // PG_REDIS_LOAD_WATCHDOG_MS in microseconds, the unit of TimestampTz.
  const WATCHDOG := 30_000_000

  /** Where a backend is inside the polling loop. */
  datatype Phase =
    | Looping      // about to read `loaded`
    | SawUnloaded  // about to compare-and-swap 0 -> 1
    | SawLoading   // about to read `last_load_attempt`
    | Stale        // about to compare-and-swap 1 -> 0
    | Won          // loader, about to store its time stamp
    | Loading      // loader, inside the SPI load
    | Complete     // loader, about to store 2
    | Failing      // loader, about to store 0 and re-throw
    | Done         // returned; its process-local flag is set
    | Dead

  predicate IsLoader(p: Phase) {
    p.Won? || p.Loading? || p.Complete? || p.Failing?
  }

  /** `filled` remembers whether a load ever completed or a FLUSHALL emptied the tables. */
  datatype State = State(loaded: int, attempt: int, now: int, phases: seq<Phase>, filled: bool)

  datatype Step =
    | Tick(time: int)
    | Read(b: nat)
    | Claim(b: nat)
    | Stamp(b: nat)
    | Finish(b: nat)
    | Raise(b: nat)
    | Publish(b: nat)
    | Reset(b: nat)
    | CheckStamp(b: nat)
    | Steal(b: nat)
    | Die(b: nat)
    | FlushAll(b: nat)

  datatype Guards = Guards(deadLoader: bool, quietFlush: bool)

  const ALL_GUARDS := Guards(true, true)
  const NO_STEAL_GUARD := Guards(false, true)

  predicate LiveLoader(s: State) {
    exists b :: 0 <= b < |s.phases| && IsLoader(s.phases[b])
  }

  /** The control point from which a backend takes a step. */
  predicate At(st: Step, p: Phase) {
    match st
    case Tick(_) => false
    case Read(_) => p.Looping?
    case Claim(_) => p.SawUnloaded?
    case Stamp(_) => p.Won?
    case Finish(_) => p.Loading?
    case Raise(_) => p.Loading?
    case Publish(_) => p.Complete?
    case Reset(_) => p.Failing?
    case CheckStamp(_) => p.SawLoading?
    case Steal(_) => p.Stale?
    case Die(_) => !p.Done?
    case FlushAll(_) => p.Looping?
  }

  predicate Enabled(s: State, st: Step, g: Guards) {
    match st
    case Tick(t) => s.now < t
    case _ =>
      && st.b < |s.phases| && At(st, s.phases[st.b])
      && (st.Steal? && g.deadLoader && s.loaded == LOADING ==> !LiveLoader(s))
      && (st.FlushAll? && g.quietFlush ==> !LiveLoader(s))
  }

  function To(s: State, b: nat, p: Phase): State
    requires b < |s.phases|
  {
    s.(phases := s.phases[b := p])
  }

  function Apply(s: State, st: Step): State
    requires st.Tick? || st.b < |s.phases|
  {
    match st
    case Tick(t) => s.(now := t)
    case Read(b) => To(s, b, if s.loaded == LOADED then Done else if s.loaded == UNLOADED then SawUnloaded else SawLoading)
    case Claim(b) => if s.loaded == UNLOADED then To(s, b, Won).(loaded := LOADING) else To(s, b, Looping)
    case Stamp(b) => To(s, b, Loading).(attempt := s.now)
    case Finish(b) => To(s, b, Complete).(filled := true)
    case Raise(b) => To(s, b, Failing)
    case Publish(b) => To(s, b, Done).(loaded := LOADED)
    case Reset(b) => To(s, b, Looping).(loaded := UNLOADED)
    case CheckStamp(b) => To(s, b, if s.attempt != 0 && WATCHDOG <= s.now - s.attempt then Stale else Looping)
    case Steal(b) => To(s, b, Looping).(loaded := if s.loaded == LOADING then UNLOADED else s.loaded)
    case Die(b) => To(s, b, Dead)
    case FlushAll(b) => To(s, b, Done).(loaded := LOADED, filled := true)
  }

  predicate Legal(s: State, steps: seq<Step>, g: Guards)
    decreases |steps|
  {
    steps == [] || (Enabled(s, steps[0], g) && Legal(Apply(s, steps[0]), steps[1..], g))
  }

  function After(s: State, steps: seq<Step>, g: Guards): State
    requires Legal(s, steps, g)
    decreases |steps|
  {
    if steps == [] then s else After(Apply(s, steps[0]), steps[1..], g)
  }

  function Init(backends: nat, now: int): State {
    State(UNLOADED, 0, now, seq(backends, _ => Looping), false)
  }

  // ----- Safety -----

  /** A loader owns the word 1; 2 means the data are there; whoever returned still finds 2. */
  ghost predicate Inv(s: State) {
    && 0 < s.now
    && (s.loaded == UNLOADED || s.loaded == LOADING || s.loaded == LOADED)
    && (s.loaded == LOADED ==> s.filled)
    && (forall b :: 0 <= b < |s.phases| && IsLoader(s.phases[b]) ==> s.loaded == LOADING)
    && (forall b, c :: 0 <= b < |s.phases| && 0 <= c < |s.phases| && IsLoader(s.phases[b]) && IsLoader(s.phases[c]) ==> b == c)
    && (forall b :: 0 <= b < |s.phases| && s.phases[b].Complete? ==> s.filled)
    && (forall b :: 0 <= b < |s.phases| && s.phases[b].Done? ==> s.loaded == LOADED)
    && (forall b :: 0 <= b < |s.phases| && s.phases[b].Stale? ==> s.attempt != 0)
  }

  lemma InitInv(backends: nat, now: int)
    requires 0 < now
    ensures Inv(Init(backends, now))
  {
  }

  /** The loader's own steps; the word is 1 until it stores the outcome. */
  lemma LoaderStepInv(s: State, st: Step)
    requires Inv(s) && Enabled(s, st, ALL_GUARDS) && !st.Tick? && IsLoader(s.phases[st.b])
    ensures Inv(Apply(s, st)) && s.loaded == LOADING
  {
    var t := Apply(s, st);
    assert forall c :: 0 <= c < |s.phases| && c != st.b ==> t.phases[c] == s.phases[c] && !IsLoader(s.phases[c]);
  }

  lemma OtherStepInv(s: State, st: Step)
    requires Inv(s) && Enabled(s, st, ALL_GUARDS) && !st.Tick? && !IsLoader(s.phases[st.b])
    ensures Inv(Apply(s, st))
    ensures s.loaded == LOADED ==> Apply(s, st).loaded == LOADED
  {
    var t := Apply(s, st);
    assert forall c :: 0 <= c < |s.phases| && c != st.b ==> t.phases[c] == s.phases[c];
  }

  lemma StepInv(s: State, st: Step)
    requires Inv(s) && Enabled(s, st, ALL_GUARDS)
    ensures Inv(Apply(s, st))
    ensures s.loaded == LOADED ==> Apply(s, st).loaded == LOADED
  {
    if st.Tick? {
      assert Apply(s, st).phases == s.phases;
    } else if IsLoader(s.phases[st.b]) {
      LoaderStepInv(s, st);
    } else {
      OtherStepInv(s, st);
    }
  }

  /**
   In every run at most one live backend loads, 2 is stored only over loaded
   data, and from then on the word is 2 for good.
   */
  lemma {:induction false} RunInv(s: State, steps: seq<Step>)
    requires Inv(s) && Legal(s, steps, ALL_GUARDS)
    ensures Inv(After(s, steps, ALL_GUARDS))
    ensures s.loaded == LOADED ==> After(s, steps, ALL_GUARDS).loaded == LOADED
    decreases |steps|
  {
    if steps != [] {
      StepInv(s, steps[0]);
      RunInv(Apply(s, steps[0]), steps[1..]);
    }
  }

  // ----- Recovery from a dead loader -----

  /** The word says "loading" but no live backend is. */
  predicate Orphaned(s: State) {
    s.loaded == LOADING && !LiveLoader(s)
  }

  predicate NoFlushAll(steps: seq<Step>) {
    forall i :: 0 <= i < |steps| ==> !steps[i].FlushAll?
  }

  /** Without a time stamp the watchdog never fires: every backend polls for ever. */
  lemma {:induction false} UnstampedIsWedged(s: State, steps: seq<Step>)
    requires Inv(s) && Orphaned(s) && s.attempt == 0
    requires Legal(s, steps, ALL_GUARDS) && NoFlushAll(steps)
    ensures var t := After(s, steps, ALL_GUARDS); Orphaned(t) && t.attempt == 0
    decreases |steps|
  {
    if steps != [] {
      var t := Apply(s, steps[0]);
      StepInv(s, steps[0]);
      assert !steps[0].FlushAll?;
      assert Orphaned(t) && t.attempt == 0;
      UnstampedIsWedged(t, steps[1..]);
    }
  }

  lemma LegalCons(s: State, st: Step, rest: seq<Step>, g: Guards)
    requires Enabled(s, st, g) && Legal(Apply(s, st), rest, g)
    ensures Legal(s, [st] + rest, g) && After(s, [st] + rest, g) == After(Apply(s, st), rest, g)
  {
    assert ([st] + rest)[1..] == rest;
  }

  lemma {:induction false} LegalAppend(s: State, first: seq<Step>, second: seq<Step>, g: Guards)
    requires Legal(s, first, g) && Legal(After(s, first, g), second, g)
    ensures Legal(s, first + second, g) && After(s, first + second, g) == After(After(s, first, g), second, g)
    decreases |first|
  {
    if first == [] {
      assert first + second == second;
    } else {
      assert (first + second)[1..] == first[1..] + second;
      LegalAppend(Apply(s, first[0]), first[1..], second, g);
    }
  }

  /** From "unloaded", one looping backend completes the load. */
  lemma LoadCompletes(s: State, b: nat, g: Guards) returns (steps: seq<Step>)
    requires b < |s.phases| && s.phases[b].Looping? && s.loaded == UNLOADED
    ensures Legal(s, steps, g) && NoFlushAll(steps)
    ensures After(s, steps, g) == State(LOADED, s.now, s.now, s.phases[b := Done], true)
  {
    var s1 := Apply(s, Read(b));
    var s2 := Apply(s1, Claim(b));
    var s3 := Apply(s2, Stamp(b));
    var s4 := Apply(s3, Finish(b));
    LegalCons(s4, Publish(b), [], g);
    LegalCons(s3, Finish(b), [Publish(b)], g);
    LegalCons(s2, Stamp(b), [Finish(b)] + [Publish(b)], g);
    LegalCons(s1, Claim(b), [Stamp(b)] + ([Finish(b)] + [Publish(b)]), g);
    LegalCons(s, Read(b), [Claim(b)] + ([Stamp(b)] + ([Finish(b)] + [Publish(b)])), g);
    steps := [Read(b)] + ([Claim(b)] + ([Stamp(b)] + ([Finish(b)] + [Publish(b)])));
    assert Apply(s4, Publish(b)).phases == s.phases[b := Done];
  }

  lemma WatchdogRecovers(s: State, b: nat) returns (steps: seq<Step>)
    requires Inv(s) && Orphaned(s) && s.attempt != 0 && b < |s.phases| && s.phases[b].Looping?
    ensures Legal(s, steps, ALL_GUARDS) && NoFlushAll(steps)
    ensures After(s, steps, ALL_GUARDS).loaded == LOADED
  {
    var late := if s.now < s.attempt then s.attempt + WATCHDOG else s.now + WATCHDOG;
    var s1 := Apply(s, Tick(late));
    var s2 := Apply(s1, Read(b));
    var s3 := Apply(s2, CheckStamp(b));
    assert s3.phases[b].Stale? && !LiveLoader(s3);
    var s4 := Apply(s3, Steal(b));
    var rest := LoadCompletes(s4, b, ALL_GUARDS);
    LegalCons(s3, Steal(b), rest, ALL_GUARDS);
    LegalCons(s2, CheckStamp(b), [Steal(b)] + rest, ALL_GUARDS);
    LegalCons(s1, Read(b), [CheckStamp(b)] + ([Steal(b)] + rest), ALL_GUARDS);
    LegalCons(s, Tick(late), [Read(b)] + ([CheckStamp(b)] + ([Steal(b)] + rest)), ALL_GUARDS);
    steps := [Tick(late)] + ([Read(b)] + ([CheckStamp(b)] + ([Steal(b)] + rest)));
  }

  /**
   A dead loader can be replaced if and only if some loader once stored its
   time stamp: dying between the swap and the very first stamp is final.
   */
  lemma RecoverableIffStamped(s: State, b: nat)
    requires Inv(s) && Orphaned(s) && b < |s.phases| && s.phases[b].Looping?
    ensures (exists steps :: Legal(s, steps, ALL_GUARDS) && NoFlushAll(steps) && After(s, steps, ALL_GUARDS).loaded == LOADED)
      <==> s.attempt != 0
  {
    if s.attempt != 0 {
      var steps := WatchdogRecovers(s, b);
    } else {
      forall steps | Legal(s, steps, ALL_GUARDS) && NoFlushAll(steps)
        ensures After(s, steps, ALL_GUARDS).loaded != LOADED
      {
        UnstampedIsWedged(s, steps);
      }
    }
  }

  // ----- What a polling backend does -----

  /** The watchdog takes a loader for stale exactly when a stamp was stored and is at least thirty seconds old. */
  lemma WatchdogWaits(s: State, b: nat)
    requires Enabled(s, CheckStamp(b), ALL_GUARDS)
    ensures Apply(s, CheckStamp(b)).phases[b] == if s.attempt != 0 && s.attempt + 30_000_000 <= s.now then Stale else Looping
    ensures Apply(s, CheckStamp(b)).loaded == s.loaded
  {
  }

  /** A backend returns exactly when it reads 2, and becomes the loader exactly when its swap finds 0. */
  lemma PollingMeans(s: State, b: nat)
    requires b < |s.phases| && Inv(s)
    ensures s.phases[b].Looping? ==> (Apply(s, Read(b)).phases[b].Done? <==> s.loaded == 2) && Apply(s, Read(b)).loaded == s.loaded
    ensures s.phases[b].SawUnloaded? ==>
      && (IsLoader(Apply(s, Claim(b)).phases[b]) <==> s.loaded == 0)
      && Apply(s, Claim(b)).loaded == if s.loaded == 0 then 1 else s.loaded
    ensures s.phases[b].Won? ==> Apply(s, Stamp(b)).attempt == s.now
  {
  }

  /** No stamp younger than the watchdog time leads to a reset, unless a backend was already about to reset. */
  lemma {:induction false} PatientRun(s: State, steps: seq<Step>, g: Guards, stamp: int)
    requires Legal(s, steps, g) && s.attempt == stamp != 0 && After(s, steps, g).now < stamp + WATCHDOG
    requires forall b :: 0 <= b < |s.phases| ==> !s.phases[b].Stale?
    requires forall i :: 0 <= i < |steps| ==> !steps[i].Stamp?
    ensures forall i :: 0 <= i < |steps| ==> !steps[i].Steal?
    ensures forall b :: 0 <= b < |After(s, steps, g).phases| ==> !After(s, steps, g).phases[b].Stale?
    decreases |steps|
  {
    if steps != [] {
      var t := Apply(s, steps[0]);
      ClockRuns(t, steps[1..], g);
      PatientStep(s, steps[0], g, stamp);
      PatientRun(t, steps[1..], g, stamp);
      assert forall i :: 0 < i < |steps| ==> steps[i] == steps[1..][i - 1];
    }
  }

  lemma PatientStep(s: State, st: Step, g: Guards, stamp: int)
    requires Enabled(s, st, g) && !st.Stamp? && s.attempt == stamp != 0 && s.now < stamp + WATCHDOG
    requires forall b :: 0 <= b < |s.phases| ==> !s.phases[b].Stale?
    ensures !st.Steal? && Apply(s, st).attempt == stamp
    ensures forall b :: 0 <= b < |Apply(s, st).phases| ==> !Apply(s, st).phases[b].Stale?
  {
    if !st.Tick? {
      assert forall c :: 0 <= c < |s.phases| && c != st.b ==> Apply(s, st).phases[c] == s.phases[c];
    }
  }

  lemma {:induction false} ClockRuns(s: State, steps: seq<Step>, g: Guards)
    requires Legal(s, steps, g)
    ensures s.now <= After(s, steps, g).now
    decreases |steps|
  {
    if steps != [] {
      ClockRuns(Apply(s, steps[0]), steps[1..], g);
    }
  }

  // ----- What the guards decide -----

  ghost predicate TwoLoaders(s: State) {
    exists b, c :: 0 <= b < c < |s.phases| && IsLoader(s.phases[b]) && IsLoader(s.phases[c])
  }

  /** Some run has two backends load at once. */
  ghost predicate CanDouble(s: State) {
    exists steps :: Legal(s, steps, ALL_GUARDS) && TwoLoaders(After(s, steps, ALL_GUARDS))
  }

  /** Some run ends with another word than 2. */
  ghost predicate CanTakeBack(s: State) {
    exists steps :: Legal(s, steps, ALL_GUARDS) && After(s, steps, ALL_GUARDS).loaded != LOADED
  }

  /** The backend that has reset the word claims it next. */
  lemma ThiefClaims(s: State, b: nat) returns (steps: seq<Step>)
    requires b < |s.phases| && s.phases[b].Looping? && s.loaded == UNLOADED && LiveLoader(s)
    ensures Legal(s, steps, ALL_GUARDS) && TwoLoaders(After(s, steps, ALL_GUARDS))
  {
    var s1 := Apply(s, Read(b));
    var s2 := Apply(s1, Claim(b));
    LegalCons(s1, Claim(b), [], ALL_GUARDS);
    LegalCons(s, Read(b), [Claim(b)] + [], ALL_GUARDS);
    steps := [Read(b)] + ([Claim(b)] + []);
    var c :| 0 <= c < |s.phases| && IsLoader(s.phases[c]);
    assert IsLoader(s2.phases[b]) && IsLoader(s2.phases[c]) && b != c;
    assert TwoLoaders(s2);
  }

  /**
   After the watchdog has reset the word, some run has two backends load at once
   if and only if the loader it replaced is alive.
   */
  lemma StealDoublesIff(s: State, b: nat)
    requires Inv(s) && Enabled(s, Steal(b), Guards(false, false)) && s.loaded == LOADING
    ensures CanDouble(Apply(s, Steal(b))) <==> LiveLoader(s)
  {
    var t := Apply(s, Steal(b));
    if LiveLoader(s) {
      var c :| 0 <= c < |s.phases| && IsLoader(s.phases[c]);
      assert c != b && t.phases[c] == s.phases[c];
      assert LiveLoader(t);
      var steps := ThiefClaims(t, b);
      assert Legal(t, steps, ALL_GUARDS) && TwoLoaders(After(t, steps, ALL_GUARDS));
    } else {
      assert Enabled(s, Steal(b), ALL_GUARDS);
      StepInv(s, Steal(b));
      forall steps | Legal(t, steps, ALL_GUARDS)
        ensures !TwoLoaders(After(t, steps, ALL_GUARDS))
      {
        RunInv(t, steps);
      }
    }
  }

  /** A loader that may still fail. */
  predicate MayFail(p: Phase) {
    p.Won? || p.Loading? || p.Failing?
  }

  ghost predicate SomeMayFail(s: State) {
    exists c :: 0 <= c < |s.phases| && MayFail(s.phases[c])
  }

  /** 2 is stored and nobody can take it back. */
  ghost predicate Final(s: State) {
    s.loaded == LOADED && !SomeMayFail(s)
  }

  lemma FinalStep(s: State, st: Step, g: Guards)
    requires Final(s) && Enabled(s, st, g)
    ensures Final(Apply(s, st))
  {
    var t := Apply(s, st);
    if !st.Tick? {
      assert !MayFail(s.phases[st.b]);
      assert forall c :: 0 <= c < |t.phases| && c != st.b ==> t.phases[c] == s.phases[c] && !MayFail(s.phases[c]);
    }
  }

  lemma {:induction false} FinalRun(s: State, steps: seq<Step>, g: Guards)
    requires Final(s) && Legal(s, steps, g)
    ensures After(s, steps, g).loaded == LOADED
    decreases |steps|
  {
    if steps != [] {
      FinalStep(s, steps[0], g);
      FinalRun(Apply(s, steps[0]), steps[1..], g);
    }
  }

  /** A loader that is not complete fails and stores 0. */
  lemma LoaderTakesBack(s: State, c: nat) returns (steps: seq<Step>)
    requires c < |s.phases| && MayFail(s.phases[c])
    ensures Legal(s, steps, ALL_GUARDS) && After(s, steps, ALL_GUARDS).loaded == UNLOADED
    decreases if s.phases[c].Won? then 2 else if s.phases[c].Loading? then 1 else 0
  {
    if s.phases[c].Failing? {
      LegalCons(s, Reset(c), [], ALL_GUARDS);
      steps := [Reset(c)] + [];
    } else if s.phases[c].Loading? {
      var rest := LoaderTakesBack(Apply(s, Raise(c)), c);
      LegalCons(s, Raise(c), rest, ALL_GUARDS);
      steps := [Raise(c)] + rest;
    } else {
      var rest := LoaderTakesBack(Apply(s, Stamp(c)), c);
      LegalCons(s, Stamp(c), rest, ALL_GUARDS);
      steps := [Stamp(c)] + rest;
    }
  }

  /**
   After FLUSHALL has stored 2, some run takes it back if and only if a live
   loader has not yet completed its load; one that has can only store 2 again.
   */
  lemma FlushAllTakenBackIff(s: State, b: nat)
    requires Inv(s) && Enabled(s, FlushAll(b), Guards(false, false))
    ensures CanTakeBack(Apply(s, FlushAll(b))) <==> SomeMayFail(s)
  {
    var t := Apply(s, FlushAll(b));
    if SomeMayFail(s) {
      var c :| 0 <= c < |s.phases| && MayFail(s.phases[c]);
      assert t.phases[c] == s.phases[c];
      var steps := LoaderTakesBack(t, c);
    } else {
      assert forall c :: 0 <= c < |t.phases| ==> t.phases[c] == s.phases[c] || t.phases[c].Done?;
      assert Final(t);
      forall steps | Legal(t, steps, ALL_GUARDS)
        ensures After(t, steps, ALL_GUARDS).loaded == LOADED
      {
        FinalRun(t, steps, ALL_GUARDS);
      }
    }
  }

  // ----- Why the guard is needed -----

  /** The watchdog robs a loader `a` that has won the swap and not yet stored its own stamp. */
  lemma WinnerIsRobbed(s: State, a: nat, b: nat) returns (steps: seq<Step>)
    requires a < |s.phases| && b < |s.phases| && a != b && s.phases[a].Looping? && s.phases[b].Looping?
    requires s.loaded == UNLOADED && s.attempt != 0 && WATCHDOG <= s.now - s.attempt
    ensures Legal(s, steps, NO_STEAL_GUARD)
    ensures After(s, steps, NO_STEAL_GUARD) == s.(phases := s.phases[a := Won])
  {
    var g := NO_STEAL_GUARD;
    var s1 := Apply(s, Read(a));
    var s2 := Apply(s1, Claim(a));
    var s3 := Apply(s2, Read(b));
    var s4 := Apply(s3, CheckStamp(b));
    LegalCons(s4, Steal(b), [], g);
    LegalCons(s3, CheckStamp(b), [Steal(b)], g);
    LegalCons(s2, Read(b), [CheckStamp(b)] + [Steal(b)], g);
    LegalCons(s1, Claim(a), [Read(b)] + ([CheckStamp(b)] + [Steal(b)]), g);
    LegalCons(s, Read(a), [Claim(a)] + ([Read(b)] + ([CheckStamp(b)] + [Steal(b)])), g);
    steps := [Read(a)] + ([Claim(a)] + ([Read(b)] + ([CheckStamp(b)] + [Steal(b)])));
    assert Apply(s4, Steal(b)).phases == s.phases[a := Won];
  }

  /**
   The watchdog compares with the stamp of the previous attempt as long as
   the new loader has not stored its own, so it can fire on a loader that has
   only just won, however fast loads are: no time passes in this run. Two
   backends then load at once, and the failure of one takes back the 2 that
   the other had published.
   */
  lemma FreshLoaderIsRobbed(s: State, a: nat, b: nat) returns (steps: seq<Step>, more: seq<Step>)
    requires a < |s.phases| && b < |s.phases| && a != b && s.phases[a].Looping? && s.phases[b].Looping?
    requires s.loaded == UNLOADED && s.attempt != 0 && WATCHDOG <= s.now - s.attempt
    ensures Legal(s, steps, NO_STEAL_GUARD)
    ensures var t := After(s, steps, NO_STEAL_GUARD);
            && t.loaded == LOADED && t.phases == s.phases[a := Won][b := Done] && t.now == s.now
            && Legal(t, more, NO_STEAL_GUARD) && After(t, more, NO_STEAL_GUARD).loaded == UNLOADED
  {
    var g := NO_STEAL_GUARD;
    var first := WinnerIsRobbed(s, a, b);
    var t := After(s, first, g);
    var second := LoadCompletes(t, b, g);
    LegalAppend(s, first, second, g);
    steps := first + second;
    t := After(t, second, g);
    var t1 := Apply(t, Stamp(a));
    var t2 := Apply(t1, Raise(a));
    LegalCons(t2, Reset(a), [], g);
    LegalCons(t1, Raise(a), [Reset(a)], g);
    LegalCons(t, Stamp(a), [Raise(a)] + [Reset(a)], g);
    more := [Stamp(a)] + ([Raise(a)] + [Reset(a)]);
  }

  /** A first attempt that fails leaves its stamp behind. */
  lemma FailedAttemptStays(s: State, a: nat, late: int) returns (steps: seq<Step>)
    requires a < |s.phases| && s.phases[a].Looping? && s.loaded == UNLOADED && s.now < late
    ensures Legal(s, steps, NO_STEAL_GUARD)
    ensures After(s, steps, NO_STEAL_GUARD) == s.(attempt := s.now, now := late)
  {
    var g := NO_STEAL_GUARD;
    var s1 := Apply(s, Read(a));
    var s2 := Apply(s1, Claim(a));
    var s3 := Apply(s2, Stamp(a));
    var s4 := Apply(s3, Raise(a));
    var s5 := Apply(s4, Reset(a));
    LegalCons(s5, Tick(late), [], g);
    LegalCons(s4, Reset(a), [Tick(late)] + [], g);
    LegalCons(s3, Raise(a), [Reset(a)] + ([Tick(late)] + []), g);
    LegalCons(s2, Stamp(a), [Raise(a)] + ([Reset(a)] + ([Tick(late)] + [])), g);
    LegalCons(s1, Claim(a), [Stamp(a)] + ([Raise(a)] + ([Reset(a)] + ([Tick(late)] + []))), g);
    LegalCons(s, Read(a), [Claim(a)] + ([Stamp(a)] + ([Raise(a)] + ([Reset(a)] + ([Tick(late)] + [])))), g);
    steps := [Read(a)] + ([Claim(a)] + ([Stamp(a)] + ([Raise(a)] + ([Reset(a)] + ([Tick(late)] + [])))));
    assert s5.phases == s.phases;
  }

  /** The robbery happens in a run from the start of the cluster: one failed load, half a minute, two backends. */
  lemma RobbedFromTheStart(backends: nat, now: int) returns (steps: seq<Step>, more: seq<Step>)
    requires 2 <= backends && 0 < now
    ensures Legal(Init(backends, now), steps, NO_STEAL_GUARD)
    ensures var t := After(Init(backends, now), steps, NO_STEAL_GUARD);
            && t.loaded == LOADED && |t.phases| == backends && t.phases[1].Done?
            && Legal(t, more, NO_STEAL_GUARD) && After(t, more, NO_STEAL_GUARD).loaded == UNLOADED
  {
    var s := Init(backends, now);
    var first := FailedAttemptStays(s, 0, now + WATCHDOG);
    var t := After(s, first, NO_STEAL_GUARD);
    var second;
    second, more := FreshLoaderIsRobbed(t, 0, 1);
    LegalAppend(s, first, second, NO_STEAL_GUARD);
    steps := first + second;
  }
}
