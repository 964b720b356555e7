/**
 The life of an event from publication to retirement (src/dirty_ring.c and
 src/persistence.c:1305-1634): a call with room publishes, a collect takes all it
 may, plans that raise send the batch back, and only plans that succeeded let it
 be retired.
 */
module RingDrains {
  import opened Base
  import opened DirtyRing
  import opened RingSafety
  import opened RingGuards

  // ----- Publishing -----

  /** The ring is full for a call exactly when its position is outside [read_head, read_head + capacity). */
  lemma FullIff(s: State, p: Pid)
    requires 0 < s.cap == |s.slots| && Pr(s, p).SawWrite?
    ensures Pr(Apply(s, ReadRead(p)), p) ==
      if s.readHead <= Pr(s, p).w < s.readHead + s.cap then SawBoth(Pr(s, p).ev, Pr(s, p).w) else Full(Pr(s, p).ev)
  {
  }

  /** In any reachable state with room and no reservation, a call that runs on undisturbed publishes its event. */
  lemma PublishGoesThrough(s: State, p: Pid)
    requires Inv(s) && Pr(s, p).Trying? && s.owner.None? && s.writeHead < s.readHead + s.cap
    ensures var steps := [ReadWrite(p)] + ([ReadRead(p)] + ([Reserve(p)] + [Fill(p), Publish(p), Advance(p)]));
            && Legal(NO_GUARDS, s, steps)
            && var t := After(NO_GUARDS, s, steps);
               Pr(t, p).Idle? && t.log == s.log + [Pr(s, p).ev] && t.writeHead == s.writeHead + 1
  {
    var s1 := Apply(s, ReadWrite(p));
    StepInv(s, ReadWrite(p));
    var s2 := Apply(s1, ReadRead(p));
    FullIff(s1, p);
    StepInv(s1, ReadRead(p));
    assert At(s2, s.writeHead) == At(s, s.writeHead);
    AcknowledgedIsPublished(s2, p);
    RunHead(s2, [Reserve(p)] + [Fill(p), Publish(p), Advance(p)]);
    LegalCons(s1, ReadRead(p), [Reserve(p)] + [Fill(p), Publish(p), Advance(p)]);
    LegalCons(s, ReadWrite(p), [ReadRead(p)] + ([Reserve(p)] + [Fill(p), Publish(p), Advance(p)]));
  }

  lemma LegalCons(s: State, step: Step, rest: seq<Step>)
    requires 0 < s.cap == |s.slots| && Enabled(NO_GUARDS, s, step) && Legal(NO_GUARDS, Apply(s, step), rest)
    ensures Legal(NO_GUARDS, s, [step] + rest) && After(NO_GUARDS, s, [step] + rest) == After(NO_GUARDS, Apply(s, step), rest)
  {
    assert ([step] + rest)[1..] == rest;
  }

  /** The history and write_head grow together. */
  lemma {:induction false} RunHead(s: State, steps: seq<Step>)
    requires 0 < s.cap == |s.slots| && Legal(NO_GUARDS, s, steps)
    ensures var t := After(NO_GUARDS, s, steps); |t.log| - t.writeHead == |s.log| - s.writeHead
    decreases |steps|
  {
    if steps != [] {
      RunHead(Apply(s, steps[0]), steps[1..]);
    }
  }

  // ----- Collecting -----

  function Min(a: nat, b: nat): nat {
    if a < b then a else b
  }

  /** A collecting drainer that has taken the first `n` events of the window of `s`. */
  ghost predicate Took(s: State, t: State, d: Did, max: nat, n: nat)
    requires ShapeOk(s)
  {
    && t.log == s.log && t.readHead == s.readHead && t.writeHead == s.writeHead && t.active in {None, Some(d)}
    && n <= s.writeHead - s.readHead && Dr(t, d) == Collecting(max, s.readHead, s.writeHead, s.log[s.readHead..s.readHead + n])
  }

  lemma CollectBegins(s: State, d: Did, max: nat)
    requires Inv(s) && Dr(s, d).Away? && s.lock.None? && s.active.None?
    ensures var s1 := Apply(s, Lock(d, max));
            && Enabled(ALL_GUARDS, s, Lock(d, max)) && Enabled(ALL_GUARDS, s1, ReadBase(d))
            && Enabled(ALL_GUARDS, Apply(s1, ReadBase(d)), ReadLimit(d))
            && Took(s, Apply(Apply(s1, ReadBase(d)), ReadLimit(d)), d, max, 0)
            && Inv(Apply(Apply(s1, ReadBase(d)), ReadLimit(d)))
  {
    BeginEffect(s, d, max);
    var s1 := Apply(s, Lock(d, max));
    StepInv(s, Lock(d, max));
    var s2 := Apply(s1, ReadBase(d));
    StepInv(s1, ReadBase(d));
    StepInv(s2, ReadLimit(d));
  }

  lemma BeginEffect(s: State, d: Did, max: nat)
    requires ShapeOk(s) && Dr(s, d).Away? && s.lock.None? && s.active.None?
    ensures var s1 := Apply(s, Lock(d, max));
            && Enabled(ALL_GUARDS, s, Lock(d, max)) && Enabled(ALL_GUARDS, s1, ReadBase(d))
            && Enabled(ALL_GUARDS, Apply(s1, ReadBase(d)), ReadLimit(d))
            && Took(s, Apply(Apply(s1, ReadBase(d)), ReadLimit(d)), d, max, 0)
  {
    assert s.log[s.readHead..s.readHead + 0] == [];
  }

  lemma CollectEffect(s: State, t: State, d: Did, max: nat, n: nat)
    requires ShapeOk(s) && ShapeOk(t) && Took(s, t, d, max, n) && n < Min(max, s.writeHead - s.readHead)
    requires At(t, s.readHead + n).state == READY && At(t, s.readHead + n).ev == s.log[s.readHead + n]
    ensures Enabled(ALL_GUARDS, t, CollectOne(d)) && !Enabled(ALL_GUARDS, t, EndCollect(d))
    ensures Took(s, Apply(t, CollectOne(d)), d, max, n + 1)
  {
    var q := s.readHead + n;
    assert s.log[s.readHead..q] + [s.log[q]] == s.log[s.readHead..q + 1];
  }

  lemma CollectNext(s: State, t: State, d: Did, max: nat, n: nat)
    requires Inv(s) && Inv(t) && Took(s, t, d, max, n) && n < Min(max, s.writeHead - s.readHead)
    ensures Enabled(ALL_GUARDS, t, CollectOne(d)) && !Enabled(ALL_GUARDS, t, EndCollect(d))
    ensures Inv(Apply(t, CollectOne(d))) && Took(s, Apply(t, CollectOne(d)), d, max, n + 1)
  {
    ReadyNext(t, d);
    CollectEffect(s, t, d, max, n);
    CollectOneInv(t, d);
  }

  /** The next slot of a collector that is alone is READY and holds the next event of the history. */
  lemma ReadyNext(t: State, d: Did)
    requires CoreOk(t) && t.active in {None, Some(d)} && Dr(t, d).Collecting? && Dr(t, d).base + |Dr(t, d).buf| < t.writeHead
    ensures var q := Dr(t, d).base + |Dr(t, d).buf|; At(t, q).state == READY && At(t, q).ev == t.log[q]
  {
    var q := Dr(t, d).base + |Dr(t, d).buf|;
    assert DrainerOk(t, d);
    assert At(t, q).state == Expected(ActiveDrainer(t), q - t.readHead);
  }

  lemma CollectEnds(s: State, t: State, d: Did, max: nat) returns (u: State)
    requires ShapeOk(s) && ShapeOk(t) && Took(s, t, d, max, Min(max, s.writeHead - s.readHead))
    ensures Enabled(ALL_GUARDS, t, EndCollect(d)) && u == Apply(t, EndCollect(d))
    ensures var m := Min(max, s.writeHead - s.readHead);
            Dr(u, d) == if m == 0 then Away else Executing(s.readHead, s.log[s.readHead..s.readHead + m])
  {
    u := Apply(t, EndCollect(d));
  }

  /**
   A collect with nobody else's batch out takes the oldest events, as many as it
   may and as there are, in order, and cannot stop before.
   */
  lemma {:induction false} CollectTakesAll(s: State, t: State, d: Did, max: nat, n: nat) returns (steps: seq<Step>, u: State)
    requires Inv(s) && Inv(t) && Took(s, t, d, max, n) && n <= Min(max, s.writeHead - s.readHead)
    ensures Legal(ALL_GUARDS, t, steps) && After(ALL_GUARDS, t, steps) == u
    ensures var m := Min(max, s.writeHead - s.readHead);
            Dr(u, d) == if m == 0 then Away else Executing(s.readHead, s.log[s.readHead..s.readHead + m])
    decreases Min(max, s.writeHead - s.readHead) - n
  {
    if n == Min(max, s.writeHead - s.readHead) {
      u := CollectEnds(s, t, d, max);
      steps := [EndCollect(d)];
      Single(ALL_GUARDS, t, EndCollect(d));
    } else {
      CollectNext(s, t, d, max, n);
      var t' := Apply(t, CollectOne(d));
      var rest;
      rest, u := CollectTakesAll(s, t', d, max, n + 1);
      Single(ALL_GUARDS, t, CollectOne(d));
      Concat(ALL_GUARDS, t, [CollectOne(d)], rest);
      steps := [CollectOne(d)] + rest;
    }
  }

  // ----- Only plans that succeeded are retired -----

  /** The outcome of the last plans that drainer `d` ran. */
  function LastOutcome(steps: seq<Step>, d: Did, v: Option<bool>): Option<bool> {
    if steps == [] then v
    else LastOutcome(steps[1..], d, if steps[0].Execute? && steps[0].d == d then Some(steps[0].ok) else v)
  }

  predicate Judged(x: Drainer, v: Option<bool>) {
    && (x.Executed? || x.Releasing? ==> v == Some(true))
    && (x.Raised? || x.Aborting? ==> v == Some(false))
  }

  lemma JudgedStep(s: State, step: Step, d: Did, v: Option<bool>)
    requires 0 < s.cap == |s.slots| && Enabled(NO_GUARDS, s, step) && Judged(Dr(s, d), v)
    ensures Judged(Dr(Apply(s, step), d), if step.Execute? && step.d == d then Some(step.ok) else v)
  {
    if IsPublisher(step) {
      PublisherFrame(s, step);
    } else if step.d != d {
      OtherDrainerFrame(s, step, d);
    }
  }

  lemma {:induction false} JudgedRun(g: Guards, s: State, steps: seq<Step>, d: Did, v: Option<bool>)
    requires 0 < s.cap == |s.slots| && Legal(g, s, steps) && Judged(Dr(s, d), v)
    ensures Judged(Dr(After(g, s, steps), d), LastOutcome(steps, d, v))
    decreases |steps|
  {
    if steps != [] {
      JudgedStep(s, steps[0], d, v);
      JudgedRun(g, Apply(s, steps[0]), steps[1..], d, if steps[0].Execute? && steps[0].d == d then Some(steps[0].ok) else v);
    }
  }

  /**
   In every run from the start, guarded or not: a drainer that is about to release
   a batch, or to retire it, ran its last plans with success, and one that is
   about to abort it ran them with an error.
   */
  lemma ReleasedSucceeded(g: Guards, s0: State, steps: seq<Step>, d: Did)
    requires Init(s0) && Legal(g, s0, steps)
    ensures var t := After(g, s0, steps);
            && (Enabled(NO_GUARDS, t, BeginRelease(d)) ==> LastOutcome(steps, d, None) == Some(true))
            && (Enabled(NO_GUARDS, t, BeginAbort(d)) ==> LastOutcome(steps, d, None) == Some(false))
            && (Enabled(NO_GUARDS, t, EndRelease(d)) ==> LastOutcome(steps, d, None) == Some(true))
  {
    JudgedRun(g, s0, steps, d, None);
  }

  /** What is retired is the batch of those plans, and read_head moves past exactly it. */
  lemma RetiresItsBatch(s: State, d: Did)
    requires 0 < s.cap == |s.slots| && Enabled(NO_GUARDS, s, EndRelease(d))
    ensures var t, x := Apply(s, EndRelease(d)), Dr(s, d); t.retired == s.retired + [Released(x.buf)] && t.readHead == x.base + |x.buf|
  {
  }

  /** From the executing plans to the verdict the batch is the same. */
  lemma OutcomeKeepsBatch(s: State, d: Did, ok: bool)
    requires 0 < s.cap == |s.slots| && Dr(s, d).Executing?
    ensures var x := Dr(Apply(s, Execute(d, ok)), d); x.base == Dr(s, d).base && x.buf == Dr(s, d).buf
    ensures Enabled(NO_GUARDS, Apply(s, Execute(d, ok)), BeginRelease(d)) <==> ok && s.lock.None?
    ensures Enabled(NO_GUARDS, Apply(s, Execute(d, ok)), BeginAbort(d)) <==> !ok && s.lock.None?
  {
  }

  /** Plans that raise: until the abort is over nothing is retired, by anyone, and the batch cannot be released. */
  lemma RaisedIsNotRetired(s: State, d: Did, steps: seq<Step>)
    requires Inv(s) && Dr(s, d).Executing? && Legal(ALL_GUARDS, Apply(s, Execute(d, false)), steps) && EndAbort(d) !in steps
    ensures var t := After(ALL_GUARDS, Apply(s, Execute(d, false)), steps);
            t.retired == s.retired && t.readHead == s.readHead && !Enabled(NO_GUARDS, t, BeginRelease(d))
  {
    OutcomeKeepsBatch(s, d, false);
    StepInv(s, Execute(d, false));
    FailedUntilAbort(Apply(s, Execute(d, false)), steps, d);
  }

  /** And after the abort the events are READY at their positions and lead the next batch. */
  lemma RaisedComesBack(s: State, d: Did, s0: State, abort: seq<Step>, t0: State, t: State, later: seq<Step>, u: State, e: Did)
    requires Inv(s) && Dr(s, d).Executing? && s0 == Apply(s, Execute(d, false))
    requires Legal(ALL_GUARDS, s0, abort) && EndAbort(d) !in abort && t0 == After(ALL_GUARDS, s0, abort)
    requires Enabled(ALL_GUARDS, t0, EndAbort(d)) && t == Apply(t0, EndAbort(d))
    requires Legal(ALL_GUARDS, t, later) && NothingRetired(later) && u == After(ALL_GUARDS, t, later) && Outstanding(Dr(u, e)) != []
    ensures ReadyFrom(t, Dr(s, d).base, Dr(s, d).buf) && StartsWith(u, e, Dr(s, d).base, Dr(s, d).buf)
  {
    RaisedState(s, d, s0);
    AbortedComesBack(s0, d, abort, t0, t, later, u, e);
  }

  lemma RaisedState(s: State, d: Did, t: State)
    requires Inv(s) && Dr(s, d).Executing? && t == Apply(s, Execute(d, false))
    ensures Inv(t) && Dr(t, d) == Raised(Dr(s, d).base, Dr(s, d).buf)
  {
    StepInv(s, Execute(d, false));
  }
}
