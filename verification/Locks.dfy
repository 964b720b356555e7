/**
 The LWLocks of pg_redis (src/shmem.c) as a state machine over any number of
 backends. A backend takes one lock at a time while it holds none (a key's
 partition, the ring consumer lock, the start-up lock, the snapshot lock), or,
 in FLUSHALL, all partition locks in ascending order, released in descending
 order. One step is one LWLockAcquire request, grant or LWLockRelease.
 */
module Locks {
  import opened Base

  // After the partition locks: the ring consumer, start-up and snapshot locks.
  const SINGLE_LOCKS := 3

  datatype Mode = Shared | Exclusive

  datatype Lock = Lock(owner: Option<nat>, readers: set<nat>)

  datatype Phase =
    | Idle
    | WantOne(lock: nat, mode: Mode)
    | HasOne(lock: nat, mode: Mode)
    | WantAll(next: nat)     // holds the partitions below `next` and asks for that one
    | DroppingAll(held: nat) // holds the partitions below `held`; all of them at first

  datatype State = State(partitions: nat, locks: seq<Lock>, procs: seq<Phase>)

  datatype Step =
    | AskOne(b: nat, lock: nat, mode: Mode)
    | TakeOne(b: nat)
    | DropOne(b: nat)
    | AskAll(b: nat)
    | TakeNext(b: nat)
    | DropLast(b: nat)

  /** pg_redis_partition_lock: the lock that guards a key. */
  function PartitionOf(hash: Bytes -> nat, key: Bytes, partitions: nat): (l: nat)
    requires 0 < partitions
    ensures l < partitions
  {
    hash(key) % partitions
  }

  predicate Grantable(l: Lock, mode: Mode) {
    l.owner.None? && (mode.Exclusive? ==> l.readers == {})
  }

  predicate Enabled(s: State, st: Step) {
    && st.b < |s.procs|
    && match st
       case AskOne(b, l, _) => s.procs[b].Idle? && l < |s.locks|
       case TakeOne(b) => s.procs[b].WantOne? && s.procs[b].lock < |s.locks| && Grantable(s.locks[s.procs[b].lock], s.procs[b].mode)
       case DropOne(b) => s.procs[b].HasOne? && s.procs[b].lock < |s.locks|
       case AskAll(b) => s.procs[b].Idle? && 0 < s.partitions
       case TakeNext(b) => s.procs[b].WantAll? && s.procs[b].next < |s.locks| && Grantable(s.locks[s.procs[b].next], Exclusive)
       case DropLast(b) => s.procs[b].DroppingAll? && 0 < s.procs[b].held <= |s.locks|
  }

  function To(s: State, b: nat, p: Phase): State
    requires b < |s.procs|
  {
    s.(procs := s.procs[b := p])
  }

  function Granted(l: Lock, b: nat, mode: Mode): Lock {
    if mode.Exclusive? then l.(owner := Some(b)) else l.(readers := l.readers + {b})
  }

  function Released(l: Lock, b: nat, mode: Mode): Lock {
    if mode.Exclusive? then l.(owner := None) else l.(readers := l.readers - {b})
  }

  function Apply(s: State, st: Step): State
    requires Enabled(s, st)
  {
    match st
    case AskOne(b, l, mode) => To(s, b, WantOne(l, mode))
    case TakeOne(b) =>
      var WantOne(l, mode) := s.procs[b];
      To(s, b, HasOne(l, mode)).(locks := s.locks[l := Granted(s.locks[l], b, mode)])
    case DropOne(b) =>
      var HasOne(l, mode) := s.procs[b];
      To(s, b, Idle).(locks := s.locks[l := Released(s.locks[l], b, mode)])
    case AskAll(b) => To(s, b, WantAll(0))
    case TakeNext(b) =>
      var i := s.procs[b].next;
      To(s, b, if i + 1 == s.partitions then DroppingAll(i + 1) else WantAll(i + 1))
      .(locks := s.locks[i := Granted(s.locks[i], b, Exclusive)])
    case DropLast(b) =>
      var i := s.procs[b].held - 1;
      To(s, b, if i == 0 then Idle else DroppingAll(i)).(locks := s.locks[i := Released(s.locks[i], b, Exclusive)])
  }

  function Init(partitions: nat, backends: nat): State {
    State(partitions, seq(partitions + SINGLE_LOCKS, _ => Lock(None, {})), seq(backends, _ => Idle))
  }

  // ----- The lock table says what the control points say -----

  predicate Owns(p: Phase, l: nat) {
    match p
    case HasOne(m, mode) => m == l && mode.Exclusive?
    case WantAll(i) => l < i
    case DroppingAll(i) => l < i
    case _ => false
  }

  predicate Reads(p: Phase, l: nat) {
    p == HasOne(l, Shared)
  }

  predicate Holds(p: Phase, l: nat) {
    Owns(p, l) || Reads(p, l)
  }

  predicate WaitsFor(p: Phase, l: nat) {
    (p.WantOne? && p.lock == l) || p == WantAll(l)
  }

  predicate PhaseOk(s: State, p: Phase) {
    match p
    case Idle => true
    case WantOne(l, _) => l < |s.locks|
    case HasOne(l, _) => l < |s.locks|
    case WantAll(i) => i < s.partitions
    case DroppingAll(i) => 0 < i <= s.partitions
  }

  ghost predicate LockOk(s: State, l: nat)
    requires l < |s.locks|
  {
    && (forall b :: 0 <= b < |s.procs| ==> (s.locks[l].owner == Some(b) <==> Owns(s.procs[b], l)))
    && (forall b :: 0 <= b < |s.procs| ==> (b in s.locks[l].readers <==> Reads(s.procs[b], l)))
    && (s.locks[l].owner.Some? ==> s.locks[l].owner.value < |s.procs| && s.locks[l].readers == {})
    && (forall b :: b in s.locks[l].readers ==> b < |s.procs|)
  }

  ghost predicate Inv(s: State) {
    && |s.locks| == s.partitions + SINGLE_LOCKS
    && (forall b :: 0 <= b < |s.procs| ==> PhaseOk(s, s.procs[b]))
    && (forall l :: 0 <= l < |s.locks| ==> LockOk(s, l))
  }

  lemma InitInv(partitions: nat, backends: nat)
    ensures Inv(Init(partitions, backends))
  {
    var s := Init(partitions, backends);
    assert forall l :: 0 <= l < |s.locks| ==> LockOk(s, l);
  }

  lemma StepInv(s: State, st: Step)
    requires Inv(s) && Enabled(s, st)
    ensures Inv(Apply(s, st))
  {
    var t := Apply(s, st);
    assert PhaseOk(s, s.procs[st.b]);
    forall l | 0 <= l < |t.locks|
      ensures LockOk(t, l)
    {
      StepLock(s, st, l);
    }
  }

  lemma StepLock(s: State, st: Step, l: nat)
    requires Inv(s) && Enabled(s, st) && l < |s.locks|
    ensures LockOk(Apply(s, st), l)
  {
    var t := Apply(s, st);
    assert LockOk(s, l) && PhaseOk(s, s.procs[st.b]);
    assert forall c :: 0 <= c < |s.procs| && c != st.b ==> t.procs[c] == s.procs[c];
  }

  /** A writer of a key is alone on that key's lock, and FLUSHALL is alone on every partition. */
  lemma MutualExclusion(s: State, b: nat, c: nat, l: nat)
    requires Inv(s) && b < |s.procs| && c < |s.procs| && l < |s.locks|
    requires Owns(s.procs[b], l) && Holds(s.procs[c], l)
    ensures b == c
  {
    assert LockOk(s, l);
  }

  /** While a backend writes a key, or FLUSHALL resets the keyspace, nobody else reads or writes that key. */
  lemma KeyExclusion(s: State, hash: Bytes -> nat, key: Bytes, b: nat, c: nat)
    requires Inv(s) && 0 < s.partitions && b < |s.procs| && c < |s.procs|
    requires var l := PartitionOf(hash, key, s.partitions);
             && (s.procs[b] == HasOne(l, Exclusive) || s.procs[b] == DroppingAll(s.partitions))
             && Holds(s.procs[c], l)
    ensures b == c
  {
    MutualExclusion(s, b, c, PartitionOf(hash, key, s.partitions));
  }

  /** A shared request is granted exactly when nobody owns the lock, an exclusive one when nobody holds it. */
  lemma GrantedIff(s: State, b: nat)
    requires Inv(s) && b < |s.procs| && s.procs[b].WantOne?
    ensures Enabled(s, TakeOne(b)) <==>
      forall c :: 0 <= c < |s.procs| ==> !(if s.procs[b].mode.Shared? then Owns(s.procs[c], s.procs[b].lock) else Holds(s.procs[c], s.procs[b].lock))
  {
    assert PhaseOk(s, s.procs[b]);
    var l := s.procs[b].lock;
    assert LockOk(s, l);
    if s.locks[l].owner.Some? {
      assert Owns(s.procs[s.locks[l].owner.value], l);
    } else if c :| c in s.locks[l].readers {
      assert Holds(s.procs[c], l);
    } else {
      assert s.locks[l].readers == {};
    }
  }

  // ----- No circular wait -----

  /** `b` asks for a lock that the lock table gives to `c`. */
  ghost predicate BlockedBy(s: State, b: nat, c: nat) {
    && b < |s.procs| && c < |s.procs|
    && exists l :: 0 <= l < |s.locks| && WaitsFor(s.procs[b], l) && (s.locks[l].owner == Some(c) || c in s.locks[l].readers)
  }

  function Next(k: nat, n: nat): nat {
    if k + 1 < n then k + 1 else 0
  }

  /** Each backend of the ring is blocked by the next one, the last one by the first. */
  ghost predicate Circular(s: State, ring: seq<nat>) {
    ring != [] && forall k :: 0 <= k < |ring| ==> BlockedBy(s, ring[k], ring[Next(k, |ring|)])
  }

  /** The lock that a waiting backend asks for; locks are ranked by their index. */
  function Wanted(p: Phase): int {
    match p
    case WantOne(l, _) => l
    case WantAll(l) => l
    case _ => -1
  }

  ghost function Rank(s: State, b: nat): int {
    if b < |s.procs| then Wanted(s.procs[b]) else -1
  }

  /** Who waits holds only lower locks. */
  lemma RankRises(s: State, b: nat, c: nat, d: nat)
    requires Inv(s) && BlockedBy(s, b, c) && BlockedBy(s, c, d)
    ensures Rank(s, b) < Rank(s, c)
  {
    var l :| 0 <= l < |s.locks| && WaitsFor(s.procs[b], l) && (s.locks[l].owner == Some(c) || c in s.locks[l].readers);
    assert LockOk(s, l);
    assert Holds(s.procs[c], l);
  }

  lemma {:induction false} WantedGrows(s: State, ring: seq<nat>, k: nat)
    requires Inv(s) && Circular(s, ring) && k < |ring|
    ensures Rank(s, ring[0]) + k <= Rank(s, ring[k])
  {
    if 0 < k {
      WantedGrows(s, ring, k - 1);
      assert Next(k - 1, |ring|) == k;
      RankRises(s, ring[k - 1], ring[k], ring[Next(k, |ring|)]);
    }
  }

  lemma NoCircularWait(s: State, ring: seq<nat>)
    requires Inv(s)
    ensures !Circular(s, ring)
  {
    if Circular(s, ring) {
      var n := |ring| - 1;
      assert Next(n, |ring|) == 0;
      RankRises(s, ring[n], ring[0], ring[Next(0, |ring|)]);
      WantedGrows(s, ring, n);
      assert false;
    }
  }

  // ----- No deadlock: what has begun always runs to its end -----

  /** A step that continues an operation already begun. */
  predicate Continues(st: Step) {
    !st.AskOne? && !st.AskAll?
  }

  /** Steps that a backend still has to make. */
  function Left(p: Phase, partitions: nat): int {
    match p
    case Idle => 0
    case WantOne(_, _) => 2
    case HasOne(_, _) => 1
    case WantAll(i) => 2 * partitions - i
    case DroppingAll(i) => i
  }

  function TotalLeft(procs: seq<Phase>, partitions: nat): int {
    if procs == [] then 0 else TotalLeft(procs[..|procs| - 1], partitions) + Left(procs[|procs| - 1], partitions)
  }

  lemma {:induction false} TotalOnUpdate(procs: seq<Phase>, b: nat, p: Phase, n: nat)
    requires b < |procs|
    ensures TotalLeft(procs[b := p], n) == TotalLeft(procs, n) - Left(procs[b], n) + Left(p, n)
    decreases |procs|
  {
    var m := |procs| - 1;
    if b < m {
      assert procs[b := p][..m] == procs[..m][b := p];
      TotalOnUpdate(procs[..m], b, p, n);
    } else {
      assert procs[b := p][..m] == procs[..m];
    }
  }

  /** Somebody who has begun can always move. The holder of the highest wanted lock is not waiting. */
  lemma SomebodyMoves(s: State, b: nat) returns (st: Step)
    requires Inv(s) && b < |s.procs| && !s.procs[b].Idle?
    ensures Continues(st) && Enabled(s, st)
    decreases |s.locks| - Wanted(s.procs[b]), if Wanted(s.procs[b]) < 0 then 0 else 1
  {
    assert PhaseOk(s, s.procs[b]);
    match s.procs[b]
    case HasOne(_, _) => st := DropOne(b);
    case DroppingAll(_) => st := DropLast(b);
    case WantOne(l, mode) =>
      if Grantable(s.locks[l], mode) {
        st := TakeOne(b);
      } else {
        st := HolderMoves(s, b, l);
      }
    case WantAll(l) =>
      if Grantable(s.locks[l], Exclusive) {
        st := TakeNext(b);
      } else {
        st := HolderMoves(s, b, l);
      }
  }

  lemma HolderMoves(s: State, b: nat, l: nat) returns (st: Step)
    requires Inv(s) && b < |s.procs| && l < |s.locks| && Wanted(s.procs[b]) == l && !Grantable(s.locks[l], Exclusive)
    ensures Continues(st) && Enabled(s, st)
    decreases |s.locks| - l, 0
  {
    assert LockOk(s, l);
    var c: nat;
    if s.locks[l].owner.Some? {
      c := s.locks[l].owner.value;
    } else {
      c :| c in s.locks[l].readers;
    }
    assert Holds(s.procs[c], l);
    if s.procs[c].HasOne? {
      st := DropOne(c);
    } else if s.procs[c].DroppingAll? {
      assert PhaseOk(s, s.procs[c]);
      st := DropLast(c);
    } else {
      assert l < Wanted(s.procs[c]);
      st := SomebodyMoves(s, c);
    }
  }

  lemma EachStepCounts(s: State, st: Step)
    requires Inv(s) && Enabled(s, st) && Continues(st)
    ensures TotalLeft(Apply(s, st).procs, s.partitions) == TotalLeft(s.procs, s.partitions) - 1
  {
    assert PhaseOk(s, s.procs[st.b]);
    TotalOnUpdate(s.procs, st.b, Apply(s, st).procs[st.b], s.partitions);
  }

  ghost predicate Legal(s: State, steps: seq<Step>)
    decreases |steps|
  {
    steps == [] || (Enabled(s, steps[0]) && Legal(Apply(s, steps[0]), steps[1..]))
  }

  ghost function After(s: State, steps: seq<Step>): State
    requires Legal(s, steps)
    decreases |steps|
  {
    if steps == [] then s else After(Apply(s, steps[0]), steps[1..])
  }

  lemma {:induction false} RunInv(s: State, steps: seq<Step>)
    requires Inv(s) && Legal(s, steps)
    ensures Inv(After(s, steps)) && |After(s, steps).procs| == |s.procs| && After(s, steps).partitions == s.partitions
    decreases |steps|
  {
    if steps != [] {
      StepInv(s, steps[0]);
      RunInv(Apply(s, steps[0]), steps[1..]);
    }
  }

  ghost predicate AllContinue(steps: seq<Step>) {
    forall i :: 0 <= i < |steps| ==> Continues(steps[i])
  }

  lemma {:induction false} RunCounts(s: State, steps: seq<Step>)
    requires Inv(s) && Legal(s, steps) && AllContinue(steps)
    ensures TotalLeft(After(s, steps).procs, s.partitions) == TotalLeft(s.procs, s.partitions) - |steps|
    decreases |steps|
  {
    if steps != [] {
      assert Continues(steps[0]);
      StepInv(s, steps[0]);
      EachStepCounts(s, steps[0]);
      RunCounts(Apply(s, steps[0]), steps[1..]);
    }
  }

  lemma {:induction false} TotalNonNegative(s: State, n: nat)
    requires Inv(s) && n <= |s.procs|
    ensures 0 <= TotalLeft(s.procs[..n], s.partitions)
    ensures (exists b :: 0 <= b < n && !s.procs[b].Idle?) <==> 0 < TotalLeft(s.procs[..n], s.partitions)
  {
    if 0 < n {
      TotalNonNegative(s, n - 1);
      assert s.procs[..n][..n - 1] == s.procs[..n - 1];
      assert PhaseOk(s, s.procs[n - 1]);
    }
  }

  /**
   No deadlock and no livelock: whichever way the scheduler chooses among the
   enabled steps, the operations under way finish after exactly as many steps
   as they have left, and short of that some step is always enabled.
   */
  lemma OperationsFinish(s: State, steps: seq<Step>)
    requires Inv(s) && Legal(s, steps) && AllContinue(steps)
    ensures var t := After(s, steps);
            && |steps| <= TotalLeft(s.procs, s.partitions)
            && ((forall b :: 0 <= b < |t.procs| ==> t.procs[b].Idle?) <==> |steps| == TotalLeft(s.procs, s.partitions))
            && (|steps| < TotalLeft(s.procs, s.partitions) ==> exists st :: Continues(st) && Enabled(t, st))
  {
    var t := After(s, steps);
    RunInv(s, steps);
    RunCounts(s, steps);
    TotalNonNegative(t, |t.procs|);
    assert t.procs[..|t.procs|] == t.procs;
    if |steps| < TotalLeft(s.procs, s.partitions) {
      var b :| 0 <= b < |t.procs| && !t.procs[b].Idle?;
      var st := SomebodyMoves(t, b);
    }
  }
}
