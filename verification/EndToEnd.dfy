/**
 From commands to tables: atomic HSET and HDEL publish into the ring, drainers
 collect, execute and release batches, and each batch is six grouped plans. The
 batches that a run of the ring releases are one of the cuts of the log over
 which AtomicDrain speaks.
 */
module EndToEnd {
  import opened Base
  import opened Tables
  import opened AsyncDrain
  import opened AtomicEvents
  import opened AtomicDrain
  import R = DirtyRing
  import S = RingSafety

  /** What the drain makes of a batch of ring events. */
  function Decoded(decode: R.Event -> Change, evs: seq<R.Event>): seq<Change> {
    seq(|evs|, i requires 0 <= i < |evs| => decode(evs[i]))
  }

  function DecodedBatches(decode: R.Event -> Change, bs: seq<R.Batch>): seq<seq<Change>> {
    seq(|bs|, i requires 0 <= i < |bs| => Decoded(decode, bs[i].evs))
  }

  lemma {:induction false} BatchesJoin(decode: R.Event -> Change, bs: seq<R.Batch>)
    ensures Joined(DecodedBatches(decode, bs)) == Decoded(decode, S.Flatten(bs))
  {
    if bs != [] {
      var n := |bs| - 1;
      BatchesJoin(decode, bs[..n]);
      assert DecodedBatches(decode, bs)[..n] == DecodedBatches(decode, bs[..n]);
      assert Decoded(decode, S.Flatten(bs)) == Decoded(decode, S.Flatten(bs[..n])) + Decoded(decode, bs[n].evs);
    }
  }

  /**
   Run the ring from its start under the guards until it is empty, with nothing
   dropped, and let what it publishes decode to what HSET and HDEL published in a
   run of their own. Executing the released batches in order then goes through,
   and a field on which no command is under way is in the tables as it is in
   memory exactly under the condition of DrainAgreesIff, read on those batches.
   */
  lemma ReleasedBatchesAgreeIff(r0: R.State, ring: seq<R.Step>, decode: R.Event -> Change,
                                db0: Db, s: State, steps: seq<Step>, policy: Policy, kf: (Key, Field))
    requires R.Init(r0) && R.Legal(R.ALL_GUARDS, r0, ring)
    requires var r := R.After(R.ALL_GUARDS, r0, ring);
             && r.readHead == r.writeHead && (forall i :: 0 <= i < |r.retired| ==> r.retired[i].Released?)
    requires s.log == [] && Settled(s, db0) && Legal(s, steps, policy)
    requires Decoded(decode, R.After(R.ALL_GUARDS, r0, ring).log) == After(s, steps, policy).log
    requires !Pending(After(s, steps, policy), kf) && !Creating(After(s, steps, policy), kf.0)
    ensures var t, batches := After(s, steps, policy), DecodedBatches(decode, R.After(R.ALL_GUARDS, r0, ring).retired);
            && Drained(db0, batches).Some?
            && (CellAgrees(t, Drained(db0, batches).value, kf) <==>
                if Swallowed(batches, kf).Some? then InMemory(t.store, kf) == Swallowed(batches, kf)
                else !Lost(s, steps, policy, db0, kf, false))
            && (ParentAgrees(t, Drained(db0, batches).value, kf.0) <==> !Orphan(s, steps, policy, db0, kf.0, false))
  {
    var r := R.After(R.ALL_GUARDS, r0, ring);
    S.InitInv(r0);
    S.RunInv(r0, ring);
    assert r.log[..r.readHead] == r.log;
    BatchesJoin(decode, r.retired);
    DrainAgreesIff(db0, s, steps, policy, DecodedBatches(decode, r.retired), kf);
  }
}
