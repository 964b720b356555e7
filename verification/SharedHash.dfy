/**
 The DSA-backed per-key hash of storage_mode = 'shared' (src/shared_hash.c).

 The bucket array is updated in place; field and value bytes live in chunks of
 the shared arena. Two facts are kept through every operation, including its
 out-of-memory exits:
  - the buckets, read through the arena, are a well-formed probe table, so the
    object refines a plain map from field to value;
  - the arena holds the chunks of other owners, the table block and the chunks
    of occupied buckets, each exactly once.
 */
module SharedHash {
  import opened Base
  import opened Dsa
  import opened ProbeTable

  const INIT_BUCKETS := 16
  const GROW_NUM := 7
  const GROW_DEN := 10
  const SHRINK_NUM := 1
  const SHRINK_DEN := 8

  datatype Bucket =
    | EmptyBucket
    | TombstoneBucket
    | OccupiedBucket(fieldLen: nat, valueLen: nat, fieldDsa: Ptr, valueDsa: Ptr)

  datatype Lookup = Hit(idx: nat) | Free(idx: nat) | Saturated

  datatype SetResult = ValueTooLong | OutOfMemory | Stored(wasNew: bool)

  predicate ShouldGrow(occupied: int, tombstones: int, size: int) {
    (occupied + tombstones + 1) * GROW_DEN > size * GROW_NUM
  }

  predicate ShouldShrink(occupied: int, size: int) {
    size > INIT_BUCKETS && occupied * SHRINK_DEN < size * SHRINK_NUM
  }

  ghost predicate PowerOfTwo(n: nat) {
    n == 1 || (0 < n && n % 2 == 0 && PowerOfTwo(n / 2))
  }

  /** A table above the initial size can be halved. */
  lemma PowerOfTwoGap(n: nat)
    requires PowerOfTwo(n) && INIT_BUCKETS < n
    ensures 2 * INIT_BUCKETS <= n && PowerOfTwo(n / 2)
  {
    assert PowerOfTwo(n / 2 / 2);
    assert PowerOfTwo(n / 2 / 2 / 2);
    assert PowerOfTwo(n / 2 / 2 / 2 / 2);
  }

  /** What the commands check before they reach the table. */
  predicate ValidField(f: Bytes) {
    0 < |f| <= MAX_FIELD_SIZE
  }

  // ----- Reading buckets through the arena -----

  ghost predicate IsData(p: Ptr, len: nat, chunks: map<Ptr, Chunk>) {
    p in chunks && chunks[p].Data? && |chunks[p].bytes| == len
  }

  ghost predicate Resolves(b: Bucket, chunks: map<Ptr, Chunk>) {
    b.OccupiedBucket? ==>
      && b.fieldDsa != INVALID
      && IsData(b.fieldDsa, b.fieldLen, chunks)
      && ValidField(chunks[b.fieldDsa].bytes)
      && (b.valueDsa == INVALID <==> b.valueLen == 0)
      && (b.valueDsa != INVALID ==> IsData(b.valueDsa, b.valueLen, chunks))
  }

  ghost function SlotOf(b: Bucket, chunks: map<Ptr, Chunk>): (s: Slot)
    requires Resolves(b, chunks)
  {
    match b
    case EmptyBucket => Empty
    case TombstoneBucket => Tombstone
    case OccupiedBucket(_, _, f, v) =>
      Occupied(chunks[f].bytes, if v == INVALID then [] else chunks[v].bytes)
  }

  ghost predicate AllResolve(bs: seq<Bucket>, chunks: map<Ptr, Chunk>) {
    forall i :: 0 <= i < |bs| ==> Resolves(bs[i], chunks)
  }

  ghost function View(bs: seq<Bucket>, chunks: map<Ptr, Chunk>): (s: seq<Slot>)
    requires AllResolve(bs, chunks)
    ensures |s| == |bs|
    ensures forall i :: 0 <= i < |bs| ==> s[i] == SlotOf(bs[i], chunks)
  {
    seq(|bs|, i requires 0 <= i < |bs| => SlotOf(bs[i], chunks))
  }

  // ----- Ownership -----

  ghost function One(b: bool): nat {
    if b then 1 else 0
  }

  /** How often bucket `b` refers to chunk `p`. */
  ghost function Held(b: Bucket, p: Ptr): nat {
    One(b.OccupiedBucket? && b.fieldDsa == p) + One(b.OccupiedBucket? && b.valueDsa == p && p != INVALID)
  }

  ghost function Owned(bs: seq<Bucket>, p: Ptr): nat {
    if bs == [] then 0 else Owned(bs[..|bs| - 1], p) + Held(bs[|bs| - 1], p)
  }

  /**
   The live chunks are those of the other owners, the blocks `blocks` and the
   chunks that the buckets refer to, and each of them is owned exactly once.
   */
  ghost predicate OwnsExactly(blocks: set<Ptr>, bs: seq<Bucket>, chunks: map<Ptr, Chunk>, others: map<Ptr, Chunk>) {
    && (forall p {:trigger Owned(bs, p)} :: One(p in chunks) == One(p in others) + One(p in blocks) + Owned(bs, p))
    && forall p :: p in others && p in chunks ==> chunks[p] == others[p]
  }

  ghost predicate LoadOk(occupied: int, tombstones: int, size: int) {
    GROW_DEN * (occupied + tombstones) <= GROW_NUM * size
  }

  ghost predicate TableOk(hash: Bytes -> nat, occupied: int, tombstones: int, bs: seq<Bucket>, chunks: map<Ptr, Chunk>) {
    && INIT_BUCKETS <= |bs|
    && PowerOfTwo(|bs|)
    && AllResolve(bs, chunks)
    && WellFormed(hash, View(bs, chunks))
    && occupied == CountOccupied(View(bs, chunks))
    && tombstones == CountTombstones(View(bs, chunks))
    && LoadOk(occupied, tombstones, |bs|)
  }

  lemma {:induction false} HeldIsOwned(bs: seq<Bucket>, i: nat, p: Ptr)
    requires i < |bs|
    ensures Held(bs[i], p) <= Owned(bs, p)
  {
    var n := |bs| - 1;
    if i < n {
      assert bs[..n][i] == bs[i];
      HeldIsOwned(bs[..n], i, p);
    }
  }

  lemma {:induction false} TwoHeldAreOwned(bs: seq<Bucket>, i: nat, j: nat, p: Ptr)
    requires i < j < |bs|
    ensures Held(bs[i], p) + Held(bs[j], p) <= Owned(bs, p)
  {
    var n := |bs| - 1;
    assert bs[..n][i] == bs[i];
    if j < n {
      assert bs[..n][j] == bs[j];
      TwoHeldAreOwned(bs[..n], i, j, p);
    } else {
      HeldIsOwned(bs[..n], i, p);
    }
  }

  lemma {:induction false} OwnedOnUpdate(bs: seq<Bucket>, i: nat, b: Bucket, p: Ptr)
    requires i < |bs|
    ensures Owned(bs[i := b], p) + Held(bs[i], p) == Owned(bs, p) + Held(b, p)
  {
    var n := |bs| - 1;
    if i == n {
      assert bs[i := b][..n] == bs[..n];
    } else {
      assert bs[i := b][..n] == bs[..n][i := b];
      OwnedOnUpdate(bs[..n], i, b, p);
    }
  }

  lemma {:induction false} NothingOwned(bs: seq<Bucket>, p: Ptr)
    requires forall i :: 0 <= i < |bs| ==> !bs[i].OccupiedBucket?
    ensures Owned(bs, p) == 0
  {
    if bs != [] {
      NothingOwned(bs[..|bs| - 1], p);
    }
  }

  /** What one bucket holds is live, and no other bucket, block or owner holds it. */
  lemma HeldOnce(bs: seq<Bucket>, i: nat, p: Ptr, blocks: set<Ptr>, chunks: map<Ptr, Chunk>, others: map<Ptr, Chunk>)
    requires OwnsExactly(blocks, bs, chunks, others) && i < |bs| && 0 < Held(bs[i], p)
    ensures p in chunks && p !in others && p !in blocks && Held(bs[i], p) == 1
    ensures forall j :: 0 <= j < |bs| && j != i ==> Held(bs[j], p) == 0
  {
    HeldIsOwned(bs, i, p);
    forall j | 0 <= j < |bs| && j != i
      ensures Held(bs[j], p) == 0
    {
      TwoHeldAreOwned(bs, if i < j then i else j, if i < j then j else i, p);
    }
  }

  /** Buckets read the same while the chunks they hold stay. */
  lemma ViewFrame(bs: seq<Bucket>, chunks: map<Ptr, Chunk>, chunks': map<Ptr, Chunk>)
    requires AllResolve(bs, chunks)
    requires forall i, p :: 0 <= i < |bs| && 0 < Held(bs[i], p) && p in chunks ==> p in chunks' && chunks'[p] == chunks[p]
    ensures AllResolve(bs, chunks') && View(bs, chunks') == View(bs, chunks)
  {
    forall i | 0 <= i < |bs|
      ensures Resolves(bs[i], chunks') && SlotOf(bs[i], chunks') == SlotOf(bs[i], chunks)
    {
      assert Resolves(bs[i], chunks);
      if bs[i].OccupiedBucket? {
        assert 0 < Held(bs[i], bs[i].fieldDsa);
        assert bs[i].valueDsa != INVALID ==> 0 < Held(bs[i], bs[i].valueDsa);
      }
    }
  }

  /** One bucket changes, the others keep their chunks: the view changes in one slot. */
  lemma ViewOnUpdate(bs: seq<Bucket>, i: nat, b: Bucket, chunks: map<Ptr, Chunk>, chunks': map<Ptr, Chunk>)
    requires AllResolve(bs, chunks) && i < |bs| && Resolves(b, chunks')
    requires forall j, p :: 0 <= j < |bs| && j != i && 0 < Held(bs[j], p) && p in chunks
               ==> p in chunks' && chunks'[p] == chunks[p]
    ensures AllResolve(bs[i := b], chunks')
    ensures View(bs[i := b], chunks') == View(bs, chunks)[i := SlotOf(b, chunks')]
  {
    var rest := bs[i := EmptyBucket];
    assert forall j :: 0 <= j < |bs| && j != i ==> rest[j] == bs[j];
    assert AllResolve(rest, chunks);
    ViewFrame(rest, chunks, chunks');
    var bs' := bs[i := b];
    forall j | 0 <= j < |bs|
      ensures Resolves(bs'[j], chunks')
      ensures SlotOf(bs'[j], chunks') == View(bs, chunks)[i := SlotOf(b, chunks')][j]
    {
      if j != i {
        assert Resolves(rest[j], chunks');
        assert View(rest, chunks')[j] == View(rest, chunks)[j];
      }
    }
  }

  lemma LoadLeavesRoom(hash: Bytes -> nat, occupied: int, tombstones: int, bs: seq<Bucket>, chunks: map<Ptr, Chunk>)
    requires TableOk(hash, occupied, tombstones, bs, chunks)
    ensures exists i :: 0 <= i < |bs| && View(bs, chunks)[i].Empty?
  {
    EmptySlotExists(View(bs, chunks));
  }

  /**
   One bucket is replaced while the arena gains what the new bucket holds and
   loses what the old one held: ownership stays exact and one slot changes.
   */
  lemma ReplaceBucket(bs: seq<Bucket>, i: nat, b: Bucket, blocks: set<Ptr>,
                      chunks: map<Ptr, Chunk>, chunks': map<Ptr, Chunk>, others: map<Ptr, Chunk>)
    requires i < |bs| && AllResolve(bs, chunks) && OwnsExactly(blocks, bs, chunks, others)
    requires Resolves(b, chunks')
    requires forall p {:trigger Held(b, p)} :: One(p in chunks') + Held(bs[i], p) == One(p in chunks) + Held(b, p)
    requires forall p :: p in chunks && p in chunks' ==> chunks'[p] == chunks[p]
    ensures OwnsExactly(blocks, bs[i := b], chunks', others)
    ensures AllResolve(bs[i := b], chunks')
    ensures View(bs[i := b], chunks') == View(bs, chunks)[i := SlotOf(b, chunks')]
  {
    forall p
      ensures One(p in chunks') == One(p in others) + One(p in blocks) + Owned(bs[i := b], p)
      ensures p in others && p in chunks' ==> chunks'[p] == others[p]
    {
      OwnedOnUpdate(bs, i, b, p);
      HeldIsOwned(bs, i, p);
    }
    forall j, p | 0 <= j < |bs| && j != i && 0 < Held(bs[j], p) && p in chunks
      ensures p in chunks' && chunks'[p] == chunks[p]
    {
      HeldOnce(bs, j, p, blocks, chunks, others);
      assert Held(b, p) <= 2;
    }
    ViewOnUpdate(bs, i, b, chunks, chunks');
  }

  /** Filling a free bucket with two fresh chunks stores the field. */
  lemma BucketFilled(hash: Bytes -> nat, bs: seq<Bucket>, i: nat, field: Bytes, value: Bytes, b: Bucket, dsa: Ptr,
                     c0: map<Ptr, Chunk>, c: map<Ptr, Chunk>, others: map<Ptr, Chunk>)
    requires i < |bs| && AllResolve(bs, c0) && OwnsExactly({dsa}, bs, c0, others) && WellFormed(hash, View(bs, c0))
    requires !bs[i].OccupiedBucket? && !ProbeTable.Stored(View(bs, c0), field)
    requires Unbroken(View(bs, c0), Start(hash, field, |bs|), Dist(Start(hash, field, |bs|), i, |bs|))
    requires b.OccupiedBucket? && Resolves(b, c) && SlotOf(b, c) == Occupied(field, value)
    requires b.fieldDsa !in c0 && b.valueDsa !in c0 && b.fieldDsa != b.valueDsa
    requires c == if b.valueDsa == INVALID then c0[b.fieldDsa := Data(field)] else c0[b.fieldDsa := Data(field)][b.valueDsa := Data(value)]
    ensures OwnsExactly({dsa}, bs[i := b], c, others) && AllResolve(bs[i := b], c)
    ensures var s, s' := View(bs, c0), View(bs[i := b], c);
            && WellFormed(hash, s')
            && Contents(s') == Contents(s)[field := value]
            && CountOccupied(s') == CountOccupied(s) + 1
            && CountTombstones(s') == CountTombstones(s) - One(bs[i].TombstoneBucket?)
  {
    var s := View(bs, c0);
    assert s[i] == SlotOf(bs[i], c0);
    ReplaceBucket(bs, i, b, {dsa}, c0, c, others);
    StoreAt(hash, s, i, field, value);
    CountsOnUpdate(s, i, Occupied(field, value));
  }

  /** What the operations use about the bucket that holds `field`. */
  lemma BucketFacts(bs: seq<Bucket>, i: nat, field: Bytes, blocks: set<Ptr>, chunks: map<Ptr, Chunk>, others: map<Ptr, Chunk>)
    requires AllResolve(bs, chunks) && OwnsExactly(blocks, bs, chunks, others)
    requires Holds(View(bs, chunks), i, field)
    ensures bs[i].OccupiedBucket? && Resolves(bs[i], chunks) && chunks[bs[i].fieldDsa].bytes == field
    ensures bs[i].valueDsa != bs[i].fieldDsa
  {
    assert View(bs, chunks)[i] == SlotOf(bs[i], chunks) && Resolves(bs[i], chunks);
    FieldAndValueDiffer(bs, i, blocks, chunks, others);
  }

  /** Swapping the value chunk of a bucket overwrites the field and nothing else. */
  lemma BucketOverwritten(hash: Bytes -> nat, bs: seq<Bucket>, i: nat, field: Bytes, value: Bytes, p: Ptr, dsa: Ptr,
                          c0: map<Ptr, Chunk>, c: map<Ptr, Chunk>, others: map<Ptr, Chunk>)
    requires AllResolve(bs, c0) && OwnsExactly({dsa}, bs, c0, others) && WellFormed(hash, View(bs, c0))
    requires Holds(View(bs, c0), i, field) && bs[i].OccupiedBucket? && INVALID !in c0 && p !in c0
    requires p == INVALID <==> value == []
    requires c == (if p == INVALID then c0 else c0[p := Data(value)]) - {bs[i].valueDsa}
    ensures var b := bs[i].(valueDsa := p, valueLen := |value|);
            && OwnsExactly({dsa}, bs[i := b], c, others) && AllResolve(bs[i := b], c)
            && WellFormed(hash, View(bs[i := b], c))
            && Contents(View(bs[i := b], c)) == Contents(View(bs, c0))[field := value]
            && CountOccupied(View(bs[i := b], c)) == CountOccupied(View(bs, c0))
            && CountTombstones(View(bs[i := b], c)) == CountTombstones(View(bs, c0))
  {
    var b, s := bs[i].(valueDsa := p, valueLen := |value|), View(bs, c0);
    BucketFacts(bs, i, field, {dsa}, c0, others);
    FieldAndValueDiffer(bs, i, {dsa}, c0, others);
    ReplaceBucket(bs, i, b, {dsa}, c0, c, others);
    assert Reachable(hash, s, i);
    StoreAt(hash, s, i, field, value);
    CountsOnUpdate(s, i, Occupied(field, value));
  }

  /** Freeing both chunks behind a tombstone removes the field and nothing else. */
  lemma BucketErased(hash: Bytes -> nat, bs: seq<Bucket>, i: nat, field: Bytes, dsa: Ptr,
                     c0: map<Ptr, Chunk>, c: map<Ptr, Chunk>, others: map<Ptr, Chunk>)
    requires AllResolve(bs, c0) && OwnsExactly({dsa}, bs, c0, others) && WellFormed(hash, View(bs, c0))
    requires Holds(View(bs, c0), i, field) && bs[i].OccupiedBucket? && INVALID !in c0
    requires c == c0 - {bs[i].fieldDsa} - {bs[i].valueDsa}
    ensures var bs' := bs[i := TombstoneBucket];
            && OwnsExactly({dsa}, bs', c, others) && AllResolve(bs', c)
            && WellFormed(hash, View(bs', c))
            && Contents(View(bs', c)) == Contents(View(bs, c0)) - {field}
            && CountOccupied(View(bs', c)) == CountOccupied(View(bs, c0)) - 1
            && CountTombstones(View(bs', c)) == CountTombstones(View(bs, c0)) + 1
  {
    var s := View(bs, c0);
    BucketFacts(bs, i, field, {dsa}, c0, others);
    FieldAndValueDiffer(bs, i, {dsa}, c0, others);
    ReplaceBucket(bs, i, TombstoneBucket, {dsa}, c0, c, others);
    EraseAt(hash, s, i);
    CountsOnUpdate(s, i, Tombstone);
  }

  class HashTable {
    const bucketCount: nat
    const buckets: array<Bucket>
    var occupied: int
    var tombstones: int

    constructor (n: nat)
      ensures bucketCount == n == buckets.Length && fresh(buckets)
      ensures forall i :: 0 <= i < n ==> buckets[i] == EmptyBucket
      ensures occupied == 0 && tombstones == 0
    {
      bucketCount := n;
      buckets := new Bucket[n](_ => EmptyBucket);
      occupied, tombstones := 0, 0;
    }
  }

  /** The first `d` probes met occupied slots only: the next free one is the first on the chain. */
  ghost predicate AllOccupied(s: seq<Slot>, start: nat, d: nat)
    requires start < |s| && d <= |s|
  {
    forall k :: 0 <= k < d ==> s[Probe(start, k, |s|)].Occupied?
  }

  /** Linear-probe lookup. It may not assume a free slot: `Saturated` is the error exit. */
  method FindBucket(hash: Bytes -> nat, t: HashTable, arena: Arena, field: Bytes) returns (r: Lookup)
    requires 0 < t.bucketCount == t.buckets.Length
    requires AllResolve(t.buckets[..], arena.chunks)
    requires WellFormed(hash, View(t.buckets[..], arena.chunks))
    ensures var s := View(t.buckets[..], arena.chunks);
            match r
            case Hit(i) => Holds(s, i, field)
            case Free(i) =>
              && i < |s| && !s[i].Occupied? && !ProbeTable.Stored(s, field)
              && Unbroken(s, Start(hash, field, |s|), Dist(Start(hash, field, |s|), i, |s|))
              && AllOccupied(s, Start(hash, field, |s|), Dist(Start(hash, field, |s|), i, |s|))
            case Saturated => !ProbeTable.Stored(s, field) && forall i :: 0 <= i < |s| ==> s[i].Occupied?
  {
    var n := t.bucketCount;
    ghost var bs := t.buckets[..];
    ghost var s := View(bs, arena.chunks);
    ghost var st := Start(hash, field, n);
    var idx := hash(field) % n;
    var firstTomb := -1;
    var probes := 0;
    while probes < n
      invariant probes <= n
      invariant idx == if probes < n then Probe(st, probes, n) else st
      invariant Searched(s, st, field, probes)
      invariant -1 <= firstTomb < n
      invariant 0 <= firstTomb ==> s[firstTomb].Tombstone? && Dist(st, firstTomb, n) < probes
      invariant AllOccupied(s, st, if 0 <= firstTomb then Dist(st, firstTomb, n) else probes)
    {
      var b := t.buckets[idx];
      assert b == bs[idx] && Resolves(b, arena.chunks) && s[idx] == SlotOf(b, arena.chunks);
      assert Dist(st, idx, n) == probes;
      if b.EmptyBucket? {
        MissIsAbsent(hash, s, field, probes);
        return Free(if 0 <= firstTomb then firstTomb else idx);
      }
      if b.TombstoneBucket? {
        if firstTomb < 0 {
          firstTomb := idx;
        }
      } else if b.fieldLen == |field| && arena.chunks[b.fieldDsa].bytes == field {
        return Hit(idx);
      }
      idx := if idx + 1 == n then 0 else idx + 1;
      probes := probes + 1;
    }
    FullRound(s, st, field);
    if 0 <= firstTomb {
      return Free(firstTomb);
    }
    forall i | 0 <= i < n
      ensures s[i].Occupied?
    {
      assert s[i] == s[Probe(st, Dist(st, i, n), n)];
    }
    return Saturated;
  }

  /** Reassign an existing (field, value) chunk pair to a slot of `t`; no bytes are copied. */
  method InsertOwned(hash: Bytes -> nat, t: HashTable, arena: Arena, b: Bucket)
    requires 0 < t.bucketCount == t.buckets.Length
    requires AllResolve(t.buckets[..], arena.chunks)
    requires WellFormed(hash, View(t.buckets[..], arena.chunks))
    requires CountOccupied(View(t.buckets[..], arena.chunks)) + CountTombstones(View(t.buckets[..], arena.chunks)) < t.bucketCount
    requires b.OccupiedBucket? && Resolves(b, arena.chunks)
    requires !ProbeTable.Stored(View(t.buckets[..], arena.chunks), SlotOf(b, arena.chunks).field)
    modifies t, t.buckets
    ensures AllResolve(t.buckets[..], arena.chunks)
    ensures var s, s', x := old(View(t.buckets[..], arena.chunks)), View(t.buckets[..], arena.chunks), SlotOf(b, arena.chunks);
            && WellFormed(hash, s')
            && Contents(s') == Contents(s)[x.field := x.value]
            && CountOccupied(s') == CountOccupied(s) + 1
            && t.occupied == old(t.occupied) + 1
            && t.tombstones - CountTombstones(s') == old(t.tombstones) - CountTombstones(s)
            && CountTombstones(s') <= CountTombstones(s)
    ensures forall p :: Owned(t.buckets[..], p) == Owned(old(t.buckets[..]), p) + Held(b, p)
  {
    ghost var bs := t.buckets[..];
    ghost var s := View(bs, arena.chunks);
    ghost var x := SlotOf(b, arena.chunks);
    EmptySlotExists(s);
    var r := FindBucket(hash, t, arena, arena.chunks[b.fieldDsa].bytes);
    var idx := r.idx;
    if t.buckets[idx].TombstoneBucket? {
      t.tombstones := t.tombstones - 1;
    }
    assert s[idx] == SlotOf(bs[idx], arena.chunks);
    t.buckets[idx] := b;
    t.occupied := t.occupied + 1;
    assert t.buckets[..] == bs[idx := b];
    ViewOnUpdate(bs, idx, b, arena.chunks, arena.chunks);
    StoreAt(hash, s, idx, x.field, x.value);
    CountsOnUpdate(s, idx, x);
    forall p
      ensures Owned(t.buckets[..], p) == Owned(bs, p) + Held(b, p)
    {
      OwnedOnUpdate(bs, idx, b, p);
    }
  }

  /** The part of the old table already moved has the same contents as the new table. */
  ghost predicate Moved(hash: Bytes -> nat, done: seq<Bucket>, occupied: int, tombstones: int, bs: seq<Bucket>, chunks: map<Ptr, Chunk>) {
    && AllResolve(done, chunks) && AllResolve(bs, chunks)
    && WellFormed(hash, View(bs, chunks))
    && Contents(View(bs, chunks)) == Contents(View(done, chunks))
    && occupied == CountOccupied(View(bs, chunks)) == CountOccupied(View(done, chunks))
    && tombstones == CountTombstones(View(bs, chunks)) == 0
    && forall p :: Owned(bs, p) == Owned(done, p)
  }

  lemma DistinctPrefix(s: seq<Slot>, n: nat)
    requires Distinct(s) && n <= |s|
    ensures Distinct(s[..n])
  {
  }

  lemma {:induction false} OccupiedPrefix(s: seq<Slot>, n: nat)
    requires n <= |s|
    ensures CountOccupied(s[..n]) <= CountOccupied(s)
    decreases |s|
  {
    if n < |s| {
      assert s[..|s| - 1][..n] == s[..n];
      OccupiedPrefix(s[..|s| - 1], n);
    } else {
      assert s[..n] == s;
    }
  }

  lemma NextOwned(bs: seq<Bucket>, i: nat)
    requires i < |bs|
    ensures forall p :: Owned(bs[..i + 1], p) == Owned(bs[..i], p) + Held(bs[i], p)
  {
    assert bs[..i + 1][..i] == bs[..i];
  }

  lemma NextView(bs: seq<Bucket>, i: nat, chunks: map<Ptr, Chunk>)
    requires i < |bs| && AllResolve(bs, chunks) && Distinct(View(bs, chunks))
    ensures AllResolve(bs[..i], chunks) && AllResolve(bs[..i + 1], chunks)
    ensures View(bs[..i], chunks) == View(bs, chunks)[..i] && View(bs[..i + 1], chunks) == View(bs, chunks)[..i + 1]
    ensures View(bs[..i + 1], chunks) == View(bs[..i], chunks) + [SlotOf(bs[i], chunks)]
  {
  }

  /** Facts about moving one more bucket. */
  lemma NextBucket(bs: seq<Bucket>, i: nat, chunks: map<Ptr, Chunk>)
    requires i < |bs| && AllResolve(bs, chunks) && Distinct(View(bs, chunks))
    ensures AllResolve(bs[..i], chunks) && AllResolve(bs[..i + 1], chunks)
    ensures var s, s', x := View(bs[..i], chunks), View(bs[..i + 1], chunks), SlotOf(bs[i], chunks);
            && s' == s + [x] && Distinct(s')
            && CountOccupied(s') == CountOccupied(s) + One(x.Occupied?) <= CountOccupied(View(bs, chunks))
            && (x.Occupied? ==> !ProbeTable.Stored(s, x.field) && Contents(s') == Contents(s)[x.field := x.value])
            && (!x.Occupied? ==> Contents(s') == Contents(s))
    ensures forall p :: Owned(bs[..i + 1], p) == Owned(bs[..i], p) + Held(bs[i], p)
  {
    var v := View(bs, chunks);
    var s, s', x := View(bs[..i], chunks), View(bs[..i + 1], chunks), SlotOf(bs[i], chunks);
    NextView(bs, i, chunks);
    DistinctPrefix(v, i + 1);
    ContentsOfSnoc(s, x);
    assert s'[..i] == s;
    OccupiedPrefix(v, i + 1);
    NextOwned(bs, i);
  }

  /** The copying loop of the rehash. */
  method MoveBuckets(hash: Bytes -> nat, t: HashTable, u: HashTable, arena: Arena)
    requires t != u && t.buckets != u.buckets && t.bucketCount == t.buckets.Length && u.bucketCount == u.buckets.Length
    requires AllResolve(t.buckets[..], arena.chunks) && WellFormed(hash, View(t.buckets[..], arena.chunks))
    requires CountOccupied(View(t.buckets[..], arena.chunks)) < u.bucketCount
    requires Moved(hash, [], u.occupied, u.tombstones, u.buckets[..], arena.chunks)
    modifies u, u.buckets
    ensures Moved(hash, t.buckets[..], u.occupied, u.tombstones, u.buckets[..], arena.chunks)
  {
    ghost var bs, c := t.buckets[..], arena.chunks;
    var i := 0;
    while i < t.bucketCount
      invariant i <= t.bucketCount
      invariant arena.chunks == c && t.buckets[..] == bs
      invariant Moved(hash, bs[..i], u.occupied, u.tombstones, u.buckets[..], c)
    {
      NextBucket(bs, i, c);
      var b := t.buckets[i];
      assert b == bs[i] && Resolves(b, c);
      if b.OccupiedBucket? {
        assert SlotOf(b, c).field !in Contents(View(u.buckets[..], c));
        InsertOwned(hash, u, arena, b);
      }
      i := i + 1;
    }
    assert bs[..i] == bs;
  }

  /** Freeing the old block leaves the moved table valid and its chunks owned by the new block. */
  lemma OldBlockFreed(hash: Bytes -> nat, bs: seq<Bucket>, us: seq<Bucket>, oldDsa: Ptr, newDsa: Ptr,
                      c0: map<Ptr, Chunk>, c: map<Ptr, Chunk>, others: map<Ptr, Chunk>, occupied: int, tombstones: int)
    requires OwnsExactly({oldDsa}, bs, c0, others) && newDsa !in c0 && c == c0[newDsa := TableBlock]
    requires Moved(hash, bs, occupied, tombstones, us, c)
    ensures oldDsa in c && OwnsExactly({newDsa}, us, c - {oldDsa}, others)
    ensures AllResolve(us, c - {oldDsa}) && View(us, c - {oldDsa}) == View(us, c)
  {
    var c' := c - {oldDsa};
    assert One(oldDsa in c0) == One(oldDsa in others) + One(oldDsa in {oldDsa}) + Owned(bs, oldDsa);
    forall p
      ensures One(p in c') == One(p in others) + One(p in {newDsa}) + Owned(us, p)
    {
      assert One(p in c0) == One(p in others) + One(p in {oldDsa}) + Owned(bs, p);
    }
    forall j, p | 0 <= j < |us| && 0 < Held(us[j], p) && p in c
      ensures p in c' && c'[p] == c[p]
    {
      HeldIsOwned(us, j, p);
    }
    ViewFrame(us, c, c');
  }

  /**
   Rehash into a fresh table of `newSize` buckets. The field and value chunks
   change hands without being copied, and only the old block is freed.
   */
  method Rehash(hash: Bytes -> nat, oldDsa: Ptr, t: HashTable, newSize: nat, arena: Arena, ghost others: map<Ptr, Chunk>)
    returns (newDsa: Ptr, u: HashTable)
    requires arena.Valid() && t.bucketCount == t.buckets.Length
    requires TableOk(hash, t.occupied, t.tombstones, t.buckets[..], arena.chunks)
    requires OwnsExactly({oldDsa}, t.buckets[..], arena.chunks, others)
    requires INIT_BUCKETS <= newSize && PowerOfTwo(newSize) && LoadOk(t.occupied, 0, newSize)
    modifies arena
    ensures arena.Valid()
    ensures arena.failures == old(arena.failures) + One(newDsa == INVALID)
    ensures newDsa == INVALID ==> arena.chunks == old(arena.chunks)
    ensures newDsa != INVALID ==>
      && fresh(u) && fresh(u.buckets) && u.bucketCount == u.buckets.Length == newSize
      && TableOk(hash, u.occupied, u.tombstones, u.buckets[..], arena.chunks)
      && OwnsExactly({newDsa}, u.buckets[..], arena.chunks, others)
      && Contents(View(u.buckets[..], arena.chunks)) == old(Contents(View(t.buckets[..], arena.chunks)))
      && u.occupied == t.occupied && u.tombstones == 0
  {
    ghost var bs, c0 := t.buckets[..], arena.chunks;
    u := t;
    newDsa := arena.Alloc(TableBlock);
    if newDsa == INVALID {
      return;
    }
    u := new HashTable(newSize);
    ghost var c := arena.chunks;
    ViewFrame(bs, c0, c);
    EmptyTable(hash, u.buckets[..], c);
    ContentsUnique(View([], c), map[]);
    MoveBuckets(hash, t, u, arena);
    OldBlockFreed(hash, bs, u.buckets[..], oldDsa, newDsa, c0, c, others, u.occupied, u.tombstones);
    arena.Free(oldDsa);
  }

  lemma EmptyTable(hash: Bytes -> nat, bs: seq<Bucket>, chunks: map<Ptr, Chunk>)
    requires forall i :: 0 <= i < |bs| ==> bs[i] == EmptyBucket
    ensures AllResolve(bs, chunks) && WellFormed(hash, View(bs, chunks)) && Contents(View(bs, chunks)) == map[]
    ensures CountOccupied(View(bs, chunks)) == CountTombstones(View(bs, chunks)) == 0
    ensures forall p :: Owned(bs, p) == 0
  {
    AllEmpty(hash, View(bs, chunks));
    AllEmptyCounts(View(bs, chunks));
    forall p
      ensures Owned(bs, p) == 0
    {
      NothingOwned(bs, p);
    }
  }

  /** pg_redis_shared_hash_free: both chunks of each occupied bucket, then the block. */
  method FreeTable(dsa: Ptr, t: HashTable, arena: Arena, ghost others: map<Ptr, Chunk>)
    requires arena.Valid() && t.bucketCount == t.buckets.Length
    requires AllResolve(t.buckets[..], arena.chunks)
    requires OwnsExactly({dsa}, t.buckets[..], arena.chunks, others)
    modifies arena
    ensures arena.Valid() && arena.chunks == others && arena.failures == old(arena.failures)
  {
    ghost var bs := t.buckets[..];
    var i := 0;
    assert bs[0..] == bs;
    while i < t.bucketCount
      invariant i <= t.bucketCount && arena.Valid() && arena.failures == old(arena.failures)
      invariant AllResolve(bs[i..], arena.chunks)
      invariant OwnsExactly({dsa}, bs[i..], arena.chunks, others)
    {
      var b := t.buckets[i];
      FirstBucketFreed(bs[i..], dsa, arena.chunks, others);
      assert bs[i..][0] == b && bs[i..][1..] == bs[i + 1..];
      if b.OccupiedBucket? {
        arena.Free(b.fieldDsa);
        arena.Free(b.valueDsa);
      }
      i := i + 1;
    }
    assert bs[i..] == [];
    ghost var c := arena.chunks;
    assert forall p :: Owned([], p) == 0 && One(p in c) == One(p in others) + One(p in {dsa}) + Owned(bs[i..], p);
    arena.Free(dsa);
  }

  /** The size after an insertion: doubled exactly when one more slot would pass seven tenths. */
  ghost predicate Grown(occupied: int, tombstones: int, size: int, size': int) {
    size' == if 10 * (occupied + tombstones + 1) > 7 * size then 2 * size else size
  }

  /** The size after a removal: halved when fewer than one in eight buckets are left occupied, but not below sixteen. */
  ghost predicate Shrunk(occupied: int, size: int, size': int, failed: bool) {
    if 16 < size && 8 * occupied < size && !failed then 2 * size' == size else size' == size
  }

  /** The slot of a shared entry that points at its table (`value.hash.table`). */
  class SharedHash {
    const hash: Bytes -> nat
    const arena: Arena
    var tableDsa: Ptr
    var table: HashTable?

    /** `others` are the chunks of every other owner of the arena. */
    ghost predicate Valid(others: map<Ptr, Chunk>)
      reads this, arena, table, if table == null then {} else {table.buckets}
    {
      && arena.Valid()
      && (tableDsa == INVALID <==> table == null)
      && (table == null ==> arena.chunks == others)
      && (table != null ==>
            && table.bucketCount == table.buckets.Length
            && TableOk(hash, table.occupied, table.tombstones, table.buckets[..], arena.chunks)
            && OwnsExactly({tableDsa}, table.buckets[..], arena.chunks, others))
    }

    /** The map this table refines. */
    ghost function Fields(): map<Bytes, Bytes>
      requires table != null ==> AllResolve(table.buckets[..], arena.chunks)
      reads this, arena, table, if table == null then {} else {table.buckets}
    {
      if table == null then map[] else Contents(View(table.buckets[..], arena.chunks))
    }

    ghost function Footprint(): set<object>
      reads this
    {
      {this, arena} + if table == null then {} else {table, table.buckets}
    }

    constructor (hash: Bytes -> nat, arena: Arena)
      requires arena.Valid()
      ensures this.hash == hash && this.arena == arena && table == null
      ensures Valid(arena.chunks) && Fields() == map[]
    {
      this.hash, this.arena, tableDsa, table := hash, arena, INVALID, null;
    }

    /** Lazy allocation on the first HSET, then growth when one more slot would pass 0.7. */
    method EnsureRoom(ghost others: map<Ptr, Chunk>) returns (ok: bool)
      requires Valid(others)
      modifies this, arena
      ensures Valid(others) && Fields() == old(Fields())
      ensures arena.failures == old(arena.failures) + One(!ok)
      ensures table != null && table != old(table) ==> fresh(table) && fresh(table.buckets)
      ensures ok ==> table != null && LoadOk(table.occupied + 1, table.tombstones, table.bucketCount)
      ensures ok && old(table) == null ==> table.bucketCount == 16
      ensures ok && old(table) != null ==> Grown(old(table.occupied), old(table.tombstones), old(table).bucketCount, table.bucketCount)
    {
      if tableDsa == INVALID {
        var dsa := arena.Alloc(TableBlock);
        if dsa == INVALID {
          return false;
        }
        var t := new HashTable(INIT_BUCKETS);
        EmptyTable(hash, t.buckets[..], arena.chunks);
        assert PowerOfTwo(INIT_BUCKETS) by { assert PowerOfTwo(8) && PowerOfTwo(4) && PowerOfTwo(2); }
        tableDsa, table := dsa, t;
      }
      var t := table;
      if ShouldGrow(t.occupied, t.tombstones, t.bucketCount) {
        var dsa, u := Rehash(hash, tableDsa, t, t.bucketCount * 2, arena, others);
        if dsa == INVALID {
          return false;
        }
        tableDsa, table := dsa, u;
      }
      return true;
    }

    /** Overwrite in place: allocate the new value, then free the old one. */
    method Overwrite(idx: nat, field: Bytes, value: Bytes, ghost others: map<Ptr, Chunk>) returns (ok: bool)
      requires Valid(others) && table != null
      requires Holds(View(table.buckets[..], arena.chunks), idx, field)
      modifies arena, table, table.buckets
      ensures Valid(others) && arena.failures == old(arena.failures) + One(!ok)
      ensures Fields() == if ok then old(Fields())[field := value] else old(Fields())
      ensures table.occupied == old(table.occupied) && table.tombstones == old(table.tombstones)
    {
      var t := table;
      ghost var bs, c0 := t.buckets[..], arena.chunks;
      BucketFacts(bs, idx, field, {tableDsa}, c0, others);
      var p := INVALID;
      if 0 < |value| {
        p := arena.Alloc(Data(value));
        if p == INVALID {
          return false;
        }
      }
      var b := t.buckets[idx];
      arena.Free(b.valueDsa);
      var b' := b.(valueDsa := p, valueLen := |value|);
      t.buckets[idx] := b';
      assert t.buckets[..] == bs[idx := b'];
      BucketOverwritten(hash, bs, idx, field, value, p, tableDsa, c0, arena.chunks, others);
      return true;
    }

    /** Copy field and value into the arena; on the second allocation failure the field chunk is given back. */
    method AllocPair(field: Bytes, value: Bytes) returns (ok: bool, b: Bucket)
      requires arena.Valid()
      modifies arena
      ensures arena.Valid() && arena.failures == old(arena.failures) + One(!ok)
      ensures !ok ==> arena.chunks == old(arena.chunks)
      ensures ok ==>
        && b.OccupiedBucket? && b.fieldLen == |field| && b.valueLen == |value|
        && b.fieldDsa != INVALID && (b.valueDsa == INVALID <==> value == [])
        && b.fieldDsa !in old(arena.chunks) && b.valueDsa !in old(arena.chunks) && b.fieldDsa != b.valueDsa
        && var c := old(arena.chunks)[b.fieldDsa := Data(field)];
           arena.chunks == if b.valueDsa == INVALID then c else c[b.valueDsa := Data(value)]
    {
      b := EmptyBucket;
      var fieldP := arena.Alloc(Data(field));
      if fieldP == INVALID {
        return false, b;
      }
      var valueP := INVALID;
      if 0 < |value| {
        valueP := arena.Alloc(Data(value));
        if valueP == INVALID {
          arena.Free(fieldP);
          assert arena.chunks == old(arena.chunks);
          return false, b;
        }
      }
      return true, OccupiedBucket(|field|, |value|, fieldP, valueP);
    }

    /** Fill a free slot. */
    method InsertAt(idx: nat, field: Bytes, value: Bytes, ghost others: map<Ptr, Chunk>) returns (ok: bool)
      requires Valid(others) && table != null && ValidField(field)
      requires LoadOk(table.occupied + 1, table.tombstones, table.bucketCount)
      requires var s := View(table.buckets[..], arena.chunks);
               && idx < |s| && !s[idx].Occupied? && !ProbeTable.Stored(s, field)
               && Unbroken(s, Start(hash, field, |s|), Dist(Start(hash, field, |s|), idx, |s|))
      modifies arena, table, table.buckets
      ensures Valid(others) && arena.failures == old(arena.failures) + One(!ok)
      ensures Fields() == if ok then old(Fields())[field := value] else old(Fields())
    {
      var t := table;
      ghost var bs, c0 := t.buckets[..], arena.chunks;
      var b;
      ok, b := AllocPair(field, value);
      if !ok {
        return;
      }
      assert View(bs, c0)[idx] == SlotOf(bs[idx], c0);
      if t.buckets[idx].TombstoneBucket? {
        t.tombstones := t.tombstones - 1;
      }
      t.buckets[idx] := b;
      t.occupied := t.occupied + 1;
      assert t.buckets[..] == bs[idx := b];
      BucketFilled(hash, bs, idx, field, value, b, tableDsa, c0, arena.chunks, others);
    }

    /** HSET on the table. The "saturated" error is unreachable: the load leaves an empty bucket. */
    method Set(field: Bytes, value: Bytes, ghost others: map<Ptr, Chunk>) returns (r: SetResult)
      requires Valid(others) && ValidField(field)
      modifies Footprint()
      ensures Valid(others)
      ensures table != null && table != old(table) ==> fresh(table) && fresh(table.buckets)
      ensures r.ValueTooLong? <==> |value| > UINT16_MAX
      ensures arena.failures == old(arena.failures) + One(r.OutOfMemory?)
      ensures r.Stored? ==>
        Fields() == old(Fields())[field := value] && r.wasNew == (field !in old(Fields()))
      ensures !r.Stored? ==> Fields() == old(Fields())
    {
      if |value| > UINT16_MAX {
        return ValueTooLong;
      }
      var room := EnsureRoom(others);
      if !room {
        return OutOfMemory;
      }
      LoadLeavesRoom(hash, table.occupied, table.tombstones, table.buckets[..], arena.chunks);
      var found := FindBucket(hash, table, arena, field);
      if found.Hit? {
        ContentsAt(View(table.buckets[..], arena.chunks), found.idx, field);
        var ok := Overwrite(found.idx, field, value, others);
        return if ok then Stored(false) else OutOfMemory;
      }
      var ok := InsertAt(found.idx, field, value, others);
      return if ok then Stored(true) else OutOfMemory;
    }

    /** The common head of get, exists and del: no table, an empty table, or a probe. */
    method Locate(field: Bytes, ghost others: map<Ptr, Chunk>) returns (at: Option<nat>)
      requires Valid(others)
      ensures at.Some? <==> field in Fields()
      ensures at.Some? ==>
        && table != null && Holds(View(table.buckets[..], arena.chunks), at.value, field)
        && Fields()[field] == View(table.buckets[..], arena.chunks)[at.value].value
    {
      if tableDsa == INVALID {
        return None;
      }
      ghost var s := View(table.buckets[..], arena.chunks);
      CountIsCardinality(s);
      if table.occupied == 0 {
        return None;
      }
      LoadLeavesRoom(hash, table.occupied, table.tombstones, table.buckets[..], arena.chunks);
      var found := FindBucket(hash, table, arena, field);
      if !found.Hit? {
        return None;
      }
      ContentsAt(s, found.idx, field);
      return Some(found.idx);
    }

    method Get(field: Bytes, ghost others: map<Ptr, Chunk>) returns (r: Option<Bytes>)
      requires Valid(others)
      ensures r == if field in Fields() then Some(Fields()[field]) else None
    {
      var at := Locate(field, others);
      if at == None {
        return None;
      }
      var b := table.buckets[at.value];
      assert Resolves(b, arena.chunks) && View(table.buckets[..], arena.chunks)[at.value] == SlotOf(b, arena.chunks);
      return Some(if b.valueDsa == INVALID then [] else arena.chunks[b.valueDsa].bytes);
    }

    method Exists(field: Bytes, ghost others: map<Ptr, Chunk>) returns (r: bool)
      requires Valid(others)
      ensures r == (field in Fields())
    {
      var at := Locate(field, others);
      return at.Some?;
    }

    method Count(ghost others: map<Ptr, Chunk>) returns (n: int)
      requires Valid(others)
      ensures n == |Fields()|
    {
      if tableDsa == INVALID {
        return 0;
      }
      CountIsCardinality(View(table.buckets[..], arena.chunks));
      return table.occupied;
    }

    /** Turn the bucket into a tombstone and free both of its chunks. */
    method EraseBucket(idx: nat, field: Bytes, ghost others: map<Ptr, Chunk>)
      requires Valid(others) && table != null
      requires Holds(View(table.buckets[..], arena.chunks), idx, field)
      modifies arena, table, table.buckets
      ensures Valid(others)
      ensures Fields() == old(Fields()) - {field}
      ensures table.occupied == old(table.occupied) - 1 && arena.failures == old(arena.failures)
    {
      var t := table;
      ghost var bs, c0 := t.buckets[..], arena.chunks;
      BucketFacts(bs, idx, field, {tableDsa}, c0, others);
      var b := t.buckets[idx];
      arena.Free(b.fieldDsa);
      arena.Free(b.valueDsa);
      t.buckets[idx] := TombstoneBucket;
      t.occupied := t.occupied - 1;
      t.tombstones := t.tombstones + 1;
      assert t.buckets[..] == bs[idx := TombstoneBucket];
      BucketErased(hash, bs, idx, field, tableDsa, c0, arena.chunks, others);
    }

    /** HDEL on the table, with the lazy shrink (whose failure is harmless). */
    method Del(field: Bytes, ghost others: map<Ptr, Chunk>) returns (removed: bool)
      requires Valid(others)
      modifies Footprint()
      ensures Valid(others)
      ensures table != null && table != old(table) ==> fresh(table) && fresh(table.buckets)
      ensures removed == (field in old(Fields()))
      ensures Fields() == old(Fields()) - {field}
      ensures removed ==> old(table) != null && table != null
      ensures removed ==>
        Shrunk(old(table.occupied) - 1, old(table).bucketCount, table.bucketCount, old(arena.failures) < arena.failures)
      ensures !removed ==> table == old(table)
    {
      var at := Locate(field, others);
      if at == None {
        return false;
      }
      EraseBucket(at.value, field, others);
      ShrinkIfSparse(others);
      return true;
    }

    method ShrinkIfSparse(ghost others: map<Ptr, Chunk>)
      requires Valid(others) && table != null
      modifies this, arena
      ensures Valid(others) && Fields() == old(Fields())
      ensures table != null && table != old(table) ==> fresh(table) && fresh(table.buckets)
      ensures table != null && old(arena.failures) <= arena.failures
      ensures Shrunk(old(table.occupied), old(table).bucketCount, table.bucketCount, old(arena.failures) < arena.failures)
    {
      if ShouldShrink(table.occupied, table.bucketCount) {
        PowerOfTwoGap(table.bucketCount);
        var dsa, u := Rehash(hash, tableDsa, table, table.bucketCount / 2, arena, others);
        if dsa != INVALID {
          tableDsa, table := dsa, u;
        }
      }
    }

    /** Releases every chunk of the table and nothing else. */
    method Release(ghost others: map<Ptr, Chunk>)
      requires Valid(others)
      modifies this, arena
      ensures Valid(others) && table == null && arena.chunks == others && arena.failures == old(arena.failures)
    {
      if tableDsa == INVALID {
        return;
      }
      FreeTable(tableDsa, table, arena, others);
      tableDsa, table := INVALID, null;
    }

    /** A local copy of the whole hash; None stands for the NULL of an empty table. */
    method Materialize(ghost others: map<Ptr, Chunk>) returns (r: Option<map<Bytes, Bytes>>)
      requires Valid(others)
      ensures r == if Fields() == map[] then None else Some(Fields())
    {
      if tableDsa == INVALID {
        return None;
      }
      ghost var bs, c := table.buckets[..], arena.chunks;
      CountIsCardinality(View(bs, c));
      if table.occupied == 0 {
        return None;
      }
      var h: map<Bytes, Bytes> := map[];
      var i := 0;
      ContentsUnique(View(bs[..0], c), map[]);
      while i < table.bucketCount
        invariant i <= table.bucketCount
        invariant AllResolve(bs[..i], c) && h == Contents(View(bs[..i], c))
      {
        var b := table.buckets[i];
        NextBucket(bs, i, c);
        assert b == bs[i] && Resolves(b, c);
        if b.OccupiedBucket? && b.fieldLen <= MAX_FIELD_SIZE {
          var field := arena.chunks[b.fieldDsa].bytes;
          var value := if b.valueDsa == INVALID then [] else arena.chunks[b.valueDsa].bytes;
          assert SlotOf(b, c) == Occupied(field, value);
          h := h[field := value];
        }
        i := i + 1;
      }
      assert bs[..i] == bs;
      return Some(h);
    }
  }

  lemma FieldAndValueDiffer(bs: seq<Bucket>, i: nat, blocks: set<Ptr>, chunks: map<Ptr, Chunk>, others: map<Ptr, Chunk>)
    requires OwnsExactly(blocks, bs, chunks, others) && i < |bs| && bs[i].OccupiedBucket?
    ensures bs[i].fieldDsa in chunks && bs[i].fieldDsa !in others
    ensures bs[i].valueDsa != INVALID ==> bs[i].valueDsa in chunks && bs[i].valueDsa !in others
    ensures bs[i].fieldDsa != INVALID ==> bs[i].fieldDsa != bs[i].valueDsa
  {
    HeldOnce(bs, i, bs[i].fieldDsa, blocks, chunks, others);
    if bs[i].valueDsa != INVALID {
      HeldOnce(bs, i, bs[i].valueDsa, blocks, chunks, others);
    }
  }

  lemma {:induction false} OwnedFromFront(bs: seq<Bucket>, p: Ptr)
    requires bs != []
    ensures Owned(bs, p) == Held(bs[0], p) + Owned(bs[1..], p)
  {
    var n := |bs| - 1;
    if n > 0 {
      OwnedFromFront(bs[..n], p);
      assert bs[..n][1..] == bs[1..][..n - 1];
    }
  }

  /** Freeing what the first bucket holds leaves the rest exactly owned. */
  lemma FirstBucketFreed(bs: seq<Bucket>, dsa: Ptr, chunks: map<Ptr, Chunk>, others: map<Ptr, Chunk>)
    requires bs != [] && INVALID !in chunks && AllResolve(bs, chunks) && OwnsExactly({dsa}, bs, chunks, others)
    ensures bs[0].OccupiedBucket? ==>
      && bs[0].fieldDsa in chunks && bs[0].fieldDsa != bs[0].valueDsa
      && (bs[0].valueDsa != INVALID ==> bs[0].valueDsa in chunks)
    ensures var freed := if bs[0].OccupiedBucket? then chunks - {bs[0].fieldDsa} - {bs[0].valueDsa} else chunks;
            AllResolve(bs[1..], freed) && OwnsExactly({dsa}, bs[1..], freed, others)
  {
    var b := bs[0];
    if b.OccupiedBucket? {
      assert Resolves(b, chunks);
      FieldAndValueDiffer(bs, 0, {dsa}, chunks, others);
    }
    var freed := if b.OccupiedBucket? then chunks - {b.fieldDsa} - {b.valueDsa} else chunks;
    forall p
      ensures One(p in freed) == One(p in others) + One(p in {dsa}) + Owned(bs[1..], p)
    {
      OwnedFromFront(bs, p);
    }
    forall i, p | 0 <= i < |bs[1..]| && 0 < Held(bs[1..][i], p) && p in chunks
      ensures p in freed && freed[p] == chunks[p]
    {
      HeldOnce(bs, i + 1, p, {dsa}, chunks, others);
    }
    assert AllResolve(bs[1..], chunks);
    ViewFrame(bs[1..], chunks, freed);
  }
}
