/**
 The open-addressing table seen as a sequence of slots: linear probing, the
 cyclic probe-chain invariant and its refinement of a finite map. Everything
 here is independent of where the bytes of a slot live.
 */
module ProbeTable {
  import opened Base

  datatype Slot = Empty | Tombstone | Occupied(field: Bytes, value: Bytes)

  /** `hash & (n - 1)` for a power of two `n`. */
  function Start(hash: Bytes -> nat, f: Bytes, n: nat): (i: nat)
    requires 0 < n
    ensures i < n
  {
    hash(f) % n
  }

  /** The k-th index probed from `start`; equals `(start + k) % n`. */
  function Probe(start: nat, k: nat, n: nat): (i: nat)
    requires start < n && k < n
    ensures i < n
  {
    if start + k < n then start + k else start + k - n
  }

  /** How many probes separate `start` from index `i`. */
  function Dist(start: nat, i: nat, n: nat): (k: nat)
    requires start < n && i < n
    ensures k < n && Probe(start, k, n) == i
  {
    if start <= i then i - start else i + n - start
  }

  /** The first `d` probes from `start` meet no empty slot. */
  ghost predicate Unbroken(s: seq<Slot>, start: nat, d: nat)
    requires start < |s| && d <= |s|
  {
    forall k :: 0 <= k < d ==> !s[Probe(start, k, |s|)].Empty?
  }

  ghost predicate Distinct(s: seq<Slot>) {
    forall i, j :: 0 <= i < |s| && 0 <= j < |s| && s[i].Occupied? && s[j].Occupied? && s[i].field == s[j].field
      ==> i == j
  }

  ghost predicate Reachable(hash: Bytes -> nat, s: seq<Slot>, i: nat)
    requires i < |s|
  {
    s[i].Occupied? ==>
      var st := Start(hash, s[i].field, |s|); Unbroken(s, st, Dist(st, i, |s|))
  }

  /** The probe-chain invariant: no field twice, and no empty slot before a stored field. */
  ghost predicate WellFormed(hash: Bytes -> nat, s: seq<Slot>) {
    && Distinct(s)
    && forall i :: 0 <= i < |s| ==> Reachable(hash, s, i)
  }

  /** Slot `i` stores field `f`. */
  ghost predicate Holds(s: seq<Slot>, i: int, f: Bytes) {
    0 <= i < |s| && s[i].Occupied? && s[i].field == f
  }

  ghost predicate Stored(s: seq<Slot>, f: Bytes) {
    exists i :: Holds(s, i, f)
  }

  ghost function Fields(s: seq<Slot>): (fs: set<Bytes>)
    ensures forall f :: f in fs <==> Stored(s, f)
  {
    var fs := set i | 0 <= i < |s| && s[i].Occupied? :: s[i].field;
    assert forall i, f :: Holds(s, i, f) ==> f in fs;
    assert forall f :: f in fs ==> exists i :: 0 <= i < |s| && s[i].Occupied? && Holds(s, i, f);
    fs
  }

  ghost function ValueOf(s: seq<Slot>, f: Bytes): (v: Bytes)
    requires Stored(s, f)
  {
    var i :| Holds(s, i, f); s[i].value
  }

  /** The abstract value: the finite map that the table stands for. */
  ghost function Contents(s: seq<Slot>): (m: map<Bytes, Bytes>) {
    map f | f in Fields(s) :: ValueOf(s, f)
  }

  lemma ContentsAt(s: seq<Slot>, i: nat, f: Bytes)
    requires Distinct(s) && Holds(s, i, f)
    ensures f in Contents(s) && Contents(s)[f] == s[i].value
  {
    assert Stored(s, f);
    var j :| Holds(s, j, f) && ValueOf(s, f) == s[j].value;
    assert i == j;
  }

  /** A map that agrees with every slot, and has no other key, is the contents. */
  lemma ContentsUnique(s: seq<Slot>, m: map<Bytes, Bytes>)
    requires Distinct(s)
    requires forall i :: 0 <= i < |s| && s[i].Occupied? ==> s[i].field in m && m[s[i].field] == s[i].value
    requires forall f :: f in m ==> Stored(s, f)
    ensures Contents(s) == m
  {
    forall f | f in m
      ensures f in Contents(s) && Contents(s)[f] == m[f]
    {
      var i :| Holds(s, i, f);
      ContentsAt(s, i, f);
    }
    forall f | f in Contents(s)
      ensures f in m
    {
      var i :| Holds(s, i, f);
    }
  }

  ghost function CountOccupied(s: seq<Slot>): nat {
    if s == [] then 0 else CountOccupied(s[..|s| - 1]) + if s[|s| - 1].Occupied? then 1 else 0
  }

  ghost function CountTombstones(s: seq<Slot>): nat {
    if s == [] then 0 else CountTombstones(s[..|s| - 1]) + if s[|s| - 1].Tombstone? then 1 else 0
  }

  // ----- Counting -----

  lemma {:induction false} CountsOnUpdate(s: seq<Slot>, i: nat, x: Slot)
    requires i < |s|
    ensures CountOccupied(s[i := x])
         == CountOccupied(s) - (if s[i].Occupied? then 1 else 0) + (if x.Occupied? then 1 else 0)
    ensures CountTombstones(s[i := x])
         == CountTombstones(s) - (if s[i].Tombstone? then 1 else 0) + (if x.Tombstone? then 1 else 0)
  {
    var n := |s| - 1;
    if i == n {
      assert s[i := x][..n] == s[..n];
    } else {
      assert s[i := x][..n] == s[..n][i := x];
      CountsOnUpdate(s[..n], i, x);
    }
  }

  /** A table whose load leaves room really has an empty slot. */
  lemma {:induction false} EmptySlotExists(s: seq<Slot>)
    requires CountOccupied(s) + CountTombstones(s) < |s|
    ensures exists i :: 0 <= i < |s| && s[i].Empty?
  {
    var n := |s| - 1;
    if !s[n].Empty? {
      EmptySlotExists(s[..n]);
      var i :| 0 <= i < n && s[..n][i].Empty?;
      assert s[i].Empty?;
    }
  }

  lemma {:induction false} OccupiedCountBounds(s: seq<Slot>, i: nat)
    requires i < |s| && s[i].Occupied?
    ensures 0 < CountOccupied(s)
  {
    var n := |s| - 1;
    if i != n {
      assert s[..n][i] == s[i];
      OccupiedCountBounds(s[..n], i);
    }
  }

  lemma {:induction false} AllEmptyCounts(s: seq<Slot>)
    requires forall i :: 0 <= i < |s| ==> s[i].Empty?
    ensures CountOccupied(s) == 0 && CountTombstones(s) == 0
  {
    if s != [] {
      AllEmptyCounts(s[..|s| - 1]);
    }
  }

  /** The occupied count is the size of the map. */
  lemma {:induction false} CountIsCardinality(s: seq<Slot>)
    requires Distinct(s)
    ensures |Contents(s)| == CountOccupied(s)
  {
    if s == [] {
      assert Contents(s) == map[];
    } else {
      var n := |s| - 1;
      var t, x := s[..n], s[n];
      assert s == t + [x];
      CountIsCardinality(t);
      ContentsOfSnoc(t, x);
      if x.Occupied? {
        assert Contents(s).Keys == Contents(t).Keys + {x.field};
      }
    }
  }

  lemma ContentsOfSnoc(s: seq<Slot>, x: Slot)
    requires Distinct(s + [x])
    ensures Distinct(s)
    ensures x.Occupied? ==> x.field !in Contents(s) && Contents(s + [x]) == Contents(s)[x.field := x.value]
    ensures !x.Occupied? ==> Contents(s + [x]) == Contents(s)
  {
    var t := s + [x];
    assert forall i :: 0 <= i < |s| ==> t[i] == s[i];
    assert t[|s|] == x;
    assert x.Occupied? ==> forall i :: !Holds(s, i, x.field);
    var m := if x.Occupied? then Contents(s)[x.field := x.value] else Contents(s);
    forall i | 0 <= i < |t| && t[i].Occupied?
      ensures t[i].field in m && m[t[i].field] == t[i].value
    {
      if i < |s| {
        ContentsAt(s, i, t[i].field);
      }
    }
    forall f | f in m
      ensures Stored(t, f)
    {
      if x.Occupied? && f == x.field {
        assert Holds(t, |s|, f);
      } else {
        var i :| Holds(s, i, f);
        assert Holds(t, i, f);
      }
    }
    ContentsUnique(t, m);
  }

  // ----- Probing -----

  /** The first `d` probes met neither an empty slot nor the field. */
  ghost predicate Searched(s: seq<Slot>, start: nat, f: Bytes, d: nat)
    requires start < |s| && d <= |s|
  {
    forall k :: 0 <= k < d ==>
      var x := s[Probe(start, k, |s|)]; !x.Empty? && !(x.Occupied? && x.field == f)
  }

  /** A probe that meets an empty slot before the field proves the field absent. */
  lemma MissIsAbsent(hash: Bytes -> nat, s: seq<Slot>, f: Bytes, d: nat)
    requires WellFormed(hash, s) && d < |s|
    requires Searched(s, Start(hash, f, |s|), f, d)
    requires s[Probe(Start(hash, f, |s|), d, |s|)].Empty?
    ensures !Stored(s, f)
  {
    var st := Start(hash, f, |s|);
    forall j | 0 <= j < |s|
      ensures !Holds(s, j, f)
    {
      var dj := Dist(st, j, |s|);
      assert Reachable(hash, s, j);
      assert s[Probe(st, dj, |s|)] == s[j];
    }
  }

  /** A full round visits every slot: the field is absent and no slot is empty. */
  lemma FullRound(s: seq<Slot>, start: nat, f: Bytes)
    requires start < |s| && Searched(s, start, f, |s|)
    ensures !Stored(s, f) && forall i :: 0 <= i < |s| ==> !s[i].Empty?
  {
    forall i | 0 <= i < |s|
      ensures !s[i].Empty? && !Holds(s, i, f)
    {
      assert s[i] == s[Probe(start, Dist(start, i, |s|), |s|)];
    }
  }

  // ----- Updates refine map updates -----

  /** Filling a free slot, or overwriting the field's own slot, is a map update. */
  lemma StoreAt(hash: Bytes -> nat, s: seq<Slot>, i: nat, f: Bytes, v: Bytes)
    requires WellFormed(hash, s) && i < |s|
    requires !s[i].Occupied? ==> !Stored(s, f)
    requires s[i].Occupied? ==> s[i].field == f
    requires Unbroken(s, Start(hash, f, |s|), Dist(Start(hash, f, |s|), i, |s|))
    ensures WellFormed(hash, s[i := Occupied(f, v)])
    ensures Contents(s[i := Occupied(f, v)]) == Contents(s)[f := v]
  {
    var t := s[i := Occupied(f, v)];
    forall j | 0 <= j < |s|
      ensures Reachable(hash, t, j)
    {
      assert Reachable(hash, s, j);
    }
    assert Distinct(t) by {
      assert forall j :: 0 <= j < |s| && s[j].Occupied? && s[j].field == f ==> Holds(s, j, f);
    }
    var m := Contents(s)[f := v];
    forall j | 0 <= j < |t| && t[j].Occupied?
      ensures t[j].field in m && m[t[j].field] == t[j].value
    {
      if j != i {
        ContentsAt(s, j, t[j].field);
      }
    }
    forall g | g in m
      ensures Stored(t, g)
    {
      if g == f {
        assert Holds(t, i, g);
      } else {
        var j :| Holds(s, j, g);
        assert Holds(t, j, g);
      }
    }
    ContentsUnique(t, m);
  }

  /** A tombstone keeps every probe chain and removes exactly its field. */
  lemma EraseAt(hash: Bytes -> nat, s: seq<Slot>, i: nat)
    requires WellFormed(hash, s) && i < |s| && s[i].Occupied?
    ensures WellFormed(hash, s[i := Tombstone])
    ensures Contents(s[i := Tombstone]) == Contents(s) - {s[i].field}
  {
    var t := s[i := Tombstone];
    forall j | 0 <= j < |s|
      ensures Reachable(hash, t, j)
    {
      assert Reachable(hash, s, j);
    }
    var m := Contents(s) - {s[i].field};
    forall j | 0 <= j < |t| && t[j].Occupied?
      ensures t[j].field in m && m[t[j].field] == t[j].value
    {
      ContentsAt(s, j, t[j].field);
    }
    forall g | g in m
      ensures Stored(t, g)
    {
      var j :| Holds(s, j, g);
      assert Holds(t, j, g);
    }
    ContentsUnique(t, m);
  }

  lemma AllEmpty(hash: Bytes -> nat, s: seq<Slot>)
    requires forall i :: 0 <= i < |s| ==> s[i].Empty?
    ensures WellFormed(hash, s) && Contents(s) == map[]
  {
    ContentsUnique(s, map[]);
  }
}
