/**
 When exactly do the retries of an atomic HSET collapse into its last attempt?
 Two keyspaces run side by side: one with the attempts of the command, one
 without. They differ at most at its key, in the time at which the entry expires
 and in the fields other than its own. A verdict carried through the interleaving
 keeps account of both, and decides (src/shared_store.c:674-777).
 */
module AtomicRetries {
  import opened Base
  import opened Tables
  import opened AtomicHash

  /** `skew`: the two entries expire differently. `differ`: the fields, the command's own apart, that differ. */
  datatype Verdict = Verdict(skew: bool, differ: set<Field>)

  const EVEN := Verdict(false, {})

  /** The entry ran out between the two times. */
  predicate Died(s: Store, k: Key, before: int, now: int) {
    Live(s, k, before) && !Live(s, k, now)
  }

  /** Against a key that is gone, an entry differs by all that it has. */
  function Alone(e: Entry, f: Field): Verdict {
    Verdict(e.expireAt.Some?, e.fields.Keys - {f})
  }

  /** Time passes: only an expiry on one side changes the verdict. */
  function Later(v: Verdict, s: Store, t: Store, k: Key, f: Field, before: int, now: int): Verdict {
    if Died(s, k, before, now) && Died(t, k, before, now) then EVEN
    else if Died(s, k, before, now) then Alone(Opened(t, k, now), f)
    else if Died(t, k, before, now) then Alone(Opened(s, k, now), f)
    else v
  }

  /**
   One locked section. An EXPIRE that finds the key on one side only skews the
   two, and one that finds it on both sides, or on none, straightens them; one
   that lies in the past leaves the key on neither side. A field set or deleted is the same on both sides afterwards; a replaced or
   removed key is even. The command's own attempts change nothing.
   */
  function Judge(v: Verdict, s: Store, t: Store, k: Key, item: Item): Verdict {
    match item
    case Try(_) => v
    case Other(now, op) =>
      if op.k != k then v
      else
        match op
        case OpHset(_, g, _) => v.(differ := v.differ - {g})
        case OpHdel(_, g) => v.(differ := v.differ - {g})
        case OpReplace(_, _) => EVEN
        case OpRemove(_) => EVEN
        case OpExpire(_, at) =>
          if at <= now then EVEN
          else v.(skew := Live(s, k, now) != Live(t, k, now))
  }

  /** The verdict right after the last section. */
  ghost function VerdictOf(s: Store, k: Key, f: Field, x: Bytes, items: seq<Item>): Verdict
    decreases |items|, 0
  {
    if items == [] then EVEN
    else
      var n := |items| - 1;
      var a, b := AfterItems(s, k, f, x, items[..n]), AfterOthers(s, items[..n]);
      Judge(VerdictAt(s, k, f, x, items[..n], items[n].now), a, b, k, items[n])
  }

  /** The verdict at a later time. */
  ghost function VerdictAt(s: Store, k: Key, f: Field, x: Bytes, items: seq<Item>, now: int): Verdict
    decreases |items|, 1
  {
    if items == [] then EVEN
    else
      Later(VerdictOf(s, k, f, x, items), AfterItems(s, k, f, x, items), AfterOthers(s, items), k, f, items[|items| - 1].now, now)
  }

  // ----- The verdict is right -----

  ghost predicate Right(s: Store, t: Store, k: Key, f: Field, now: int, v: Verdict) {
    && (forall j :: j != k ==> SameCell(s, t, j))
    && RightAt(Opened(s, k, now), Opened(t, k, now), f, v)
  }

  ghost predicate RightAt(a: Entry, b: Entry, f: Field, v: Verdict) {
    && a.kind == b.kind
    && (a.kind != KHash ==> SameEntry(a, b) && v == EVEN)
    && (a.kind == KHash ==>
          && (v.skew <==> a.expireAt != b.expireAt)
          && forall g :: g in v.differ <==> g != f && Get(a.fields, g) != Get(b.fields, g))
  }

  lemma LaterIsRight(s: Store, t: Store, k: Key, f: Field, before: int, now: int, v: Verdict)
    requires Right(s, t, k, f, before, v) && before <= now
    ensures Right(s, t, k, f, now, Later(v, s, t, k, f, before, now))
  {
    assert !Live(s, k, before) ==> !Live(s, k, now);
    assert !Live(t, k, before) ==> !Live(t, k, now);
  }

  lemma SetIsRight(a: Entry, b: Entry, f: Field, g: Field, x: Bytes, v: Verdict)
    requires RightAt(a, b, f, v) && a.kind == KHash
    ensures RightAt(WithField(a, g, x), WithField(b, g, x), f, v.(differ := v.differ - {g}))
  {
    forall h
      ensures h != g ==> Get(a.fields[g := x], h) == Get(a.fields, h) && Get(b.fields[g := x], h) == Get(b.fields, h)
    {
    }
  }

  lemma DeleteIsRight(a: Entry, b: Entry, f: Field, g: Field, v: Verdict)
    requires RightAt(a, b, f, v) && a.kind == KHash
    ensures RightAt(WithoutField(a, g), WithoutField(b, g), f, v.(differ := v.differ - {g}))
  {
    forall h
      ensures Get(WithoutField(a, g).fields, h) == if h == g then None else Get(a.fields, h)
      ensures Get(WithoutField(b, g).fields, h) == if h == g then None else Get(b.fields, h)
    {
      DeletedCell(a, g, h);
      DeletedCell(b, g, h);
    }
  }

  lemma DeletedCell(e: Entry, g: Field, h: Field)
    ensures Get(WithoutField(e, g).fields, h) == if h == g then None else Get(e.fields, h)
  {
  }

  lemma TryIsRight(s: Store, t: Store, k: Key, f: Field, x: Bytes, now: int, v: Verdict)
    requires Right(s, t, k, f, now, v)
    ensures Right(Hset(s, k, f, x, now).0, t, k, f, now, v)
  {
    var s' := Hset(s, k, f, x, now).0;
    forall j | j != k
      ensures SameCell(s', t, j)
    {
      assert SameCell(s, t, j);
    }
    var a := Opened(s, k, now);
    assert forall h :: h != f ==> Get(a.fields[f := x], h) == Get(a.fields, h);
  }

  lemma HdelOpened(s: Store, k: Key, g: Field, now: int)
    ensures var a := Opened(s, k, now);
            Opened(Hdel(s, k, g, now).0, k, now) == if a.kind == KHash then WithoutField(a, g) else a
  {
  }

  lemma OwnKeyIsRight(s: Store, t: Store, k: Key, f: Field, op: Op, now: int, v: Verdict)
    requires RightAt(Opened(s, k, now), Opened(t, k, now), f, v) && op.k == k
    ensures RightAt(Opened(Perform(s, op, now), k, now), Opened(Perform(t, op, now), k, now), f, Judge(v, s, t, k, Other(now, op)))
  {
    var a, b := Opened(s, k, now), Opened(t, k, now);
    match op
    case OpHset(_, g, x) =>
      if a.kind == KHash {
        SetIsRight(a, b, f, g, x, v);
      }
    case OpHdel(_, g) =>
      HdelOpened(s, k, g, now);
      HdelOpened(t, k, g, now);
      if a.kind == KHash {
        DeleteIsRight(a, b, f, g, v);
      }
    case OpReplace(_, e) =>
    case OpRemove(_) =>
    case OpExpire(_, at) =>
  }

  lemma OtherIsRight(s: Store, t: Store, k: Key, f: Field, op: Op, now: int, v: Verdict)
    requires Right(s, t, k, f, now, v)
    ensures Right(Perform(s, op, now), Perform(t, op, now), k, f, now, Judge(v, s, t, k, Other(now, op)))
  {
    forall j | j != k
      ensures SameCell(Perform(s, op, now), Perform(t, op, now), j)
    {
      assert SameCell(s, t, j);
      CellKept(s, t, op, now, j);
    }
    if op.k == k {
      OwnKeyIsRight(s, t, k, f, op, now, v);
    }
  }

  lemma {:induction false} VerdictIsRight(s: Store, k: Key, f: Field, x: Bytes, items: seq<Item>, now: int)
    requires ItemsOk(items) && (items != [] ==> items[|items| - 1].now <= now)
    ensures Right(AfterItems(s, k, f, x, items), AfterOthers(s, items), k, f, now, VerdictAt(s, k, f, x, items, now))
  {
    if items != [] {
      var n := |items| - 1;
      var at := items[n].now;
      var a, b := AfterItems(s, k, f, x, items[..n]), AfterOthers(s, items[..n]);
      ItemsPrefix(items, n);
      VerdictIsRight(s, k, f, x, items[..n], at);
      var v := VerdictAt(s, k, f, x, items[..n], at);
      match items[n] {
        case Try(_) => TryIsRight(a, b, k, f, x, at, v);
        case Other(_, op) => OtherIsRight(a, b, k, f, op, at, v);
      }
      LaterIsRight(AfterItems(s, k, f, x, items), AfterOthers(s, items), k, f, at, now, VerdictOf(s, k, f, x, items));
    }
  }

  // ----- The exact condition -----

  lemma EvenMeansSame(a: Entry, b: Entry, f: Field, x: Bytes, v: Verdict)
    requires RightAt(a, b, f, v) && a.kind == KHash && CountOk(a) && CountOk(b)
    ensures SameEntry(WithField(a, f, x), WithField(b, f, x)) <==> v == EVEN
  {
    CountKept(a, f, x);
    CountKept(b, f, x);
    DifferNowhere(a.fields, b.fields, f, x, v.differ);
  }

  lemma DifferNowhere(p: map<Field, Bytes>, q: map<Field, Bytes>, f: Field, x: Bytes, differ: set<Field>)
    requires forall g :: g in differ <==> g != f && Get(p, g) != Get(q, g)
    ensures p[f := x] == q[f := x] <==> differ == {}
  {
    var m, n := p[f := x], q[f := x];
    assert forall g :: g != f ==> Get(m, g) == Get(p, g) && Get(n, g) == Get(q, g);
    if differ == {} {
      forall g
        ensures Get(m, g) == Get(n, g)
      {
        assert g !in differ;
      }
      SameMaps(m, n);
    }
    if m == n {
      forall g
        ensures g !in differ
      {
        assert g != f ==> Get(m, g) == Get(p, g) && Get(n, g) == Get(q, g);
      }
      assert differ == {};
    }
  }

  lemma SameMaps(m: map<Field, Bytes>, n: map<Field, Bytes>)
    requires forall g :: Get(m, g) == Get(n, g)
    ensures m == n
  {
    forall g
      ensures g in m <==> g in n
      ensures g in m ==> m[g] == n[g]
    {
      assert Get(m, g) == Get(n, g);
    }
  }

  lemma LastTrySame(s: Store, t: Store, k: Key, f: Field, x: Bytes, now: int, v: Verdict)
    requires Right(s, t, k, f, now, v) && CountsOk(s) && CountsOk(t)
    ensures SameStore(Hset(s, k, f, x, now).0, Hset(t, k, f, x, now).0) <==> v == EVEN
    ensures Hset(s, k, f, x, now).1.WrongType? <==> Hset(t, k, f, x, now).1.WrongType?
  {
    var s', t' := Hset(s, k, f, x, now).0, Hset(t, k, f, x, now).0;
    var a, b := Opened(s, k, now), Opened(t, k, now);
    forall j | j != k
      ensures SameCell(s', t', j)
    {
      assert SameCell(s, t, j);
    }
    if a.kind == KHash {
      EvenMeansSame(a, b, f, x, v);
      assert SameCell(s', t', k) <==> v == EVEN;
    } else {
      assert SameCell(s', t', k);
    }
  }

  /**
   For every interleaving of the attempts with HSET, HDEL, EXPIRE, writebacks and
   removals of any key by others: the keyspace that HSET leaves is the one that
   its last attempt alone would have left if and only if the verdict is even.
   */
  lemma CollapsesIffEven(s: Store, k: Key, f: Field, x: Bytes, items: seq<Item>, now: int)
    requires CountsOk(s) && ItemsOk(items) && (items != [] ==> items[|items| - 1].now <= now)
    ensures Collapses(s, k, f, x, items, now) <==> VerdictAt(s, k, f, x, items, now) == EVEN
  {
    VerdictIsRight(s, k, f, x, items, now);
    CountsAlwaysOk(s, k, f, x, items);
    OthersCountsOk(s, items);
    LastTrySame(AfterItems(s, k, f, x, items), AfterOthers(s, items), k, f, x, now, VerdictAt(s, k, f, x, items, now));
  }

  /** A failing interleaving: the key exists only through a failed attempt, and another backend's EXPIRE sticks to it. */
  lemma ForeignExpirySticks(s: Store, k: Key, f: Field, x: Bytes, first: int, when: int, at: int, now: int)
    requires CountsOk(s) && k !in s && first <= when <= now < at
    ensures !Collapses(s, k, f, x, [Try(first)] + [Other(when, OpExpire(k, at))], now)
  {
    var one := [Try(first)];
    var items := one + [Other(when, OpExpire(k, at))];
    assert one[..0] == [] && items[..1] == one && one[0] == Try(first);
    assert AfterItems(s, k, f, x, []) == s && AfterOthers(s, []) == s;
    var a := AfterItems(s, k, f, x, one);
    assert a == Hset(s, k, f, x, first).0 && AfterOthers(s, one) == s;
    assert VerdictAt(s, k, f, x, [], first) == EVEN && VerdictOf(s, k, f, x, one) == EVEN;
    assert VerdictAt(s, k, f, x, one, when) == EVEN;
    assert VerdictOf(s, k, f, x, items) == Verdict(true, {});
    assert AfterOthers(s, items) == s && AfterItems(s, k, f, x, items) == Expire(a, k, at, when);
    CollapsesIffEven(s, k, f, x, items, now);
  }

  /** Whatever went before, a removal of the key by another backend heals it. */
  lemma RemovalHeals(s: Store, k: Key, f: Field, x: Bytes, items: seq<Item>, when: int, now: int)
    requires CountsOk(s) && ItemsOk(items + [Other(when, OpRemove(k))]) && when <= now
    ensures Collapses(s, k, f, x, items + [Other(when, OpRemove(k))], now)
  {
    var all := items + [Other(when, OpRemove(k))];
    assert all[..|items|] == items;
    CollapsesIffEven(s, k, f, x, all, now);
  }
}
