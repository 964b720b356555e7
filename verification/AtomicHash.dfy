/**
 Atomic HSET and HDEL of storage_mode = 'shared' (src/shared_store.c). Each
 command changes the shared entry and publishes its events inside one hold of
 the key's partition lock; when the ring is full it lets go of the lock, makes
 room, and comes back. A locked section is one step here: sections on one key
 exclude each other, and sections on different keys touch different cells.
 */
module AtomicHash {
  import opened Base
  import opened Tables

  /** A shared entry. `fields` is the map that the DSA table refines. */
  datatype Entry = Entry(kind: Kind, expireAt: Option<int>, fields: map<Field, Bytes>, fieldCount: int, version: int)

  type Store = map<Key, Entry>

  datatype Outcome = New | Overwrite | Deleted | Noop | WrongType(actual: Kind)

  const FRESH_HASH := Entry(KHash, None, map[], 0, 0)

  predicate Expired(e: Entry, now: int) {
    e.expireAt.Some? && e.expireAt.value <= now
  }

  predicate Live(s: Store, k: Key, now: int) {
    k in s && !Expired(s[k], now)
  }

  /** The entry that HSET works on: a missing or expired one starts as an empty hash. */
  function Opened(s: Store, k: Key, now: int): Entry {
    if Live(s, k, now) then s[k] else FRESH_HASH
  }

  function WithField(e: Entry, f: Field, v: Bytes): Entry {
    e.(fields := e.fields[f := v], fieldCount := e.fieldCount + (if f in e.fields then 0 else 1), version := e.version + 1)
  }

  function WithoutField(e: Entry, f: Field): Entry {
    if f in e.fields then e.(fields := e.fields - {f}, fieldCount := e.fieldCount - 1, version := e.version + 1) else e
  }

  /** The locked section of one HSET attempt. */
  function Hset(s: Store, k: Key, f: Field, v: Bytes, now: int): (Store, Outcome) {
    var e := Opened(s, k, now);
    if e.kind != KHash then (s, WrongType(e.kind))
    else (s[k := WithField(e, f, v)], if f in e.fields then Overwrite else New)
  }

  /** The locked section in which HDEL removes the field; an expired entry is dropped on the way. */
  function Hdel(s: Store, k: Key, f: Field, now: int): (Store, Outcome) {
    if k !in s then (s, Noop)
    else if Expired(s[k], now) then (s - {k}, Noop)
    else if s[k].kind != KHash then (s, WrongType(s[k].kind))
    else if f !in s[k].fields then (s, Noop)
    else (s[k := WithoutField(s[k], f)], Deleted)
  }

  /** EXPIRE of a live entry; an expired one is dropped on the way. */
  function Expire(s: Store, k: Key, at: int, now: int): Store {
    if k !in s then s
    else if Expired(s[k], now) then s - {k}
    else s[k := s[k].(expireAt := Some(at), version := s[k].version + 1)]
  }

  // ----- What the commands mean -----

  /** HSET answers WRONGTYPE over a live non-hash; otherwise the field has the value, all else is kept, and New says that no live field was there. */
  lemma HsetMeans(s: Store, k: Key, f: Field, v: Bytes, now: int)
    ensures var (t, out) := Hset(s, k, f, v, now);
            var there := k in s && (s[k].expireAt.None? || now < s[k].expireAt.value);
            && (forall j :: j != k ==> Get(t, j) == Get(s, j))
            && (there && s[k].kind != KHash ==> out == WrongType(s[k].kind) && t == s)
            && (!there || s[k].kind == KHash ==>
                  && k in t && t[k].kind == KHash && Get(t[k].fields, f) == Some(v)
                  && (forall g :: g != f ==> Get(t[k].fields, g) == if there then Get(s[k].fields, g) else None)
                  && t[k].expireAt == (if there then s[k].expireAt else None)
                  && t[k].version == (if there then s[k].version else 0) + 1
                  && out == if there && f in s[k].fields then Overwrite else New)
  {
  }

  /** HDEL removes a live field and says so; a missing key or field is a no-op, and an expired entry goes. */
  lemma HdelMeans(s: Store, k: Key, f: Field, now: int)
    ensures var (t, out) := Hdel(s, k, f, now);
            var there := k in s && (s[k].expireAt.None? || now < s[k].expireAt.value);
            && (forall j :: j != k ==> Get(t, j) == Get(s, j))
            && (!there ==> out == Noop && k !in t)
            && (there && s[k].kind != KHash ==> out == WrongType(s[k].kind) && t == s)
            && (there && s[k].kind == KHash && f !in s[k].fields ==> out == Noop && t == s)
            && (there && s[k].kind == KHash && f in s[k].fields ==>
                  && out == Deleted && k in t && t[k].kind == KHash && t[k].expireAt == s[k].expireAt && t[k].version == s[k].version + 1
                  && forall g :: Get(t[k].fields, g) == if g == f then None else Get(s[k].fields, g))
  {
  }

  /** EXPIRE gives a live entry its new time and changes nothing else. */
  lemma ExpireMeans(s: Store, k: Key, at: int, now: int)
    ensures var t := Expire(s, k, at, now);
            var there := k in s && (s[k].expireAt.None? || now < s[k].expireAt.value);
            && (forall j :: j != k ==> Get(t, j) == Get(s, j))
            && (there ==> k in t && t[k].expireAt == Some(at) && t[k].kind == s[k].kind && t[k].fields == s[k].fields)
            && (!there ==> k !in t)
  {
  }

  // ----- field_count -----

  ghost predicate CountOk(e: Entry) {
    e.kind == KHash ==> e.fieldCount == |e.fields|
  }

  ghost predicate CountsOk(s: Store) {
    forall k :: k in s ==> CountOk(s[k])
  }

  lemma SizeAfterPut(m: map<Field, Bytes>, f: Field, v: Bytes)
    ensures |m[f := v]| == |m| + if f in m then 0 else 1
  {
    assert m[f := v].Keys == m.Keys + {f};
    if f in m {
      assert m.Keys + {f} == m.Keys;
    }
  }

  lemma SizeAfterTake(m: map<Field, Bytes>, f: Field)
    ensures if f in m then |m - {f}| == |m| - 1 else m - {f} == m
  {
    assert (m - {f}).Keys == m.Keys - {f};
  }

  lemma CountKept(e: Entry, f: Field, v: Bytes)
    requires CountOk(e)
    ensures CountOk(WithField(e, f, v)) && CountOk(WithoutField(e, f))
  {
    SizeAfterPut(e.fields, f, v);
    SizeAfterTake(e.fields, f);
  }

  // ----- Interleavings with other backends -----

  /** What another backend may do to the keyspace while a command waits for room. */
  datatype Op =
    | OpHset(k: Key, f: Field, v: Bytes)
    | OpHdel(k: Key, f: Field)
    | OpReplace(k: Key, e: Entry)
    | OpRemove(k: Key)
    | OpExpire(k: Key, at: int)

  /** A locked section at some time: an attempt of the command under study, or somebody else's. */
  datatype Item = Try(now: int) | Other(now: int, op: Op)

  function Perform(s: Store, op: Op, now: int): Store {
    match op
    case OpHset(k, f, v) => Hset(s, k, f, v, now).0
    case OpHdel(k, f) => Hdel(s, k, f, now).0
    case OpReplace(k, e) => s[k := e]
    case OpRemove(k) => s - {k}
    case OpExpire(k, at) => Expire(s, k, at, now)
  }

  predicate OpOk(op: Op) {
    op.OpReplace? ==> op.e.kind == KHash ==> op.e.fieldCount == |op.e.fields|
  }

  ghost predicate ItemsOk(items: seq<Item>) {
    && (forall i :: 0 <= i < |items| && items[i].Other? ==> OpOk(items[i].op))
    && (forall i, j :: 0 <= i < j < |items| ==> items[i].now <= items[j].now)
  }

  /** The store after all sections, where each `Try` is an attempt of HSET k f v. */
  function AfterItems(s: Store, k: Key, f: Field, v: Bytes, items: seq<Item>): Store {
    if items == [] then s
    else
      var n := |items| - 1;
      var t := AfterItems(s, k, f, v, items[..n]);
      match items[n]
      case Try(now) => Hset(t, k, f, v, now).0
      case Other(now, op) => Perform(t, op, now)
  }

  /** The same interleaving as if the command had not been there. */
  function AfterOthers(s: Store, items: seq<Item>): Store {
    if items == [] then s
    else
      var n := |items| - 1;
      var t := AfterOthers(s, items[..n]);
      match items[n]
      case Try(_) => t
      case Other(now, op) => Perform(t, op, now)
  }

  lemma CountsKept(s: Store, op: Op, now: int)
    requires CountsOk(s) && OpOk(op)
    ensures CountsOk(Perform(s, op, now))
  {
    match op
    case OpHset(k, f, v) =>
      CountKept(Opened(s, k, now), f, v);
    case OpHdel(k, f) =>
      if k in s {
        CountKept(s[k], f, []);
      }
    case OpReplace(k, e) =>
    case OpRemove(k) =>
    case OpExpire(k, at) =>
  }

  lemma ItemsPrefix(items: seq<Item>, n: nat)
    requires ItemsOk(items) && n <= |items|
    ensures ItemsOk(items[..n])
    ensures n < |items| && items[n].Other? ==> OpOk(items[n].op)
  {
  }

  /** field_count is the number of fields in every entry after every interleaving. */
  lemma {:induction false} CountsAlwaysOk(s: Store, k: Key, f: Field, v: Bytes, items: seq<Item>)
    requires CountsOk(s) && ItemsOk(items)
    ensures CountsOk(AfterItems(s, k, f, v, items))
  {
    if items != [] {
      var n := |items| - 1;
      ItemsPrefix(items, n);
      CountsAlwaysOk(s, k, f, v, items[..n]);
      match items[n]
      case Try(now) => CountsKept(AfterItems(s, k, f, v, items[..n]), OpHset(k, f, v), now);
      case Other(now, op) => CountsKept(AfterItems(s, k, f, v, items[..n]), op, now);
    }
  }

  lemma {:induction false} OthersCountsOk(s: Store, items: seq<Item>)
    requires CountsOk(s) && ItemsOk(items)
    ensures CountsOk(AfterOthers(s, items))
  {
    if items != [] {
      var n := |items| - 1;
      ItemsPrefix(items, n);
      OthersCountsOk(s, items[..n]);
      if items[n].Other? {
        CountsKept(AfterOthers(s, items[..n]), items[n].op, items[n].now);
      }
    }
  }

  // ----- Retries collapse into the last attempt -----

  /** Equal but for the version counter. */
  predicate SameEntry(a: Entry, b: Entry) {
    a == b.(version := a.version)
  }

  predicate SameCell(s: Store, t: Store, k: Key) {
    (k in s <==> k in t) && (k in s ==> SameEntry(s[k], t[k]))
  }

  ghost predicate SameStore(s: Store, t: Store) {
    forall k :: SameCell(s, t, k)
  }

  /** The effect of attempts on HSET's own key: at most field `f` differs, or only the attempts made the key. */
  ghost predicate NearAt(s: Store, t: Store, k: Key, f: Field, now: int) {
    if Live(t, k, now) then
      && Live(s, k, now) && s[k].kind == t[k].kind && s[k].expireAt == t[k].expireAt
      && (if s[k].kind == KHash then s[k].fields - {f} == t[k].fields - {f} else SameEntry(s[k], t[k]))
    else
      Live(s, k, now) ==> s[k].kind == KHash && s[k].expireAt == None && s[k].fields - {f} == map[]
  }

  ghost predicate Near(s: Store, t: Store, k: Key, f: Field, now: int) {
    (forall j :: j != k ==> SameCell(s, t, j)) && NearAt(s, t, k, f, now)
  }

  lemma NearLater(s: Store, t: Store, k: Key, f: Field, now: int, later: int)
    requires Near(s, t, k, f, now) && now <= later
    ensures Near(s, t, k, f, later)
  {
  }

  /** Maps that agree outside `f` still do so after the same change to any field. */
  lemma AgreeOutside(a: map<Field, Bytes>, b: map<Field, Bytes>, f: Field, g: Field, v: Bytes)
    requires a - {f} == b - {f}
    ensures a[g := v] - {f} == b[g := v] - {f}
    ensures a - {g} - {f} == b - {g} - {f}
    ensures a[f := v] - {f} == b - {f} && a[f := v] == b[f := v]
  {
    OutsideOf(a, f, g, v);
    OutsideOf(b, f, g, v);
  }

  lemma OutsideOf(a: map<Field, Bytes>, f: Field, g: Field, v: Bytes)
    ensures a[g := v] - {f} == if f == g then a - {f} else (a - {f})[g := v]
    ensures a - {g} - {f} == a - {f} - {g}
    ensures a[f := v] - {f} == a - {f} && a[f := v] == (a - {f})[f := v]
  {
    assert a[g := v] - {f} == if f == g then a - {f} else (a - {f})[g := v];
    assert a - {g} - {f} == a - {f} - {g};
    assert a[f := v] - {f} == a - {f};
  }

  /** HSET's own section. */
  lemma TryKeepsNear(s: Store, t: Store, k: Key, f: Field, v: Bytes, now: int)
    requires Near(s, t, k, f, now)
    ensures Near(Hset(s, k, f, v, now).0, t, k, f, now)
  {
    var s' := Hset(s, k, f, v, now).0;
    AgreeOutside(Opened(s, k, now).fields, Opened(s, k, now).fields, f, f, v);
    forall j | j != k
      ensures SameCell(s', t, j)
    {
      assert SameCell(s, t, j);
    }
  }

  /** An operation acts alike on equal cells. */
  lemma CellKept(s: Store, t: Store, op: Op, now: int, j: Key)
    requires SameCell(s, t, j)
    ensures SameCell(Perform(s, op, now), Perform(t, op, now), j)
  {
  }

  lemma OtherHsetKeepsNear(s: Store, t: Store, k: Key, f: Field, g: Field, v: Bytes, now: int)
    requires NearAt(s, t, k, f, now)
    ensures NearAt(Hset(s, k, g, v, now).0, Hset(t, k, g, v, now).0, k, f, now)
  {
    var a, b := Opened(s, k, now), Opened(t, k, now);
    if a.kind == KHash {
      assert a.fields - {f} == b.fields - {f};
      AgreeOutside(a.fields, b.fields, f, g, v);
    }
  }

  lemma OtherHdelKeepsNear(s: Store, t: Store, k: Key, f: Field, g: Field, now: int)
    requires NearAt(s, t, k, f, now)
    ensures NearAt(Hdel(s, k, g, now).0, Hdel(t, k, g, now).0, k, f, now)
  {
    if Live(s, k, now) && s[k].kind == KHash {
      var b := Opened(t, k, now);
      assert s[k].fields - {f} == b.fields - {f};
      AgreeOutside(s[k].fields, b.fields, f, g, []);
      assert g !in s[k].fields ==> s[k].fields - {g} == s[k].fields;
      assert g !in b.fields ==> b.fields - {g} == b.fields;
    }
  }

  lemma OtherKeepsNear(s: Store, t: Store, k: Key, f: Field, op: Op, now: int)
    requires Near(s, t, k, f, now)
    requires op.OpExpire? && op.k == k && Live(s, k, now) ==> Live(t, k, now)
    ensures Near(Perform(s, op, now), Perform(t, op, now), k, f, now)
  {
    forall j | j != k
      ensures SameCell(Perform(s, op, now), Perform(t, op, now), j)
    {
      assert SameCell(s, t, j);
      CellKept(s, t, op, now, j);
    }
    if op.k == k {
      match op
      case OpHset(_, g, v) => OtherHsetKeepsNear(s, t, k, f, g, v, now);
      case OpHdel(_, g) => OtherHdelKeepsNear(s, t, k, f, g, now);
      case OpReplace(_, _) =>
      case OpRemove(_) =>
      case OpExpire(_, _) =>
    }
  }

  /** No EXPIRE by another backend hits the key while only the attempts keep it alive. */
  ghost predicate Unseen(s: Store, k: Key, f: Field, v: Bytes, items: seq<Item>) {
    if items == [] then true
    else
      var n := |items| - 1;
      && Unseen(s, k, f, v, items[..n])
      && (items[n].Other? && items[n].op.OpExpire? && items[n].op.k == k ==>
            !Exposed(s, k, f, v, items[..n], items[n].now))
  }

  /** The key is alive, and without the attempts it would not be. */
  ghost predicate Exposed(s: Store, k: Key, f: Field, v: Bytes, items: seq<Item>, now: int) {
    Live(AfterItems(s, k, f, v, items), k, now) && !Live(AfterOthers(s, items), k, now)
  }

  lemma {:induction false} AttemptsStayNear(s: Store, k: Key, f: Field, v: Bytes, items: seq<Item>, now: int)
    requires ItemsOk(items) && Unseen(s, k, f, v, items) && (items != [] ==> items[|items| - 1].now <= now)
    ensures Near(AfterItems(s, k, f, v, items), AfterOthers(s, items), k, f, now)
  {
    if items != [] {
      var n := |items| - 1;
      var at := items[n].now;
      var a, b := AfterItems(s, k, f, v, items[..n]), AfterOthers(s, items[..n]);
      ItemsPrefix(items, n);
      AttemptsStayNear(s, k, f, v, items[..n], at);
      match items[n] {
        case Try(_) => TryKeepsNear(a, b, k, f, v, at);
        case Other(_, op) => OtherKeepsNear(a, b, k, f, op, at);
      }
      NearLater(AfterItems(s, k, f, v, items), AfterOthers(s, items), k, f, at, now);
    }
  }

  lemma LastTryDecides(s: Store, t: Store, k: Key, f: Field, v: Bytes, now: int)
    requires Near(s, t, k, f, now) && CountsOk(s) && CountsOk(t)
    ensures SameStore(Hset(s, k, f, v, now).0, Hset(t, k, f, v, now).0)
    ensures Hset(s, k, f, v, now).1.WrongType? <==> Hset(t, k, f, v, now).1.WrongType?
  {
    var s', t' := Hset(s, k, f, v, now).0, Hset(t, k, f, v, now).0;
    var a, b := Opened(s, k, now), Opened(t, k, now);
    if a.kind == KHash {
      assert a.fields - {f} == b.fields - {f};
      AgreeOutside(a.fields, b.fields, f, f, v);
      CountKept(a, f, v);
      CountKept(b, f, v);
    }
    forall j
      ensures SameCell(s', t', j)
    {
      assert j != k ==> SameCell(s, t, j);
    }
  }

  /** The final attempt, after the interleaving and after the same interleaving without the earlier attempts. */
  ghost predicate Collapses(s: Store, k: Key, f: Field, v: Bytes, items: seq<Item>, now: int) {
    var once := Hset(AfterOthers(s, items), k, f, v, now);
    var retried := Hset(AfterItems(s, k, f, v, items), k, f, v, now);
    SameStore(retried.0, once.0) && (retried.1.WrongType? <==> once.1.WrongType?)
  }

  /**
   However often HSET found the ring full, and whatever others did to any key in
   between, the keyspace it leaves is the one that its last attempt alone would
   have left (versions apart, which count the attempts), as long as no EXPIRE
   caught the key while only the earlier attempts kept it alive.
   */
  lemma RetriesCollapse(s: Store, k: Key, f: Field, v: Bytes, items: seq<Item>, now: int)
    requires CountsOk(s) && ItemsOk(items) && (items != [] ==> items[|items| - 1].now <= now)
    requires Unseen(s, k, f, v, items)
    ensures Collapses(s, k, f, v, items, now)
  {
    AttemptsStayNear(s, k, f, v, items, now);
    CountsAlwaysOk(s, k, f, v, items);
    OthersCountsOk(s, items);
    LastTryDecides(AfterItems(s, k, f, v, items), AfterOthers(s, items), k, f, v, now);
  }

  // ----- What HSET reports -----

  predicate OnlyTries(items: seq<Item>) {
    forall i :: 0 <= i < |items| ==> items[i].Try?
  }

  ghost predicate NeverExpires(s: Store, k: Key) {
    k in s ==> s[k].expireAt == None
  }

  lemma {:induction false} TriedFieldIsThere(s: Store, k: Key, f: Field, v: Bytes, items: seq<Item>)
    requires NeverExpires(s, k) && (k in s ==> s[k].kind == KHash) && OnlyTries(items)
    ensures var t := AfterItems(s, k, f, v, items);
            && NeverExpires(t, k) && (k in t ==> t[k].kind == KHash)
            && (items != [] ==> k in t && f in t[k].fields) && (items == [] ==> t == s)
  {
    if items != [] {
      assert items[|items| - 1].Try?;
      TriedFieldIsThere(s, k, f, v, items[..|items| - 1]);
    }
  }

  /**
   The reply is another matter. On a hash without expiry that nobody else
   touches, it is the reply of a single HSET if and only if no retry happened
   or the field was there before: a retried insert is reported as an overwrite.
   */
  lemma RetriedReplyIsFaithful(s: Store, k: Key, f: Field, v: Bytes, items: seq<Item>, now: int)
    requires NeverExpires(s, k) && (k in s ==> s[k].kind == KHash) && OnlyTries(items)
    ensures Hset(AfterItems(s, k, f, v, items), k, f, v, now).1 == if items == [] && !(k in s && f in s[k].fields) then New else Overwrite
    ensures Hset(AfterItems(s, k, f, v, items), k, f, v, now).1 == Hset(s, k, f, v, now).1
      <==> items == [] || (k in s && f in s[k].fields)
  {
    TriedFieldIsThere(s, k, f, v, items);
  }
}
