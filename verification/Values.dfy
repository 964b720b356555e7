/** Session-mode lists with stable ordinals (src/list.c). */
module ListValues {
  import opened Base

  /** `pending` marks a node whose row is not in pgredis.list_items yet. */
  datatype Node = Node(value: Bytes, ord: int, pending: bool)

  datatype ListState = ListState(nodes: seq<Node>, minOrd: int, maxOrd: int, ordInit: bool, deletes: seq<int>)

  const NEW_LIST := ListState([], 0, -1, false, [])

  function PushLeft(l: ListState, v: Bytes): ListState {
    if !l.ordInit
    then l.(nodes := [Node(v, 0, true)] + l.nodes, minOrd := 0, maxOrd := 0, ordInit := true)
    else l.(nodes := [Node(v, l.minOrd - 1, true)] + l.nodes, minOrd := l.minOrd - 1)
  }

  function PushRight(l: ListState, v: Bytes): ListState {
    if !l.ordInit
    then l.(nodes := l.nodes + [Node(v, 0, true)], minOrd := 0, maxOrd := 0, ordInit := true)
    else l.(nodes := l.nodes + [Node(v, l.maxOrd + 1, true)], maxOrd := l.maxOrd + 1)
  }

  /** Only a node that was already durable needs a delete at flush. */
  function Recorded(l: ListState, n: Node): seq<int> {
    if n.pending then l.deletes else [n.ord] + l.deletes
  }

  function PopLeft(l: ListState): ListState
    requires l.nodes != []
  {
    var rest, dels := l.nodes[1..], Recorded(l, l.nodes[0]);
    if rest == [] then NEW_LIST.(deletes := dels) else l.(nodes := rest, minOrd := rest[0].ord, deletes := dels)
  }

  function PopRight(l: ListState): ListState
    requires l.nodes != []
  {
    var n := |l.nodes| - 1;
    var rest, dels := l.nodes[..n], Recorded(l, l.nodes[n]);
    if rest == [] then NEW_LIST.(deletes := dels) else l.(nodes := rest, maxOrd := rest[n - 1].ord, deletes := dels)
  }

  ghost predicate Increasing(nodes: seq<Node>) {
    forall i, j :: 0 <= i < j < |nodes| ==> nodes[i].ord < nodes[j].ord
  }

  /** Ordinals strictly increase from head to tail, with min_ord and max_ord at the ends. */
  ghost predicate Ordered(l: ListState) {
    && Increasing(l.nodes)
    && (l.ordInit <==> l.nodes != [])
    && (l.nodes == [] ==> l.minOrd == 0 && l.maxOrd == -1)
    && (l.nodes != [] ==> l.minOrd == l.nodes[0].ord && l.maxOrd == l.nodes[|l.nodes| - 1].ord)
  }

  ghost predicate HasOrd(l: ListState, o: int) {
    exists n :: n in l.nodes && n.ord == o
  }

  /** A live node with ordinal `o` whose row is already durable. */
  ghost predicate DurableAt(l: ListState, o: int) {
    exists n :: n in l.nodes && n.ord == o && !n.pending
  }

  /** An ordinal names one node. */
  lemma OneNode(l: ListState, a: Node, b: Node)
    requires Ordered(l) && a in l.nodes && b in l.nodes && a.ord == b.ord
    ensures a == b
  {
    var i :| 0 <= i < |l.nodes| && l.nodes[i] == a;
    var j :| 0 <= j < |l.nodes| && l.nodes[j] == b;
  }

  lemma OneNodeEach(l: ListState)
    requires Ordered(l)
    ensures forall a, b :: a in l.nodes && b in l.nodes && a.ord == b.ord ==> a == b
  {
    forall a, b | a in l.nodes && b in l.nodes && a.ord == b.ord
      ensures a == b
    {
      OneNode(l, a, b);
    }
  }

  lemma PendingIsNotDurable(l: ListState, o: int, v: Bytes)
    requires Ordered(l) && Node(v, o, true) in l.nodes
    ensures !DurableAt(l, o)
  {
    forall n | n in l.nodes && n.ord == o
      ensures n.pending
    {
      OneNode(l, n, Node(v, o, true));
    }
  }

  ghost function ValuesOf(nodes: seq<Node>): seq<Bytes> {
    seq(|nodes|, i requires 0 <= i < |nodes| => nodes[i].value)
  }

  /** A push puts the value at its end of the list and leaves the nodes that were there as they were. */
  lemma PushMeans(l: ListState, v: Bytes)
    ensures var l' := PushLeft(l, v);
            l'.nodes != [] && l'.nodes[1..] == l.nodes && l'.nodes[0].pending && ValuesOf(l'.nodes) == [v] + ValuesOf(l.nodes) && l'.deletes == l.deletes
    ensures var l' := PushRight(l, v); var n := |l.nodes|;
            |l'.nodes| == n + 1 && l'.nodes[..n] == l.nodes && l'.nodes[n].pending && ValuesOf(l'.nodes) == ValuesOf(l.nodes) + [v] && l'.deletes == l.deletes
  {
  }

  /** The ordinal of the new node: 0 in an empty list, else one beyond its end. */
  lemma PushedOrdinal(l: ListState, v: Bytes)
    requires Ordered(l)
    ensures PushLeft(l, v).nodes[0].ord == if l.nodes == [] then 0 else l.nodes[0].ord - 1
    ensures PushRight(l, v).nodes[|l.nodes|].ord == if l.nodes == [] then 0 else l.nodes[|l.nodes| - 1].ord + 1
  {
  }

  lemma PushIsOrdered(l: ListState, v: Bytes, left: bool)
    requires Ordered(l)
    ensures Ordered(if left then PushLeft(l, v) else PushRight(l, v))
  {
    assert forall i :: 0 <= i < |l.nodes| ==> l.nodes[0].ord <= l.nodes[i].ord <= l.nodes[|l.nodes| - 1].ord;
  }

  lemma PushKeepsOrder(l: ListState, v: Bytes, left: bool)
    requires Ordered(l)
    ensures var l' := if left then PushLeft(l, v) else PushRight(l, v);
            && Ordered(l')
            && exists o :: (forall n :: n in l'.nodes <==> n in l.nodes || n == Node(v, o, true))
                           && forall n :: n in l.nodes ==> n.ord != o
  {
    var l' := if left then PushLeft(l, v) else PushRight(l, v);
    var o := if !l.ordInit then 0 else if left then l.minOrd - 1 else l.maxOrd + 1;
    PushIsOrdered(l, v, left);
    assert forall n :: n in l'.nodes <==> n in l.nodes || n == Node(v, o, true);
    assert forall i :: 0 <= i < |l.nodes| ==> l.nodes[0].ord <= l.nodes[i].ord <= l.nodes[|l.nodes| - 1].ord;
  }

  lemma PopKeepsOrder(l: ListState, left: bool)
    requires Ordered(l) && l.nodes != []
    ensures var n := |l.nodes| - 1;
            var l', x := if left then PopLeft(l) else PopRight(l), if left then l.nodes[0] else l.nodes[n];
            && Ordered(l') && l'.deletes == (if x.pending then l.deletes else [x.ord] + l.deletes) && x in l.nodes
            && forall y :: y in l'.nodes <==> y in l.nodes && y != x
  {
    var n := |l.nodes| - 1;
    var l', x := if left then PopLeft(l) else PopRight(l), if left then l.nodes[0] else l.nodes[n];
    var rest := if left then l.nodes[1..] else l.nodes[..n];
    assert l'.nodes == rest;
    assert l.nodes == if left then [x] + rest else rest + [x];
    assert Increasing(rest);
  }

  /** PgRedisList, mutated in place. */
  class List {
    var nodes: seq<Node>
    var length: int
    var minOrd: int
    var maxOrd: int
    var ordInit: bool
    var deletes: seq<int>

    function State(): ListState
      reads this
    {
      ListState(nodes, minOrd, maxOrd, ordInit, deletes)
    }

    ghost predicate Valid()
      reads this
    {
      length == |nodes|
    }

    constructor (l: ListState)
      ensures Valid() && State() == l
    {
      nodes, length, minOrd, maxOrd, ordInit, deletes := l.nodes, |l.nodes|, l.minOrd, l.maxOrd, l.ordInit, l.deletes;
    }

    method Push(value: Bytes, left: bool) returns (newLength: int)
      requires Valid()
      modifies this
      ensures Valid() && newLength == length == old(length) + 1
      ensures Ordered(old(State())) ==> Ordered(State())
      ensures ValuesOf(nodes) == if left then [value] + ValuesOf(old(nodes)) else ValuesOf(old(nodes)) + [value]
      ensures State() == if left then PushLeft(old(State()), value) else PushRight(old(State()), value)
    {
      PushMeans(State(), value);
      if Ordered(State()) {
        PushIsOrdered(State(), value, left);
      }
      var ord;
      if !ordInit {
        ord := 0;
        minOrd, maxOrd, ordInit := 0, 0, true;
      } else if left {
        ord := minOrd - 1;
        minOrd := ord;
      } else {
        ord := maxOrd + 1;
        maxOrd := ord;
      }
      nodes := if left then [Node(value, ord, true)] + nodes else nodes + [Node(value, ord, true)];
      length := length + 1;
      return length;
    }

    method Pop(left: bool) returns (r: Option<Bytes>)
      requires Valid()
      modifies this
      ensures Valid() && (Ordered(old(State())) ==> Ordered(State()))
      ensures old(nodes) == [] ==> r == None && State() == old(State())
      ensures old(nodes) != [] ==>
        && r == Some(old(if left then nodes[0].value else nodes[|nodes| - 1].value))
        && nodes == (if left then old(nodes)[1..] else old(nodes)[..|old(nodes)| - 1])
        && deletes == (var x := if left then old(nodes)[0] else old(nodes)[|old(nodes)| - 1]; if x.pending then old(deletes) else [x.ord] + old(deletes))
        && State() == if left then PopLeft(old(State())) else PopRight(old(State()))
    {
      if nodes == [] {
        return None;
      }
      if Ordered(State()) {
        PopKeepsOrder(State(), left);
      }
      var n := if left then nodes[0] else nodes[|nodes| - 1];
      if !n.pending {
        deletes := [n.ord] + deletes;
      }
      nodes := if left then nodes[1..] else nodes[..|nodes| - 1];
      if nodes != [] {
        if left {
          minOrd := nodes[0].ord;
        } else {
          maxOrd := nodes[|nodes| - 1].ord;
        }
      } else {
        ordInit, minOrd, maxOrd := false, 0, -1;
      }
      length := length - 1;
      return Some(n.value);
    }
  }
}

/** Session-mode hashes with dirty flags and tombstones (src/hash_value.c). */
module HashValues {
  import opened Base

  datatype Cell = Cell(value: Bytes, dirty: bool)

  datatype HashState = HashState(fields: map<Bytes, Cell>, tombstones: seq<Bytes>)

  const NEW_HASH := HashState(map[], [])

  function SetField(h: HashState, f: Bytes, v: Bytes): HashState {
    h.(fields := h.fields[f := Cell(v, true)])
  }

  function DelField(h: HashState, f: Bytes): HashState {
    if f in h.fields then HashState(h.fields - {f}, [f] + h.tombstones) else h
  }

  /** PgRedisHash, mutated in place. */
  class Hash {
    var fields: map<Bytes, Cell>
    var fieldCount: int
    var tombstones: seq<Bytes>

    function State(): HashState
      reads this
    {
      HashState(fields, tombstones)
    }

    ghost predicate Valid()
      reads this
    {
      fieldCount == |fields|
    }

    constructor (h: HashState)
      ensures Valid() && State() == h
    {
      fields, fieldCount, tombstones := h.fields, |h.fields|, h.tombstones;
    }

    /** None is the field-length error. */
    method Set(field: Bytes, value: Bytes) returns (isNew: Option<bool>)
      requires Valid()
      modifies this
      ensures Valid()
      ensures |field| > MAX_FIELD_SIZE ==> isNew == None && State() == old(State())
      ensures |field| <= MAX_FIELD_SIZE ==>
        && isNew == Some(field !in old(fields)) && State() == SetField(old(State()), field, value)
        && fields == old(fields)[field := Cell(value, true)] && tombstones == old(tombstones)
    {
      if |field| > MAX_FIELD_SIZE {
        return None;
      }
      var found := field in fields;
      ghost var before := fields.Keys;
      if !found {
        fieldCount := fieldCount + 1;
      }
      fields := fields[field := Cell(value, true)];
      assert fields.Keys == before + {field};
      return Some(!found);
    }

    method Get(field: Bytes) returns (r: Option<Bytes>)
      ensures |field| <= MAX_FIELD_SIZE ==> r == if field in fields then Some(fields[field].value) else None
      ensures |field| > MAX_FIELD_SIZE ==> r == None
    {
      if |field| > MAX_FIELD_SIZE || field !in fields {
        return None;
      }
      return Some(fields[field].value);
    }

    method Del(field: Bytes) returns (removed: bool)
      requires Valid()
      modifies this
      ensures Valid()
      ensures removed == (|field| <= MAX_FIELD_SIZE && field in old(fields))
      ensures State() == if removed then DelField(old(State()), field) else old(State())
      ensures removed ==> fields == old(fields) - {field} && tombstones == [field] + old(tombstones)
    {
      if |field| > MAX_FIELD_SIZE || field !in fields {
        return false;
      }
      ghost var before := fields.Keys;
      fields := fields - {field};
      assert before == fields.Keys + {field};
      if fieldCount > 0 {
        fieldCount := fieldCount - 1;
      }
      tombstones := [field] + tombstones;
      return true;
    }
  }
}
