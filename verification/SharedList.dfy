/**
 The DSA-backed deque of storage_mode = 'shared' (src/shared_list.c): a doubly
 linked list whose nodes and values are chunks of the shared arena. It refines
 a sequence, and every chunk has exactly one owner.
 */
module SharedList {
  import opened Base
  import opened Dsa
  import L = ListValues

  const UINT16_SPAN := 0x1_0000

  /** One list element: where its node and value live, and what it holds. */
  datatype Cell = Cell(node: Ptr, valueDsa: Ptr, ord: int, value: Bytes)

  /** What survives the 16-bit length field of a node. */
  function Stored(v: Bytes): Bytes {
    v[..|v| % UINT16_SPAN]
  }

  lemma StoredExactly(v: Bytes)
    ensures Stored(v) == v <==> |v| <= UINT16_MAX
  {
    if |v| <= UINT16_MAX {
      assert v[..|v|] == v;
    }
  }

  // ----- The chain -----

  ghost function PrevOf(cells: seq<Cell>, i: nat): Ptr
    requires i < |cells|
  {
    if i == 0 then INVALID else cells[i - 1].node
  }

  ghost function NextOf(cells: seq<Cell>, i: nat): Ptr
    requires i < |cells|
  {
    if i + 1 == |cells| then INVALID else cells[i + 1].node
  }

  ghost predicate ValueOk(c: Cell, chunks: map<Ptr, Chunk>) {
    && (c.valueDsa == INVALID ==> c.value == [])
    && (c.valueDsa != INVALID ==>
          && c.valueDsa in chunks && chunks[c.valueDsa].Data?
          && |c.value| <= |chunks[c.valueDsa].bytes| && chunks[c.valueDsa].bytes[..|c.value|] == c.value)
  }

  /** Node `i` mirrors its neighbours and carries its ordinal and value. */
  ghost predicate CellOk(cells: seq<Cell>, i: nat, chunks: map<Ptr, Chunk>)
    requires i < |cells|
  {
    && cells[i].node != INVALID && cells[i].node in chunks
    && chunks[cells[i].node] == ListNode(PrevOf(cells, i), NextOf(cells, i), cells[i].ord, |cells[i].value|, cells[i].valueDsa)
    && ValueOk(cells[i], chunks)
  }

  ghost predicate Linked(cells: seq<Cell>, chunks: map<Ptr, Chunk>) {
    forall i :: 0 <= i < |cells| ==> CellOk(cells, i, chunks)
  }

  lemma Ends(cells: seq<Cell>, chunks: map<Ptr, Chunk>)
    requires Linked(cells, chunks)
    ensures cells != [] ==> CellOk(cells, 0, chunks) && CellOk(cells, |cells| - 1, chunks)
    ensures |cells| > 1 ==> CellOk(cells, 1, chunks) && CellOk(cells, |cells| - 2, chunks)
  {
  }

  // ----- Ownership -----

  ghost function One(b: bool): nat {
    if b then 1 else 0
  }

  ghost function Held(c: Cell, p: Ptr): nat {
    One(c.node == p) + One(c.valueDsa == p && p != INVALID)
  }

  ghost function Owned(cells: seq<Cell>, p: Ptr): nat {
    if cells == [] then 0 else Held(cells[0], p) + Owned(cells[1..], p)
  }

  ghost predicate OwnsExactly(cells: seq<Cell>, chunks: map<Ptr, Chunk>, others: map<Ptr, Chunk>) {
    && (forall p {:trigger Owned(cells, p)} :: One(p in chunks) == One(p in others) + Owned(cells, p))
    && forall p :: p in others && p in chunks ==> chunks[p] == others[p]
  }

  lemma {:induction false} OwnedAppend(a: seq<Cell>, b: seq<Cell>, p: Ptr)
    ensures Owned(a + b, p) == Owned(a, p) + Owned(b, p)
  {
    if a == [] {
      assert a + b == b;
    } else {
      assert (a + b)[1..] == a[1..] + b;
      OwnedAppend(a[1..], b, p);
    }
  }

  lemma OwnedOne(c: Cell, p: Ptr)
    ensures Owned([c], p) == Held(c, p)
  {
    assert [c][1..] == [];
  }

  lemma {:induction false} HeldIsOwned(cells: seq<Cell>, i: nat, p: Ptr)
    requires i < |cells|
    ensures Held(cells[i], p) <= Owned(cells, p)
  {
    if 0 < i {
      HeldIsOwned(cells[1..], i - 1, p);
    }
  }

  lemma {:induction false} TwoHeldAreOwned(cells: seq<Cell>, i: nat, j: nat, p: Ptr)
    requires i < j < |cells|
    ensures Held(cells[i], p) + Held(cells[j], p) <= Owned(cells, p)
  {
    if 0 < i {
      TwoHeldAreOwned(cells[1..], i - 1, j - 1, p);
    } else {
      HeldIsOwned(cells[1..], j - 1, p);
    }
  }

  /** What one cell holds is live, foreign to the other owners, and held by no other cell. */
  lemma HeldOnce(cells: seq<Cell>, i: nat, p: Ptr, chunks: map<Ptr, Chunk>, others: map<Ptr, Chunk>)
    requires OwnsExactly(cells, chunks, others) && i < |cells| && 0 < Held(cells[i], p)
    ensures p in chunks && p !in others && Held(cells[i], p) == 1
    ensures forall j :: 0 <= j < |cells| && j != i ==> Held(cells[j], p) == 0
  {
    HeldIsOwned(cells, i, p);
    forall j | 0 <= j < |cells| && j != i
      ensures Held(cells[j], p) == 0
    {
      TwoHeldAreOwned(cells, if i < j then i else j, if i < j then j else i, p);
    }
  }

  /** The chunks of cell `i` are its own: different from each other and from those of cell `j`. */
  lemma Apart(cells: seq<Cell>, i: nat, j: nat, chunks: map<Ptr, Chunk>, others: map<Ptr, Chunk>)
    requires OwnsExactly(cells, chunks, others) && Linked(cells, chunks) && i < |cells| && j < |cells|
    ensures cells[i].node in chunks && cells[i].node !in others && cells[i].node != cells[i].valueDsa
    ensures cells[i].valueDsa != INVALID ==> cells[i].valueDsa in chunks && cells[i].valueDsa !in others
    ensures i != j ==> cells[i].node != cells[j].node && cells[i].node != cells[j].valueDsa && cells[j].node != cells[i].valueDsa
    ensures i != j && cells[i].valueDsa != INVALID ==> cells[i].valueDsa != cells[j].valueDsa
  {
    assert CellOk(cells, i, chunks) && CellOk(cells, j, chunks);
    HeldOnce(cells, i, cells[i].node, chunks, others);
    if cells[i].valueDsa != INVALID {
      HeldOnce(cells, i, cells[i].valueDsa, chunks, others);
    }
  }

  // ----- Pure effects of the four end operations -----

  /** The arena after new_node. */
  ghost function WithNode(c: map<Ptr, Chunk>, x: Cell, bytes: Bytes, prev: Ptr, next: Ptr): map<Ptr, Chunk> {
    var n := ListNode(prev, next, x.ord, |x.value|, x.valueDsa);
    if x.valueDsa == INVALID then c[x.node := n] else c[x.node := n][x.valueDsa := Data(bytes)]
  }

  ghost predicate FreshCell(c: map<Ptr, Chunk>, x: Cell, bytes: Bytes) {
    && x.node != INVALID && x.node !in c
    && (x.valueDsa == INVALID ==> x.value == [])
    && (x.valueDsa != INVALID ==> x.valueDsa !in c && x.valueDsa != x.node && |x.value| <= |bytes| && bytes[..|x.value|] == x.value)
  }

  lemma PushedFront(cells: seq<Cell>, c: map<Ptr, Chunk>, others: map<Ptr, Chunk>, x: Cell, bytes: Bytes, c': map<Ptr, Chunk>)
    requires Linked(cells, c) && OwnsExactly(cells, c, others) && FreshCell(c, x, bytes) && INVALID !in c
    requires cells == [] ==> c' == WithNode(c, x, bytes, INVALID, INVALID)
    requires cells != [] ==>
      && cells[0].node in c && c[cells[0].node].ListNode?
      && c' == WithNode(c, x, bytes, INVALID, cells[0].node)[cells[0].node := c[cells[0].node].(prev := x.node)]
    ensures Linked([x] + cells, c') && OwnsExactly([x] + cells, c', others)
  {
    var cells' := [x] + cells;
    forall p
      ensures One(p in c') == One(p in others) + Owned(cells', p)
    {
      assert cells'[1..] == cells;
      assert One(p in c) == One(p in others) + Owned(cells, p);
    }
    if cells != [] {
      Apart(cells, 0, 0, c, others);
    }
    forall i | 0 <= i < |cells'|
      ensures CellOk(cells', i, c')
    {
      if 0 < i {
        assert CellOk(cells, i - 1, c);
        Apart(cells, i - 1, 0, c, others);
      }
    }
  }

  lemma PushedBack(cells: seq<Cell>, c: map<Ptr, Chunk>, others: map<Ptr, Chunk>, x: Cell, bytes: Bytes, c': map<Ptr, Chunk>)
    requires Linked(cells, c) && OwnsExactly(cells, c, others) && FreshCell(c, x, bytes) && INVALID !in c
    requires cells == [] ==> c' == WithNode(c, x, bytes, INVALID, INVALID)
    requires cells != [] ==>
      var last := cells[|cells| - 1].node;
      && last in c && c[last].ListNode?
      && c' == WithNode(c, x, bytes, last, INVALID)[last := c[last].(next := x.node)]
    ensures Linked(cells + [x], c') && OwnsExactly(cells + [x], c', others)
  {
    var cells', n := cells + [x], |cells| - 1;
    if cells != [] {
      Apart(cells, n, n, c, others);
    }
    assert OwnsExactly(cells', c', others) by {
      forall p
        ensures One(p in c') == One(p in others) + Owned(cells', p)
        ensures p in others && p in c' ==> c'[p] == others[p]
      {
        OwnedAppend(cells, [x], p);
        OwnedOne(x, p);
        assert One(p in c) == One(p in others) + Owned(cells, p);
      }
    }
    forall i | 0 <= i < |cells'|
      ensures CellOk(cells', i, c')
    {
      if i < |cells| {
        assert CellOk(cells, i, c);
        Apart(cells, i, n, c, others);
      }
    }
  }

  lemma PoppedFront(cells: seq<Cell>, c: map<Ptr, Chunk>, others: map<Ptr, Chunk>, c': map<Ptr, Chunk>)
    requires cells != [] && Linked(cells, c) && OwnsExactly(cells, c, others) && INVALID !in c
    requires |cells| == 1 ==> c' == c - {cells[0].valueDsa} - {cells[0].node}
    requires |cells| > 1 ==>
      && cells[1].node in c && c[cells[1].node].ListNode?
      && c' == c[cells[1].node := c[cells[1].node].(prev := INVALID)] - {cells[0].valueDsa} - {cells[0].node}
    ensures Linked(cells[1..], c') && OwnsExactly(cells[1..], c', others)
  {
    var rest := cells[1..];
    Apart(cells, 0, 0, c, others);
    forall p
      ensures One(p in c') == One(p in others) + Owned(rest, p)
      ensures p in others && p in c' ==> c'[p] == others[p]
    {
      assert One(p in c) == One(p in others) + Owned(cells, p);
      if |cells| > 1 {
        Apart(cells, 0, 1, c, others);
        Apart(cells, 1, 0, c, others);
      }
    }
    forall i | 0 <= i < |rest|
      ensures CellOk(rest, i, c')
    {
      assert CellOk(cells, i + 1, c);
      Apart(cells, i + 1, 0, c, others);
      Apart(cells, i + 1, 1, c, others);
    }
  }

  lemma PoppedBack(cells: seq<Cell>, c: map<Ptr, Chunk>, others: map<Ptr, Chunk>, c': map<Ptr, Chunk>)
    requires cells != [] && Linked(cells, c) && OwnsExactly(cells, c, others) && INVALID !in c
    requires var n := |cells| - 1; n == 0 ==> c' == c - {cells[n].valueDsa} - {cells[n].node}
    requires var n := |cells| - 1; n > 0 ==>
      && cells[n - 1].node in c && c[cells[n - 1].node].ListNode?
      && c' == c[cells[n - 1].node := c[cells[n - 1].node].(next := INVALID)] - {cells[n].valueDsa} - {cells[n].node}
    ensures Linked(cells[..|cells| - 1], c') && OwnsExactly(cells[..|cells| - 1], c', others)
  {
    var n := |cells| - 1;
    var rest := cells[..n];
    Apart(cells, n, n, c, others);
    if n > 0 {
      Apart(cells, n, n - 1, c, others);
      Apart(cells, n - 1, n, c, others);
    }
    LastReleased(cells, c, others, c');
    forall i | 0 <= i < |rest|
      ensures CellOk(rest, i, c')
    {
      assert CellOk(cells, i, c);
      Apart(cells, i, n, c, others);
      Apart(cells, i, n - 1, c, others);
    }
  }

  /** Ownership after the last cell gave up its two chunks. */
  lemma LastReleased(cells: seq<Cell>, c: map<Ptr, Chunk>, others: map<Ptr, Chunk>, c': map<Ptr, Chunk>)
    requires cells != [] && OwnsExactly(cells, c, others) && INVALID !in c
    requires var x := cells[|cells| - 1]; c'.Keys == c.Keys - {x.valueDsa} - {x.node}
    requires var x := cells[|cells| - 1]; x.node in c && x.node != x.valueDsa
    requires forall p :: p in others && p in c' ==> c'[p] == c[p]
    ensures OwnsExactly(cells[..|cells| - 1], c', others)
  {
    var n := |cells| - 1;
    var rest, x := cells[..n], cells[n];
    assert cells == rest + [x];
    forall p
      ensures One(p in c') == One(p in others) + Owned(rest, p)
    {
      assert One(p in c) == One(p in others) + Owned(cells, p);
      OwnedAppend(rest, [x], p);
      OwnedOne(x, p);
      assert p in c' <==> p in c && p != x.valueDsa && p != x.node;
    }
  }

  ghost predicate Increasing(cells: seq<Cell>) {
    forall i, j :: 0 <= i < j < |cells| ==> cells[i].ord < cells[j].ord
  }

  /** What the list meta says about the cells: exact length, both ends, ordinals rising from head to tail. */
  ghost predicate MetaOk(cells: seq<Cell>, head: Ptr, tail: Ptr, length: int, minOrd: int, maxOrd: int, ordInit: bool) {
    && length == |cells| && Increasing(cells) && (ordInit <==> cells != [])
    && (cells == [] ==> head == tail == INVALID && minOrd == 0 && maxOrd == -1)
    && (cells != [] ==>
          && head == cells[0].node != INVALID && tail == cells[|cells| - 1].node != INVALID
          && minOrd == cells[0].ord && maxOrd == cells[|cells| - 1].ord)
  }

  lemma MetaPushed(cells: seq<Cell>, head: Ptr, tail: Ptr, length: int, minOrd: int, maxOrd: int, ordInit: bool, x: Cell)
    requires MetaOk(cells, head, tail, length, minOrd, maxOrd, ordInit) && x.node != INVALID
    ensures x.ord == (if ordInit then minOrd - 1 else 0) ==>
      MetaOk([x] + cells, x.node, if ordInit then tail else x.node, length + 1, x.ord, if ordInit then maxOrd else x.ord, true)
    ensures x.ord == (if ordInit then maxOrd + 1 else 0) ==>
      MetaOk(cells + [x], if ordInit then head else x.node, x.node, length + 1, if ordInit then minOrd else x.ord, x.ord, true)
  {
    var n := |cells| - 1;
    assert forall i :: 0 <= i < n ==> cells[0].ord <= cells[i].ord < cells[n].ord;
  }

  /** The list meta of a shared entry. `cells` is the sequence it refines. */
  class SharedList {
    const arena: Arena
    var head: Ptr
    var tail: Ptr
    var length: int
    var minOrd: int
    var maxOrd: int
    var ordInit: bool
    ghost var cells: seq<Cell>

    ghost predicate Valid(others: map<Ptr, Chunk>)
      reads this, arena
    {
      && arena.Valid() && Linked(cells, arena.chunks) && OwnsExactly(cells, arena.chunks, others)
      && MetaOk(cells, head, tail, length, minOrd, maxOrd, ordInit)
    }

    constructor (arena: Arena)
      requires arena.Valid()
      ensures this.arena == arena && Valid(arena.chunks) && cells == []
    {
      this.arena := arena;
      head, tail, length, minOrd, maxOrd, ordInit, cells := INVALID, INVALID, 0, 0, -1, false, [];
    }

    /** Node first, then value; the node is given back when the value does not fit. */
    method NewNode(value: Bytes, ord: int) returns (p: Ptr, q: Ptr)
      requires arena.Valid()
      modifies arena
      ensures arena.Valid() && arena.failures == old(arena.failures) + One(p == INVALID)
      ensures p == INVALID ==> arena.chunks == old(arena.chunks)
      ensures p != INVALID ==>
        var x := Cell(p, q, ord, Stored(value));
        FreshCell(old(arena.chunks), x, value) && arena.chunks == WithNode(old(arena.chunks), x, value, INVALID, INVALID)
    {
      q := INVALID;
      p := arena.Alloc(ListNode(INVALID, INVALID, 0, 0, INVALID));
      if p == INVALID {
        return;
      }
      if 0 < |value| {
        q := arena.Alloc(Data(value));
        if q == INVALID {
          arena.Free(p);
          assert arena.chunks == old(arena.chunks);
          p := INVALID;
          return;
        }
      }
      arena.Write(p, ListNode(INVALID, INVALID, ord, |value| % UINT16_SPAN, q));
    }

    method FreeNode(node: Ptr, valueDsa: Ptr)
      requires arena.Valid() && node in arena.chunks && node != valueDsa
      requires valueDsa == INVALID || valueDsa in arena.chunks
      modifies arena
      ensures arena.Valid() && arena.chunks == old(arena.chunks) - {valueDsa} - {node}
    {
      arena.Free(valueDsa);
      arena.Free(node);
    }

    /** Allocate the node, point it at the old end, and point the old end back at it. */
    method Attach(value: Bytes, ord: int, left: bool, end: Ptr) returns (p: Ptr, q: Ptr)
      requires arena.Valid() && (end != INVALID ==> end in arena.chunks && arena.chunks[end].ListNode?)
      modifies arena
      ensures arena.Valid() && arena.failures == old(arena.failures) + One(p == INVALID)
      ensures p == INVALID ==> arena.chunks == old(arena.chunks)
      ensures p != INVALID ==>
        var x, c := Cell(p, q, ord, Stored(value)), old(arena.chunks);
        && FreshCell(c, x, value)
        && (end == INVALID ==> arena.chunks == WithNode(c, x, value, INVALID, INVALID))
        && (end != INVALID && left ==> arena.chunks == WithNode(c, x, value, INVALID, end)[end := c[end].(prev := p)])
        && (end != INVALID && !left ==> arena.chunks == WithNode(c, x, value, end, INVALID)[end := c[end].(next := p)])
    {
      p, q := NewNode(value, ord);
      if p == INVALID || end == INVALID {
        return;
      }
      if left {
        arena.Write(p, arena.chunks[p].(next := end));
        arena.Write(end, arena.chunks[end].(prev := p));
      } else {
        arena.Write(p, arena.chunks[p].(prev := end));
        arena.Write(end, arena.chunks[end].(next := p));
      }
    }

    /** A linked and owned new cell at one end; the list meta is not yet updated. */
    method PushCell(value: Bytes, ord: int, left: bool, ghost others: map<Ptr, Chunk>) returns (p: Ptr, q: Ptr)
      requires Valid(others)
      modifies arena
      ensures arena.Valid() && unchanged(this) && arena.failures == old(arena.failures) + One(p == INVALID)
      ensures p == INVALID ==> arena.chunks == old(arena.chunks)
      ensures p != INVALID ==>
        var x := Cell(p, q, ord, Stored(value));
        var cells' := if left then [x] + cells else cells + [x];
        Linked(cells', arena.chunks) && OwnsExactly(cells', arena.chunks, others)
    {
      ghost var c0 := arena.chunks;
      Ends(cells, c0);
      p, q := Attach(value, ord, left, if left then head else tail);
      if p != INVALID {
        if left {
          PushedFront(cells, c0, others, Cell(p, q, ord, Stored(value)), value, arena.chunks);
        } else {
          PushedBack(cells, c0, others, Cell(p, q, ord, Stored(value)), value, arena.chunks);
        }
      }
    }

    /** Move one end of the list meta to the new cell. */
    method MoveEnd(p: Ptr, ord: int, left: bool, ghost x: Cell)
      requires MetaOk(cells, head, tail, length, minOrd, maxOrd, ordInit)
      requires x.node == p != INVALID && x.ord == ord == NextOrd(left)
      modifies this
      ensures MetaOk(cells, head, tail, length, minOrd, maxOrd, ordInit)
      ensures cells == (if left then [x] + old(cells) else old(cells) + [x]) && length == old(length) + 1
    {
      MetaPushed(cells, head, tail, length, minOrd, maxOrd, ordInit, x);
      if head == INVALID {
        head, tail := p, p;
      } else if left {
        head := p;
      } else {
        tail := p;
      }
      if !ordInit {
        minOrd, maxOrd, ordInit := ord, ord, true;
      } else if left {
        minOrd := ord;
      } else {
        maxOrd := ord;
      }
      length := length + 1;
      cells := if left then [x] + cells else cells + [x];
    }

    function NextOrd(left: bool): int
      reads this
    {
      if !ordInit then 0 else if left then minOrd - 1 else maxOrd + 1
    }

    method Push(value: Bytes, left: bool, ghost others: map<Ptr, Chunk>) returns (newLength: Option<int>, ghost x: Cell)
      requires Valid(others)
      modifies this, arena
      ensures Valid(others)
      ensures arena.failures == old(arena.failures) + One(newLength.None?)
      ensures newLength.None? ==> cells == old(cells) && arena.chunks == old(arena.chunks)
      ensures newLength.Some? ==>
        && newLength.value == length == old(length) + 1
        && cells == (if left then [x] + old(cells) else old(cells) + [x]) && x.value == Stored(value)
        && x.ord == if old(cells) == [] then 0 else if left then old(cells)[0].ord - 1 else old(cells)[|old(cells)| - 1].ord + 1
    {
      var ord := NextOrd(left);
      var p, q := PushCell(value, ord, left, others);
      x := Cell(p, q, ord, Stored(value));
      if p == INVALID {
        return None, x;
      }
      MoveEnd(p, ord, left, x);
      return Some(length), x;
    }

    method PopLeft(ghost others: map<Ptr, Chunk>) returns (r: Option<(Bytes, int)>)
      requires Valid(others)
      modifies this, arena
      ensures Valid(others)
      ensures old(cells) == [] <==> r.None?
      ensures r.None? ==> cells == old(cells) && arena.chunks == old(arena.chunks)
      ensures r.Some? ==>
        && r.value == old((cells[0].value, cells[0].ord))
        && cells == old(cells)[1..] && length == old(length) - 1
    {
      ghost var c0, cs := arena.chunks, cells;
      Ends(cs, c0);
      if head == INVALID {
        return None;
      }
      Apart(cs, 0, 0, c0, others);
      var gone := head;
      var node := arena.chunks[gone];
      var value := if node.valueDsa == INVALID then [] else arena.chunks[node.valueDsa].bytes[..node.valueLen];
      head := node.next;
      if node.next != INVALID {
        Apart(cs, 0, 1, c0, others);
        var n := arena.chunks[node.next];
        arena.Write(node.next, n.(prev := INVALID));
        minOrd := n.ord;
      } else {
        tail := INVALID;
        minOrd, maxOrd, ordInit := 0, -1, false;
      }
      length := length - 1;
      FreeNode(gone, node.valueDsa);
      PoppedFront(cs, c0, others, arena.chunks);
      cells := cs[1..];
      return Some((value, node.ord));
    }

    method PopRight(ghost others: map<Ptr, Chunk>) returns (r: Option<(Bytes, int)>)
      requires Valid(others)
      modifies this, arena
      ensures Valid(others)
      ensures old(cells) == [] <==> r.None?
      ensures r.None? ==> cells == old(cells) && arena.chunks == old(arena.chunks)
      ensures r.Some? ==>
        && r.value == old((cells[|cells| - 1].value, cells[|cells| - 1].ord))
        && cells == old(cells)[..|old(cells)| - 1] && length == old(length) - 1
    {
      ghost var c0, cs := arena.chunks, cells;
      Ends(cs, c0);
      if tail == INVALID {
        return None;
      }
      Apart(cs, |cs| - 1, |cs| - 1, c0, others);
      var gone := tail;
      var node := arena.chunks[gone];
      var value := if node.valueDsa == INVALID then [] else arena.chunks[node.valueDsa].bytes[..node.valueLen];
      tail := node.prev;
      if node.prev != INVALID {
        Apart(cs, |cs| - 1, |cs| - 2, c0, others);
        var n := arena.chunks[node.prev];
        arena.Write(node.prev, n.(next := INVALID));
        maxOrd := n.ord;
      } else {
        head := INVALID;
        minOrd, maxOrd, ordInit := 0, -1, false;
      }
      length := length - 1;
      FreeNode(gone, node.valueDsa);
      PoppedBack(cs, c0, others, arena.chunks);
      cells := cs[..|cs| - 1];
      return Some((value, node.ord));
    }

    /** Frees every node from the head on; nothing of other owners is touched. */
    method Release(ghost others: map<Ptr, Chunk>)
      requires Valid(others)
      modifies this, arena
      ensures Valid(others) && cells == [] && arena.chunks == others
    {
      var cur := head;
      ghost var left := cells;
      LinkedIsForward(left, arena.chunks);
      while cur != INVALID
        invariant arena.Valid() && OwnsExactly(left, arena.chunks, others) && ForwardLinked(left, arena.chunks)
        invariant cur == if left == [] then INVALID else left[0].node
        decreases |left|
      {
        FirstReleased(left, arena.chunks, others);
        var node := arena.chunks[cur];
        FreeNode(cur, node.valueDsa);
        cur := node.next;
        left := left[1..];
      }
      assert forall p :: Owned([], p) == 0 && (One(p in arena.chunks) == One(p in others) + Owned(left, p));
      head, tail, length, minOrd, maxOrd, ordInit, cells := INVALID, INVALID, 0, 0, -1, false, [];
    }

    /** A local copy with the durable ordinals; None stands for the NULL of an empty list. */
    method Materialize(ghost others: map<Ptr, Chunk>) returns (r: Option<L.ListState>)
      requires Valid(others)
      ensures r.None? <==> cells == []
      ensures r.Some? ==>
        && L.Ordered(r.value) && r.value.deletes == [] && |r.value.nodes| == |cells|
        && forall i :: 0 <= i < |cells| ==> r.value.nodes[i] == L.Node(cells[i].value, cells[i].ord, false)
    {
      Ends(cells, arena.chunks);
      LinkedIsForward(cells, arena.chunks);
      if head == INVALID {
        return None;
      }
      var nodes: seq<L.Node> := [];
      var cur := head;
      ghost var i := 0;
      while cur != INVALID
        invariant 0 <= i <= |cells| && |nodes| == i
        invariant cur == if i == |cells| then INVALID else cells[i].node
        invariant forall j :: 0 <= j < i ==> nodes[j] == L.Node(cells[j].value, cells[j].ord, false)
        decreases |cells| - i
      {
        assert CellOk(cells, i, arena.chunks);
        var node := arena.chunks[cur];
        var value := if node.valueDsa == INVALID then [] else arena.chunks[node.valueDsa].bytes[..node.valueLen];
        nodes := nodes + [L.Node(value, node.ord, false)];
        cur := node.next;
        i := i + 1;
      }
      assert L.Increasing(nodes) by {
        assert forall j :: 0 <= j < |cells| ==> nodes[j].ord == cells[j].ord;
      }
      return Some(L.ListState(nodes, minOrd, maxOrd, ordInit, []));
    }
  }

  /** While freeing, only the forward links still matter. */
  ghost predicate ForwardLinked(cells: seq<Cell>, chunks: map<Ptr, Chunk>) {
    forall i :: 0 <= i < |cells| ==>
      && cells[i].node != INVALID && cells[i].node in chunks && chunks[cells[i].node].ListNode?
      && chunks[cells[i].node].next == NextOf(cells, i) && chunks[cells[i].node].valueDsa == cells[i].valueDsa
  }

  lemma LinkedIsForward(cells: seq<Cell>, chunks: map<Ptr, Chunk>)
    requires Linked(cells, chunks)
    ensures ForwardLinked(cells, chunks)
  {
    forall i | 0 <= i < |cells|
      ensures cells[i].node in chunks
      ensures chunks[cells[i].node] == ListNode(PrevOf(cells, i), NextOf(cells, i), cells[i].ord, |cells[i].value|, cells[i].valueDsa)
      ensures cells[i].node != INVALID
    {
      assert CellOk(cells, i, chunks);
    }
  }

  lemma FirstReleased(cells: seq<Cell>, c: map<Ptr, Chunk>, others: map<Ptr, Chunk>)
    requires cells != [] && OwnsExactly(cells, c, others) && ForwardLinked(cells, c) && INVALID !in c
    ensures var x := cells[0];
            && x.node in c && x.node != x.valueDsa && (x.valueDsa == INVALID || x.valueDsa in c)
            && var c' := c - {x.valueDsa} - {x.node};
               OwnsExactly(cells[1..], c', others) && ForwardLinked(cells[1..], c')
  {
    var x, rest := cells[0], cells[1..];
    HeldOnce(cells, 0, x.node, c, others);
    if x.valueDsa != INVALID {
      HeldOnce(cells, 0, x.valueDsa, c, others);
    }
    var c' := c - {x.valueDsa} - {x.node};
    forall p
      ensures One(p in c') == One(p in others) + Owned(rest, p)
    {
      assert One(p in c) == One(p in others) + Owned(cells, p);
    }
    forall i | 0 <= i < |rest|
      ensures rest[i].node in c' && NextOf(rest, i) == NextOf(cells, i + 1)
    {
      assert rest[i] == cells[i + 1];
      HeldOnce(cells, i + 1, rest[i].node, c, others);
    }
  }
}
