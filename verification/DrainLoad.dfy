/**
 Asynchronous persistence, end to end for scalars: a SET or INCR published with
 its encoded value, drained in any batch and loaded later, gives the value back.
 */
module DrainLoad {
  import opened Base
  import opened Tables
  import opened Tlv
  import opened Session
  import opened AsyncDrain
  import opened Load

  /** A row of encoded bytes that is not expired loads as the scalar it encodes. */
  lemma RowLoads(r: Db, k: Key, x: Tlv.Scalar, now: int, t: State)
    requires LoadedKey(r, now, t, k) && k in r.store && |k| <= MAX_KEY_SIZE
    requires r.store[k].expireAt.Some? ==> now < r.store[k].expireAt.value
    requires match x
             case Str(b) => |b| < UINT32_SPAN && r.store[k].kind == KString && r.store[k].value == Some(Encode(Str(b)))
             case Int(i) => IsInt64(i) && r.store[k].kind == KInt && r.store[k].value == Some(Encode(Int(i)))
    ensures k in t.entries && t.entries[k].expireAt == r.store[k].expireAt
    ensures t.entries[k].value == match x case Str(b) => VStr(b) case Int(i) => VInt(i)
  {
    match x
    case Str(b) => StringRoundTrip(b);
    case Int(i) => IntRoundTrip(i);
  }

  lemma EncodedIsNotEmpty(x: Tlv.Scalar)
    requires x.Int? ==> IsInt64(x.i)
    ensures Encode(x) != []
  {
    assert x.Str? ==> Encode(x)[0] == TAG_STRING;
    assert x.Int? ==> Encode(x)[0] == TAG_INT;
  }

  lemma DrainedScalarLoads(db: Db, cs: seq<Change>, i: nat, x: Tlv.Scalar, r: Db, now: int, t: State)
    requires LastUpsertAt(cs, i) && KeyDelete(cs[i].k) !in cs && RunPlans(db, Group(cs)) == Some(r)
    requires match x
             case Str(b) => |b| < UINT32_SPAN && cs[i].kind == KString && cs[i].tlv == Encode(Str(b))
             case Int(n) => IsInt64(n) && cs[i].kind == KInt && cs[i].tlv == Encode(Int(n))
    requires |cs[i].k| <= MAX_KEY_SIZE && (cs[i].expireAt.Some? ==> now < cs[i].expireAt.value)
    requires LoadedKey(r, now, t, cs[i].k)
    ensures cs[i].k in t.entries && t.entries[cs[i].k].expireAt == cs[i].expireAt
    ensures t.entries[cs[i].k].value == match x case Str(b) => VStr(b) case Int(n) => VInt(n)
  {
    DrainedRow(db, cs, i);
    EncodedIsNotEmpty(x);
    RowLoads(r, cs[i].k, x, now, t);
  }
}
