/** What packed tables mean: the order in which a table's entries are enumerated does not matter. */
module SeriValues {
  import opened Seri

  datatype Value =
    | VNil | VBool(b: bool) | VInt(i: int) | VReal(bits: seq<Byte>) | VPointer(bits: seq<Byte>) | VStr(s: seq<Byte>)
    | VTable(entries: map<Value, Value>)

  /** lua_rawset and lua_rawseti */
  function RawSet(m: map<Value, Value>, k: Value, v: Value): map<Value, Value> {
    if v == VNil then m - {k} else m[k := v]
  }

  /** The value that unpack_one builds. */
  function Denote(t: Tree): Value
    decreases t
  {
    match t
    case Nil => VNil
    case Bool(b) => VBool(b)
    case Int(i) => VInt(i)
    case Real(bits) => VReal(bits)
    case Pointer(bits) => VPointer(bits)
    case Str(s) => VStr(s)
    case Table(arr, pairs) => VTable(SetPairs(SetElems(map[], 1, arr), pairs))
  }

  function SetElems(m: map<Value, Value>, i: nat, ts: Trees): map<Value, Value>
    decreases ts
  {
    if ts.End? then m else SetElems(RawSet(m, VInt(i), Denote(ts.head)), i + 1, ts.tail)
  }

  function SetPairs(m: map<Value, Value>, ps: Pairs): map<Value, Value>
    decreases ps
  {
    if ps.Done? then m else SetPairs(RawSet(m, Denote(ps.key), Denote(ps.val)), ps.rest)
  }

  /** The field of a table; nil if there is none. */
  function Field(m: map<Value, Value>, k: Value): Value { if k in m then m[k] else VNil }

  ghost predicate IsKey(ps: Pairs, k: Value) { ps.Entry? && (Denote(ps.key) == k || IsKey(ps.rest, k)) }

  /** The elements are the fields from `i` on. */
  ghost predicate ElemsOf(m: map<Value, Value>, i: nat, ts: Trees)
    decreases ts
  {
    ts.Elem? ==> Field(m, VInt(i)) == Denote(ts.head) && ElemsOf(m, i + 1, ts.tail)
  }

  /** Each entry is listed once, outside of the array part, with its value. */
  ghost predicate EntriesOf(m: map<Value, Value>, n: nat, ps: Pairs)
    decreases ps
  {
    ps.Entry? ==>
      var k := Denote(ps.key);
      && k in m && m[k] == Denote(ps.val)
      && !(k.VInt? && 1 <= k.i <= n)
      && !IsKey(ps.rest, k)
      && EntriesOf(m, n, ps.rest)
  }

  /** A faithful enumeration of a table, in any order. No field of a table is nil. */
  ghost predicate Enumerates(t: Tree, m: map<Value, Value>) {
    && t.Table?
    && (forall k :: k in m ==> m[k] != VNil)
    && ElemsOf(m, 1, t.arr) && EntriesOf(m, Count(t.arr), t.pairs)
    && (forall k :: k in m ==> (k.VInt? && 1 <= k.i <= Count(t.arr)) || IsKey(t.pairs, k))
  }

  lemma {:induction false} SetElemsFields(m: map<Value, Value>, i: nat, ts: Trees, full: map<Value, Value>, k: Value)
    requires ElemsOf(full, i, ts)
    ensures Field(SetElems(m, i, ts), k) ==
            if k.VInt? && i <= k.i < i + Count(ts) then Field(full, k) else Field(m, k)
    decreases ts
  {
    if ts.Elem? { SetElemsFields(RawSet(m, VInt(i), Denote(ts.head)), i + 1, ts.tail, full, k); }
  }

  lemma {:induction false} SetPairsFields(m: map<Value, Value>, n: nat, ps: Pairs, full: map<Value, Value>, k: Value)
    requires EntriesOf(full, n, ps)
    ensures Field(SetPairs(m, ps), k) == if IsKey(ps, k) then Field(full, k) else Field(m, k)
    decreases ps
  {
    if ps.Entry? { SetPairsFields(RawSet(m, Denote(ps.key), Denote(ps.val)), n, ps.rest, full, k); }
  }

  /** No field of a built table is nil. */
  lemma {:induction false} SetPairsProper(m: map<Value, Value>, ps: Pairs)
    requires forall k :: k in m ==> m[k] != VNil
    ensures forall k :: k in SetPairs(m, ps) ==> SetPairs(m, ps)[k] != VNil
    decreases ps
  {
    if ps.Entry? { SetPairsProper(RawSet(m, Denote(ps.key), Denote(ps.val)), ps.rest); }
  }

  lemma {:induction false} SetElemsProper(m: map<Value, Value>, i: nat, ts: Trees)
    requires forall k :: k in m ==> m[k] != VNil
    ensures forall k :: k in SetElems(m, i, ts) ==> SetElems(m, i, ts)[k] != VNil
    decreases ts
  {
    if ts.Elem? { SetElemsProper(RawSet(m, VInt(i), Denote(ts.head)), i + 1, ts.tail); }
  }

  lemma SameFields(m: map<Value, Value>, n: map<Value, Value>)
    requires (forall k :: k in m ==> m[k] != VNil) && (forall k :: k in n ==> n[k] != VNil)
    requires forall k :: Field(m, k) == Field(n, k)
    ensures m == n
  {
    forall k ensures k in m <==> k in n { assert Field(m, k) == Field(n, k); }
    forall k | k in m ensures m[k] == n[k] { assert Field(m, k) == Field(n, k); }
  }

  /** Whatever the order of the enumeration, unpacking rebuilds the table. */
  lemma AnyOrder(t: Tree, m: map<Value, Value>)
    requires Enumerates(t, m)
    ensures Denote(t) == VTable(m)
  {
    var a := SetElems(map[], 1, t.arr);
    var b := SetPairs(a, t.pairs);
    SetElemsProper(map[], 1, t.arr);
    SetPairsProper(a, t.pairs);
    forall k ensures Field(b, k) == Field(m, k) {
      SetPairsFields(a, Count(t.arr), t.pairs, m, k);
      SetElemsFields(map[], 1, t.arr, m, k);
    }
    SameFields(b, m);
  }

  /** A table survives packing and unpacking. */
  lemma TableRoundTrip(t: Tree, m: map<Value, Value>, rest: seq<Byte>)
    requires Proper(t) && Enumerates(t, m)
    ensures var r := Decode(Encode(t) + rest); r.Ok? && r.rest == rest && Denote(r.value) == VTable(m)
  {
    RoundTrip(t, rest);
    AnyOrder(t, m);
  }
}
