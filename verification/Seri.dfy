/** lua-seri.c: the format in which Lua values are packed, and that unpacking inverts packing. */
module Seri {
  import opened Arith

  type Byte = i: int | 0 <= i < 256

  /** A Lua value as packing sees it: a table as its array elements and then its other
      entries in the order in which they are enumerated. Reals and pointers are raw bytes. */
  datatype Tree =
    | Nil
    | Bool(b: bool)
    | Int(i: int)
    | Real(bits: seq<Byte>)
    | Pointer(bits: seq<Byte>)
    | Str(s: seq<Byte>)
    | Table(arr: Trees, pairs: Pairs)

  datatype Trees = End | Elem(head: Tree, tail: Trees)

  datatype Pairs = Done | Entry(key: Tree, val: Tree, rest: Pairs)

  const TYPE_NIL := 0
  const TYPE_BOOLEAN := 1
  const TYPE_NUMBER := 2
  const TYPE_USERDATA := 3
  const TYPE_SHORT_STRING := 4
  const TYPE_LONG_STRING := 5
  const TYPE_TABLE := 6

  const ZERO := 0
  const BYTE := 1
  const WORD := 2
  const DWORD := 4
  const QWORD := 6
  const REAL := 8

  const MAX_COOKIE := 32
  const MAX_DEPTH := 32

  /** COMBINE_TYPE */
  function Combine(t: nat, v: nat): (b: Byte)
    requires t < 8 && v < 32
    ensures b % 8 == t && b / 8 == v
  {
    t + 8 * v
  }

  function Power256(k: nat): nat { if k == 0 then 1 else 256 * Power256(k - 1) }

  /** The `k` low bytes of a number, least significant first: its image in memory. */
  function Bytes(v: int, k: nat): (s: seq<Byte>)
    ensures |s| == k
    decreases k
  {
    if k == 0 then [] else [v % 256] + Bytes(v / 256, k - 1)
  }

  function Unsigned(s: seq<Byte>): nat { if s == [] then 0 else s[0] + 256 * Unsigned(s[1..]) }

  function Signed(s: seq<Byte>): int {
    if Unsigned(s) < Power256(|s|) / 2 then Unsigned(s) else Unsigned(s) - Power256(|s|)
  }

  lemma {:induction false} BytesRound(v: int, k: nat)
    ensures Power256(k) > 0 && Unsigned(Bytes(v, k)) == v % Power256(k)
    decreases k
  {
    if k > 0 {
      BytesRound(v / 256, k - 1);
      ModSplit(v, Power256(k - 1));
    }
  }

  lemma ModSplit(v: int, p: nat)
    requires p > 0
    ensures v % (256 * p) == v % 256 + 256 * (v / 256 % p)
  {
    var q, r := v / 256 / p, v / 256 % p;
    assert v / 256 == p * q + r;
    assert v == 256 * (p * q + r) + v % 256 == 256 * p * q + (256 * r + v % 256);
    Quotient(v, 256 * p, q, 256 * r + v % 256);
  }

  lemma Powers()
    ensures Power256(1) == 0x100 && Power256(2) == 0x1_0000 && Power256(4) == 0x1_0000_0000
    ensures Power256(8) == 0x1_0000_0000_0000_0000
  {
    assert Power256(3) == 0x100_0000;
    assert Power256(6) == 256 * Power256(5);
  }

  // Packing

  predicate IsInt32(v: int) { -0x8000_0000 <= v < 0x8000_0000 }

  predicate IsInt64(v: int) { -0x8000_0000_0000_0000 <= v < 0x8000_0000_0000_0000 }

  /** wb_integer */
  function EncodeInt(v: int): (s: seq<Byte>)
    ensures s != []
  {
    if v == 0 then [Combine(TYPE_NUMBER, ZERO)]
    else if !IsInt32(v) then [Combine(TYPE_NUMBER, QWORD)] + Bytes(v, 8)
    else if v < 0 then [Combine(TYPE_NUMBER, DWORD)] + Bytes(v, 4)
    else if v < 0x100 then [Combine(TYPE_NUMBER, BYTE)] + Bytes(v, 1)
    else if v < 0x1_0000 then [Combine(TYPE_NUMBER, WORD)] + Bytes(v, 2)
    else [Combine(TYPE_NUMBER, DWORD)] + Bytes(v, 4)
  }

  /** wb_string */
  function EncodeStr(s: seq<Byte>): (r: seq<Byte>)
    ensures r != []
  {
    if |s| < MAX_COOKIE then [Combine(TYPE_SHORT_STRING, |s|)] + s
    else if |s| < 0x1_0000 then [Combine(TYPE_LONG_STRING, 2)] + Bytes(|s|, 2) + s
    else [Combine(TYPE_LONG_STRING, 4)] + Bytes(|s|, 4) + s
  }

  function Count(ts: Trees): nat { if ts.End? then 0 else 1 + Count(ts.tail) }

  /** The head of wb_table_array. */
  function EncodeCount(n: nat): (s: seq<Byte>)
    ensures s != []
  {
    if n >= MAX_COOKIE - 1 then [Combine(TYPE_TABLE, MAX_COOKIE - 1)] + EncodeInt(n) else [Combine(TYPE_TABLE, n)]
  }

  function Encode(t: Tree): (s: seq<Byte>)
    ensures s != []
  {
    match t
    case Nil => [Combine(TYPE_NIL, 0)]
    case Bool(b) => [Combine(TYPE_BOOLEAN, if b then 1 else 0)]
    case Int(i) => EncodeInt(i)
    case Real(bits) => [Combine(TYPE_NUMBER, REAL)] + bits
    case Pointer(bits) => [Combine(TYPE_USERDATA, 0)] + bits
    case Str(s) => EncodeStr(s)
    case Table(arr, pairs) => EncodeCount(Count(arr)) + EncodeElems(arr) + EncodePairs(pairs)
  }

  function EncodeElems(ts: Trees): seq<Byte> {
    if ts.End? then [] else Encode(ts.head) + EncodeElems(ts.tail)
  }

  /** wb_table_hash: the entries and a final nil. */
  function EncodePairs(ps: Pairs): (s: seq<Byte>)
    ensures s != []
  {
    if ps.Done? then [Combine(TYPE_NIL, 0)] else Encode(ps.key) + Encode(ps.val) + EncodePairs(ps.rest)
  }

  /** Lua's own limits: 64-bit integers, 8-byte reals and pointers, sizes that fit an int,
      and no nil among the keys. */
  predicate Proper(t: Tree) {
    match t
    case Int(i) => IsInt64(i)
    case Real(bits) => |bits| == 8
    case Pointer(bits) => |bits| == 8
    case Str(s) => |s| < 0x8000_0000
    case Table(arr, pairs) => Count(arr) < 0x8000_0000 && ProperElems(arr) && ProperPairs(pairs)
    case _ => true
  }

  predicate ProperElems(ts: Trees) { ts.Elem? ==> Proper(ts.head) && ProperElems(ts.tail) }

  predicate ProperPairs(ps: Pairs) {
    ps.Entry? ==> !ps.key.Nil? && Proper(ps.key) && Proper(ps.val) && ProperPairs(ps.rest)
  }

  /** What pack_one at this depth accepts. */
  predicate Packable(t: Tree, depth: nat)
  {
    depth <= MAX_DEPTH && (t.Table? ==> PackableElems(t.arr, depth + 1) && PackablePairs(t.pairs, depth + 1))
  }

  predicate PackableElems(ts: Trees, depth: nat) {
    ts.Elem? ==> Packable(ts.head, depth) && PackableElems(ts.tail, depth)
  }

  predicate PackablePairs(ps: Pairs, depth: nat) {
    ps.Entry? ==> Packable(ps.key, depth) && Packable(ps.val, depth) && PackablePairs(ps.rest, depth)
  }

  // Unpacking

  datatype Result<T> = Ok(value: T, rest: seq<Byte>) | Invalid

  /** rb_read. A negative length passes its test, but the only caller that can have one then
      hands it to lua_pushlstring as a size, which raises an error of its own. */
  function Read(s: seq<Byte>, n: int): (r: Result<seq<Byte>>)
    ensures r.Ok? ==> |r.rest| <= |s|
  {
    if n < 0 || |s| < n then Invalid else Ok(s[..n], s[n..])
  }

  /** get_integer */
  function DecodeInt(cookie: nat, s: seq<Byte>): (r: Result<int>)
    ensures r.Ok? ==> |r.rest| <= |s|
  {
    if cookie == ZERO then Ok(0, s)
    else if cookie == BYTE then AsUnsigned(Read(s, 1))
    else if cookie == WORD then AsUnsigned(Read(s, 2))
    else if cookie == DWORD then AsSigned(Read(s, 4))
    else if cookie == QWORD then AsSigned(Read(s, 8))
    else Invalid
  }

  // The meaning of what was read

  function AsUnsigned(r: Result<seq<Byte>>): Result<int> { if r.Ok? then Ok(Unsigned(r.value), r.rest) else Invalid }
  function AsSigned(r: Result<seq<Byte>>): Result<int> { if r.Ok? then Ok(Signed(r.value), r.rest) else Invalid }
  function AsCount(r: Result<int>): Result<int> { if r.Ok? then Ok(ToInt32(r.value), r.rest) else Invalid }
  function AsReal(r: Result<seq<Byte>>): Result<Tree> { if r.Ok? then Ok(Real(r.value), r.rest) else Invalid }
  function AsPointer(r: Result<seq<Byte>>): Result<Tree> { if r.Ok? then Ok(Pointer(r.value), r.rest) else Invalid }
  function AsStr(r: Result<seq<Byte>>): Result<Tree> { if r.Ok? then Ok(Str(r.value), r.rest) else Invalid }
  function AsInt(r: Result<int>): Result<Tree> { if r.Ok? then Ok(Int(r.value), r.rest) else Invalid }

  /** An integer cut to 32 bits, as the C assignment to an int does. */
  function ToInt32(v: int): int {
    var u := v % 0x1_0000_0000;
    if u < 0x8000_0000 then u else u - 0x1_0000_0000
  }

  /** The head of unpack_table: the number of array elements. */
  function DecodeCount(cookie: nat, s: seq<Byte>): (r: Result<int>)
    ensures r.Ok? ==> |r.rest| <= |s|
  {
    if cookie != MAX_COOKIE - 1 then Ok(cookie, s)
    else if s == [] || s[0] % 8 != TYPE_NUMBER || s[0] / 8 == REAL then Invalid
    else AsCount(DecodeInt(s[0] / 8, s[1..]))
  }

  function DecodeStr(cookie: nat, s: seq<Byte>): (r: Result<seq<Byte>>)
    ensures r.Ok? ==> |r.rest| <= |s|
  {
    if cookie != 2 && cookie != 4 then Invalid
    else
      var n := Read(s, cookie);
      if n.Invalid? then Invalid else Read(n.rest, ToInt32(Unsigned(n.value)))
  }

  /** unpack_one and push_value */
  function Decode(s: seq<Byte>): (r: Result<Tree>)
    ensures r.Ok? ==> |r.rest| < |s|
    decreases |s|, 2
  {
    if s == [] then Invalid
    else
      var t, cookie, s1 := s[0] % 8, s[0] / 8, s[1..];
      if t == TYPE_NIL then Ok(Nil, s1)
      else if t == TYPE_BOOLEAN then Ok(Bool(cookie != 0), s1)
      else if t == TYPE_NUMBER then
        if cookie == REAL then AsReal(Read(s1, 8)) else AsInt(DecodeInt(cookie, s1))
      else if t == TYPE_USERDATA then AsPointer(Read(s1, 8))
      else if t == TYPE_SHORT_STRING then AsStr(Read(s1, cookie))
      else if t == TYPE_LONG_STRING then AsStr(DecodeStr(cookie, s1))
      else if t == TYPE_TABLE then DecodeTable(cookie, s1)
      else Invalid
  }

  /** unpack_table */
  function DecodeTable(cookie: nat, s: seq<Byte>): (r: Result<Tree>)
    ensures r.Ok? ==> |r.rest| <= |s|
    decreases |s|, 4
  {
    var n := DecodeCount(cookie, s);
    if n.Invalid? then Invalid
    else
      var a := DecodeElems(n.value, n.rest);
      if a.Invalid? then Invalid
      else
        var p := DecodePairs(a.rest);
        if p.Invalid? then Invalid else Ok(Table(a.value, p.value), p.rest)
  }

  function DecodeElems(n: int, s: seq<Byte>): (r: Result<Trees>)
    ensures r.Ok? ==> |r.rest| <= |s|
    decreases |s|, 3
  {
    if n <= 0 then Ok(End, s)
    else
      var h := Decode(s);
      if h.Invalid? then Invalid
      else
        var t := DecodeElems(n - 1, h.rest);
        if t.Invalid? then Invalid else Ok(Elem(h.value, t.value), t.rest)
  }

  function DecodePairs(s: seq<Byte>): (r: Result<Pairs>)
    ensures r.Ok? ==> |r.rest| <= |s|
    decreases |s|, 3
  {
    var k := Decode(s);
    if k.Invalid? then Invalid
    else if k.value.Nil? then Ok(Done, k.rest)
    else
      var v := Decode(k.rest);
      if v.Invalid? then Invalid
      else
        var p := DecodePairs(v.rest);
        if p.Invalid? then Invalid else Ok(Entry(k.value, v.value, p.value), p.rest)
  }

  // The round trip

  lemma ReadExact(a: seq<Byte>, rest: seq<Byte>)
    ensures Read(a + rest, |a|) == Ok(a, rest)
  {
  }

  lemma UnsignedRound(v: nat, k: nat)
    requires v < Power256(k)
    ensures Unsigned(Bytes(v, k)) == v
  {
    BytesRound(v, k);
    hide Bytes;
    hide Unsigned;
    hide Power256;
  }

  lemma SignedRound(v: int, k: nat)
    requires Power256(k) % 2 == 0 && -(Power256(k) / 2) <= v < Power256(k) / 2
    ensures Signed(Bytes(v, k)) == v
  {
    BytesRound(v, k);
    var p := Power256(k);
    hide Bytes;
    hide Unsigned;
    hide Power256;
    if v < 0 { Quotient(v, p, -1, v + p); } else { Quotient(v, p, 0, v); }
  }

  /** An integer's cookie, and how many bytes follow. */
  function Width(cookie: nat): nat {
    if cookie == ZERO then 0
    else if cookie == BYTE then 1
    else if cookie == WORD then 2
    else if cookie == DWORD then 4
    else 8
  }

  function Cookie(v: int): (c: nat)
    ensures c <= 6
  {
    if v == 0 then ZERO else if !IsInt32(v) then QWORD else if v < 0 then DWORD
    else if v < 0x100 then BYTE else if v < 0x1_0000 then WORD else DWORD
  }

  lemma EncodeIntIs(v: int)
    ensures EncodeInt(v) == [Combine(TYPE_NUMBER, Cookie(v))] + Bytes(v, Width(Cookie(v)))
  {
  }

  lemma DecodeIntIs(v: int, rest: seq<Byte>)
    requires IsInt64(v)
    ensures DecodeInt(Cookie(v), Bytes(v, Width(Cookie(v))) + rest) == Ok(v, rest)
  {
    Powers();
    var c := Cookie(v);
    assert |Bytes(v, Width(c))| == Width(c);
    ReadExact(Bytes(v, Width(c)), rest);
    if c == BYTE || c == WORD { UnsignedRound(v, Width(c)); }
    if c == DWORD || c == QWORD { SignedRound(v, Width(c)); }
    if c == ZERO { assert Bytes(v, 0) + rest == rest; }
    hide Bytes;
    hide Power256;
    hide Read;
  }

  lemma IntRound(v: int, rest: seq<Byte>)
    requires IsInt64(v)
    ensures var s := EncodeInt(v) + rest;
            && s[0] % 8 == TYPE_NUMBER && s[0] / 8 != REAL && DecodeInt(s[0] / 8, s[1..]) == Ok(v, rest)
  {
    hide DecodeInt;
    hide EncodeInt;
    hide Bytes;
    EncodeIntIs(v);
    DecodeIntIs(v, rest);
    assert (EncodeInt(v) + rest)[1..] == Bytes(v, Width(Cookie(v))) + rest;
  }

  lemma CountRound(n: nat, rest: seq<Byte>)
    requires n < 0x8000_0000
    ensures var s := EncodeCount(n) + rest;
            s[0] % 8 == TYPE_TABLE && DecodeCount(s[0] / 8, s[1..]) == Ok(n, rest)
  {
    hide DecodeInt;
    hide EncodeInt;
    if n >= MAX_COOKIE - 1 {
      IntRound(n, rest);
      var u := EncodeInt(n) + rest;
      var s := [Combine(TYPE_TABLE, MAX_COOKIE - 1)] + u;
      Assoc([Combine(TYPE_TABLE, MAX_COOKIE - 1)], EncodeInt(n), rest);
      assert s[1..] == u;
    } else {
      assert (EncodeCount(n) + rest)[1..] == rest;
    }
  }

  lemma StrRound(b: seq<Byte>, rest: seq<Byte>)
    requires |b| < 0x8000_0000
    ensures Decode(EncodeStr(b) + rest) == Ok(Str(b), rest)
  {
    if |b| < MAX_COOKIE {
      var s := EncodeStr(b) + rest;
      assert s[1..] == b + rest;
      ReadExact(b, rest);
      hide Read;
    } else {
      LongStrRound(b, rest, if |b| < 0x1_0000 then 2 else 4);
    }
  }

  lemma LongStrRound(b: seq<Byte>, rest: seq<Byte>, k: nat)
    requires MAX_COOKIE <= |b| < 0x8000_0000 && k == if |b| < 0x1_0000 then 2 else 4
    ensures Decode(EncodeStr(b) + rest) == Ok(Str(b), rest)
  {
    LongStrLayout(b, rest, k);
    DecodeStrIs(b, rest, k);
    DecodeLong(k, Bytes(|b|, k) + (b + rest));
    hide Decode;
    hide DecodeStr;
    hide EncodeStr;
    hide Bytes;
  }

  lemma LongStrLayout(b: seq<Byte>, rest: seq<Byte>, k: nat)
    requires MAX_COOKIE <= |b| < 0x8000_0000 && k == if |b| < 0x1_0000 then 2 else 4
    ensures EncodeStr(b) + rest == [Combine(TYPE_LONG_STRING, k)] + (Bytes(|b|, k) + (b + rest))
  {
    hide Bytes;
  }

  lemma DecodeLong(k: nat, body: seq<Byte>)
    requires k < 32
    ensures Decode([Combine(TYPE_LONG_STRING, k)] + body) == AsStr(DecodeStr(k, body))
  {
    var s := [Combine(TYPE_LONG_STRING, k)] + body;
    assert s[0] == Combine(TYPE_LONG_STRING, k) && s[1..] == body;
    hide DecodeStr;
    hide DecodeTable;
    hide DecodeInt;
  }

  lemma FitsInt32(n: nat)
    requires n < 0x8000_0000
    ensures ToInt32(n) == n
  {
  }

  lemma DecodeStrIs(b: seq<Byte>, rest: seq<Byte>, k: nat)
    requires |b| < 0x8000_0000 && (k == 4 || (k == 2 && |b| < 0x1_0000))
    ensures DecodeStr(k, Bytes(|b|, k) + (b + rest)) == Ok(b, rest)
  {
    Powers();
    UnsignedRound(|b|, k);
    FitsInt32(|b|);
    hide Bytes;
    hide Unsigned;
    hide Power256;
    hide Read;
    hide ToInt32;
    ReadExact(Bytes(|b|, k), b + rest);
    ReadExact(b, rest);
  }

  /** Unpacking what was packed gives the value back and leaves what follows it. */
  lemma {:induction false} RoundTrip(t: Tree, rest: seq<Byte>)
    requires Proper(t)
    ensures Decode(Encode(t) + rest) == Ok(t, rest)
    decreases t, 1
  {
    var s := Encode(t) + rest;
    match t
    case Nil =>
    case Bool(b) =>
    case Int(i) => IntRound(i, rest);
    case Real(bits) => assert s[1..] == bits + rest; ReadExact(bits, rest);
    case Pointer(bits) => assert s[1..] == bits + rest; ReadExact(bits, rest);
    case Str(b) => StrRound(b, rest);
    case Table(arr, pairs) => TableRound(arr, pairs, rest);
  }

  lemma {:induction false} TableRound(arr: Trees, pairs: Pairs, rest: seq<Byte>)
    requires Proper(Table(arr, pairs))
    ensures Decode(Encode(Table(arr, pairs)) + rest) == Ok(Table(arr, pairs), rest)
    decreases Table(arr, pairs), 0
  {
    hide EncodeCount;
    hide DecodeCount;
    hide EncodeElems;
    hide DecodeElems;
    hide EncodePairs;
    hide DecodePairs;
    var c, e, p := EncodeCount(Count(arr)), EncodeElems(arr), EncodePairs(pairs);
    var s := c + (e + (p + rest));
    assert Encode(Table(arr, pairs)) + rest == s;
    CountRound(Count(arr), e + (p + rest));
    ElemsRound(arr, p + rest);
    PairsRound(pairs, rest);
  }

  lemma {:induction false} ElemsRound(ts: Trees, rest: seq<Byte>)
    requires ProperElems(ts)
    ensures DecodeElems(Count(ts), EncodeElems(ts) + rest) == Ok(ts, rest)
    decreases ts, 0
  {
    if ts.End? {
      assert EncodeElems(ts) + rest == rest;
    } else {
      assert EncodeElems(ts) + rest == Encode(ts.head) + (EncodeElems(ts.tail) + rest);
      RoundTrip(ts.head, EncodeElems(ts.tail) + rest);
      ElemsRound(ts.tail, rest);
    }
  }

  lemma {:induction false} PairsRound(ps: Pairs, rest: seq<Byte>)
    requires ProperPairs(ps)
    ensures DecodePairs(EncodePairs(ps) + rest) == Ok(ps, rest)
    decreases ps, 0
  {
    if ps.Done? {
      NilRound(rest);
    } else {
      var more := EncodePairs(ps.rest) + rest;
      assert EncodePairs(ps) + rest == Encode(ps.key) + (Encode(ps.val) + more);
      RoundTrip(ps.key, Encode(ps.val) + more);
      RoundTrip(ps.val, more);
      PairsRound(ps.rest, rest);
    }
  }

  lemma NilRound(rest: seq<Byte>)
    ensures Decode([Combine(TYPE_NIL, 0)] + rest) == Ok(Nil, rest)
  {
    assert ([Combine(TYPE_NIL, 0)] + rest)[1..] == rest;
  }

  /** pack_from and luaseri_unpack: lists of values. */
  function EncodeList(ts: seq<Tree>): seq<Byte> {
    if ts == [] then [] else EncodeList(ts[..|ts| - 1]) + Encode(ts[|ts| - 1])
  }

  function DecodeList(s: seq<Byte>): Result<seq<Tree>>
    decreases |s|
  {
    if s == [] then Ok([], [])
    else
      var h := Decode(s);
      if h.Invalid? then Invalid
      else
        var t := DecodeList(h.rest);
        if t.Invalid? then Invalid else Ok([h.value] + t.value, [])
  }

  lemma FirstOfList(t: Tree, more: seq<Byte>)
    requires Proper(t)
    ensures DecodeList(more).Ok? ==> DecodeList(Encode(t) + more) == Ok([t] + DecodeList(more).value, [])
  {
    RoundTrip(t, more);
    hide Encode;
    hide Decode;
  }

  lemma DecodeListRest(s: seq<Byte>)
    ensures DecodeList(s).Ok? ==> DecodeList(s).rest == []
  {
  }

  /** For any list of values all bytes are consumed, and the values come back. */
  lemma {:induction false} ListRoundTrip(ts: seq<Tree>, more: seq<Byte>)
    requires (forall t :: t in ts ==> Proper(t)) && DecodeList(more).Ok?
    ensures DecodeList(EncodeList(ts) + more) == Ok(ts + DecodeList(more).value, [])
  {
    hide Encode;
    hide Decode;
    if ts == [] {
      NoneInList(more);
    } else {
      var n := |ts| - 1;
      var more' := Encode(ts[n]) + more;
      FirstOfList(ts[n], more);
      ListRoundTrip(ts[..n], more');
      ListLayout(ts, more);
      hide DecodeList;
      hide EncodeList;
      assert ts[..n] + ([ts[n]] + DecodeList(more).value) == ts + DecodeList(more).value;
    }
  }

  lemma NoneInList(more: seq<Byte>)
    requires DecodeList(more).Ok?
    ensures DecodeList(EncodeList([]) + more) == Ok([] + DecodeList(more).value, [])
  {
    assert EncodeList([]) + more == more;
    DecodeListRest(more);
    assert [] + DecodeList(more).value == DecodeList(more).value;
  }

  lemma ListLayout(ts: seq<Tree>, more: seq<Byte>)
    requires ts != []
    ensures var n := |ts| - 1; EncodeList(ts) + more == EncodeList(ts[..n]) + (Encode(ts[n]) + more)
  {
    var n := |ts| - 1;
    Assoc(EncodeList(ts[..n]), Encode(ts[n]), more);
    hide Encode;
  }

  lemma Assoc(a: seq<Byte>, b: seq<Byte>, c: seq<Byte>)
    ensures a + b + c == a + (b + c)
  {
  }
}
