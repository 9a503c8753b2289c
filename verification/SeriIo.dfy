/** lua-seri.c: packing into a chain of blocks, and unpacking with a cursor. */
module SeriIo {
  import opened Seri

  const BLOCK_SIZE := 128

  /** struct write_block: the chain from head to current; `data` is what was pushed. */
  class WriteBlock {
    var blocks: seq<array<Byte>>
    var len: nat
    var ptr: nat
    ghost var data: seq<Byte>
    ghost var repr: set<array<Byte>>

    ghost predicate Valid()
      reads this, repr
    {
      && blocks != [] && ptr <= BLOCK_SIZE
      && (forall i :: 0 <= i < |blocks| ==> blocks[i] in repr)
      && (forall i, j :: 0 <= i < j < |blocks| ==> blocks[i] != blocks[j])
      && (forall i :: 0 <= i < |blocks| ==> blocks[i].Length == BLOCK_SIZE)
      && len == |data| == BLOCK_SIZE * (|blocks| - 1) + ptr
      && (forall i :: 0 <= i < |blocks| - 1 ==> blocks[i][..] == data[BLOCK_SIZE * i..BLOCK_SIZE * (i + 1)])
      && blocks[|blocks| - 1][..ptr] == data[BLOCK_SIZE * (|blocks| - 1)..]
    }

    constructor ()
      ensures Valid() && data == [] && fresh(repr)
    {
      var b := new Byte[BLOCK_SIZE](_ => 0);
      blocks, len, ptr, data, repr := [b], 0, 0, [], {b};
    }

    /** blk_alloc: a new current block. */
    method Grow()
      requires Valid() && ptr == BLOCK_SIZE
      modifies this
      ensures Valid() && ptr == 0 && data == old(data) && len == old(len)
      ensures fresh(repr - old(repr))
    {
      var b := new Byte[BLOCK_SIZE](_ => 0);
      ghost var n := |blocks|;
      blocks := blocks + [b];
      repr := repr + {b};
      ptr := 0;
      assert data[BLOCK_SIZE * n..] == [];
      assert blocks[n - 1][..BLOCK_SIZE] == blocks[n - 1][..];
    }

    /** memcpy into the current block, where there is room. */
    method Copy(buffer: seq<Byte>)
      requires Valid() && ptr + |buffer| <= BLOCK_SIZE
      modifies this`ptr, this`len, this`data, blocks[|blocks| - 1]
      ensures Valid() && ptr == old(ptr) + |buffer| && data == old(data) + buffer
    {
      var b := blocks[|blocks| - 1];
      ghost var base := BLOCK_SIZE * (|blocks| - 1);
      ghost var was := b[..];
      forall i | 0 <= i < |buffer| { b[ptr + i] := buffer[i]; }
      assert b[..ptr + |buffer|] == was[..ptr] + buffer;
      data := data + buffer;
      ptr := ptr + |buffer|;
      len := len + |buffer|;
      assert data[base..] == old(data)[base..] + buffer;
      forall i | 0 <= i < |blocks| - 1
        ensures blocks[i][..] == data[BLOCK_SIZE * i..BLOCK_SIZE * (i + 1)]
      {
        assert blocks[i] != b;
        assert BLOCK_SIZE * (i + 1) <= base <= |old(data)|;
      }
    }

    /** wb_push */
    method Push(buffer: seq<Byte>)
      requires Valid()
      modifies this, repr
      ensures Valid() && data == old(data) + buffer
      ensures fresh(repr - old(repr))
    {
      var rest := buffer;
      if ptr == BLOCK_SIZE { Grow(); }
      while ptr + |rest| > BLOCK_SIZE
        invariant Valid() && data + rest == old(data) + buffer
        invariant fresh(repr - old(repr)) && ptr < BLOCK_SIZE
        decreases |rest|, BLOCK_SIZE - ptr
      {
        var copy := BLOCK_SIZE - ptr;
        Copy(rest[..copy]);
        assert rest[..copy] + rest[copy..] == rest;
        rest := rest[copy..];
        Grow();
      }
      Copy(rest);
    }

    /** seri: the chain copied into one buffer. */
    method Linearise() returns (buffer: seq<Byte>)
      requires Valid()
      ensures buffer == data
    {
      buffer := [];
      var n: nat, i := len, 0;
      while n > 0
        invariant n + BLOCK_SIZE * i == len && i <= |blocks| && buffer == data[..BLOCK_SIZE * i]
      {
        if n >= BLOCK_SIZE {
          assert i < |blocks|;
          if i == |blocks| - 1 { assert ptr == BLOCK_SIZE && blocks[i][..BLOCK_SIZE] == blocks[i][..]; }
          assert blocks[i][..] == data[BLOCK_SIZE * i..BLOCK_SIZE * (i + 1)];
          buffer := buffer + blocks[i][..];
          n := n - BLOCK_SIZE;
          i := i + 1;
        } else {
          assert i == |blocks| - 1 && n == ptr;
          buffer := buffer + blocks[i][..n];
          assert data[..BLOCK_SIZE * i] + data[BLOCK_SIZE * i..] == data;
          return;
        }
      }
      assert data[..len] == data;
    }

    // The wb_ functions

    method PushInt(v: int)
      requires Valid()
      modifies this, repr
      ensures Valid() && data == old(data) + EncodeInt(v)
      ensures fresh(repr - old(repr))
    {
      if v == 0 { Push([Combine(TYPE_NUMBER, ZERO)]); }
      else if !IsInt32(v) { PushTwo([Combine(TYPE_NUMBER, QWORD)], Bytes(v, 8)); }
      else if v < 0 { PushTwo([Combine(TYPE_NUMBER, DWORD)], Bytes(v, 4)); }
      else if v < 0x100 { PushTwo([Combine(TYPE_NUMBER, BYTE)], Bytes(v, 1)); }
      else if v < 0x1_0000 { PushTwo([Combine(TYPE_NUMBER, WORD)], Bytes(v, 2)); }
      else { PushTwo([Combine(TYPE_NUMBER, DWORD)], Bytes(v, 4)); }
    }

    method PushTwo(x: seq<Byte>, y: seq<Byte>)
      requires Valid()
      modifies this, repr
      ensures Valid() && data == old(data) + (x + y)
      ensures fresh(repr - old(repr))
    {
      Push(x);
      Push(y);
    }

    method PushStr(s: seq<Byte>)
      requires Valid()
      modifies this, repr
      ensures Valid() && data == old(data) + EncodeStr(s)
      ensures fresh(repr - old(repr))
    {
      hide Bytes;
      hide Valid;
      if |s| < MAX_COOKIE {
        hide EncodeStr;
        ShortStr(s);
        PushTwo([Combine(TYPE_SHORT_STRING, |s|)], s);
      } else {
        PushLongStr(s);
      }
    }

    method PushLongStr(s: seq<Byte>)
      requires Valid() && |s| >= MAX_COOKIE
      modifies this, repr
      ensures Valid() && data == old(data) + EncodeStr(s)
      ensures fresh(repr - old(repr))
    {
      LongStr(s);
      hide *;
      ghost var before, k := data, if |s| < 0x1_0000 then 2 else 4;
      if |s| < 0x1_0000 {
        PushTwo([Combine(TYPE_LONG_STRING, 2)], Bytes(|s|, 2));
      } else {
        PushTwo([Combine(TYPE_LONG_STRING, 4)], Bytes(|s|, 4));
      }
      Push(s);
      Assoc(before, [Combine(TYPE_LONG_STRING, k)] + Bytes(|s|, k), s);
    }

    method PushCount(n: nat)
      requires Valid()
      modifies this, repr
      ensures Valid() && data == old(data) + EncodeCount(n)
      ensures fresh(repr - old(repr))
    {
      CountIs(n);
      hide *;
      ghost var before := data;
      if n >= MAX_COOKIE - 1 {
        Push([Combine(TYPE_TABLE, MAX_COOKIE - 1)]);
        PushInt(n);
        Assoc(before, [Combine(TYPE_TABLE, MAX_COOKIE - 1)], EncodeInt(n));
      } else {
        Push([Combine(TYPE_TABLE, n)]);
      }
    }

    // pack_one and what it calls

    /** Fails on a table that is nested too deep; what was pushed until then is of no use. */
    method PackOne(t: Tree, depth: nat) returns (ok: bool)
      requires Valid()
      modifies this, repr
      ensures Valid() && fresh(repr - old(repr))
      ensures ok <==> Packable(t, depth)
      ensures ok ==> data == old(data) + Encode(t)
      decreases t, 2
    {
      if depth > MAX_DEPTH { return false; }
      match t
      case Nil => Push([Combine(TYPE_NIL, 0)]); ok := true;
      case Bool(b) => Push([Combine(TYPE_BOOLEAN, if b then 1 else 0)]); ok := true;
      case Int(i) => PushInt(i); ok := true;
      case Real(bits) => PushTwo([Combine(TYPE_NUMBER, REAL)], bits); ok := true;
      case Pointer(bits) => PushTwo([Combine(TYPE_USERDATA, 0)], bits); ok := true;
      case Str(s) => PushStr(s); ok := true;
      case Table(arr, pairs) => ok := PackTable(arr, pairs, depth + 1);
    }

    method PackTable(arr: Trees, pairs: Pairs, depth: nat) returns (ok: bool)
      requires Valid()
      modifies this, repr
      ensures Valid() && fresh(repr - old(repr))
      ensures ok <==> PackableElems(arr, depth) && PackablePairs(pairs, depth)
      ensures ok ==> data == old(data) + Encode(Table(arr, pairs))
      decreases Table(arr, pairs), 1
    {
      TableIs(arr, pairs);
      hide Encode;
      hide EncodeCount;
      hide EncodeElems;
      hide EncodePairs;
      hide PackableElems;
      hide PackablePairs;
      hide Valid;
      PushCount(Count(arr));
      ok := PackElems(arr, depth);
      if ok { ok := PackPairs(pairs, depth); }
    }

    method PackElems(ts: Trees, depth: nat) returns (ok: bool)
      requires Valid()
      modifies this, repr
      ensures Valid() && fresh(repr - old(repr))
      ensures ok <==> PackableElems(ts, depth)
      ensures ok ==> data == old(data) + EncodeElems(ts)
      decreases ts, 0
    {
      hide *;
      var cur := ts;
      while cur.Elem?
        invariant Valid() && fresh(repr - old(repr))
        invariant PackableElems(ts, depth) <==> PackableElems(cur, depth)
        invariant data + EncodeElems(cur) == old(data) + EncodeElems(ts)
        invariant cur == ts || cur < ts
        decreases cur
      {
        ElemsAre(cur, depth);
        ghost var before := data;
        ok := PackOne(cur.head, depth);
        if !ok { return; }
        Assoc(before, Encode(cur.head), EncodeElems(cur.tail));
        cur := cur.tail;
      }
      ElemsAre(cur, depth);
      assert data + [] == data;
      ok := true;
    }

    method PackPairs(ps: Pairs, depth: nat) returns (ok: bool)
      requires Valid()
      modifies this, repr
      ensures Valid() && fresh(repr - old(repr))
      ensures ok <==> PackablePairs(ps, depth)
      ensures ok ==> data == old(data) + EncodePairs(ps)
      decreases ps, 0
    {
      hide *;
      var cur := ps;
      while cur.Entry?
        invariant Valid() && fresh(repr - old(repr))
        invariant PackablePairs(ps, depth) <==> PackablePairs(cur, depth)
        invariant data + EncodePairs(cur) == old(data) + EncodePairs(ps)
        invariant cur == ps || cur < ps
        decreases cur
      {
        PairsAre(cur, depth);
        ghost var before := data;
        ok := PackOne(cur.key, depth);
        if !ok { return; }
        ok := PackOne(cur.val, depth);
        if !ok { return; }
        Assoc(before, Encode(cur.key), Encode(cur.val));
        Assoc(before, Encode(cur.key) + Encode(cur.val), EncodePairs(cur.rest));
        cur := cur.rest;
      }
      PairsAre(cur, depth);
      Push([Combine(TYPE_NIL, 0)]);
      ok := true;
    }

    /** pack_from: the arguments one after the other. */
    method PackList(ts: seq<Tree>) returns (ok: bool)
      requires Valid() && data == []
      modifies this, repr
      ensures Valid()
      ensures ok <==> forall t :: t in ts ==> Packable(t, 0)
      ensures ok ==> data == EncodeList(ts)
    {
      hide Packable;
      hide Encode;
      hide Valid;
      var i := 0;
      while i < |ts|
        invariant i <= |ts| && Valid() && fresh(repr - old(repr)) && data == EncodeList(ts[..i])
        invariant forall j :: 0 <= j < i ==> Packable(ts[j], 0)
      {
        ok := PackOne(ts[i], 0);
        if !ok {
          assert ts[i] in ts;
          return;
        }
        assert ts[..i + 1][..i] == ts[..i];
        i := i + 1;
      }
      assert ts[..i] == ts;
      ok := true;
    }
  }

  /** luaseri_pack: one buffer, or nothing for a table that is nested too deep. */
  method Pack(ts: seq<Tree>) returns (ok: bool, buffer: seq<Byte>)
    ensures ok <==> forall t :: t in ts ==> Packable(t, 0)
    ensures ok ==> buffer == EncodeList(ts)
  {
    hide *;
    var wb := new WriteBlock();
    ok := wb.PackList(ts);
    buffer := wb.Linearise();
  }

  /** struct read_block: `ptr` bytes of the buffer are read. */
  class ReadBlock {
    const buffer: seq<Byte>
    var len: nat
    var ptr: nat

    ghost predicate Valid()
      reads this
    {
      ptr + len == |buffer|
    }

    ghost function Left(): seq<Byte>
      reads this
      requires Valid()
    {
      buffer[ptr..]
    }

    constructor (buffer: seq<Byte>)
      ensures Valid() && Left() == buffer
    {
      this.buffer := buffer;
      len, ptr := |buffer|, 0;
    }

    /** rb_read; a failed read reads nothing. */
    method ReadBytes(n: nat) returns (ok: bool, s: seq<Byte>)
      requires Valid()
      modifies this
      ensures Valid() && len <= old(len)
      ensures Returned(ok, s, Left(), Read(old(Left()), n))
      ensures !ok ==> Left() == old(Left())
    {
      if len < n { return false, []; }
      ghost var left := Left();
      s := buffer[ptr..ptr + n];
      ptr := ptr + n;
      len := len - n;
      assert s == left[..n] && Left() == left[n..];
      ok := true;
    }

    method GetInteger(cookie: nat) returns (ok: bool, v: int)
      requires Valid()
      modifies this
      ensures Valid() && len <= old(len) && Returned(ok, v, Left(), DecodeInt(cookie, old(Left())))
    {
      hide Unsigned;
      hide Signed;
      var s;
      v := 0;
      if cookie == ZERO { return true, 0; }
      else if cookie == BYTE { ok, s := ReadBytes(1); if ok { v := Unsigned(s); } }
      else if cookie == WORD { ok, s := ReadBytes(2); if ok { v := Unsigned(s); } }
      else if cookie == DWORD { ok, s := ReadBytes(4); if ok { v := Signed(s); } }
      else if cookie == QWORD { ok, s := ReadBytes(8); if ok { v := Signed(s); } }
      else { return false, 0; }
    }

    /** The two halves of push_value for long strings. */
    method GetLongString(cookie: nat) returns (ok: bool, s: seq<Byte>)
      requires Valid()
      modifies this
      ensures Valid() && len <= old(len) && Returned(ok, s, Left(), DecodeStr(cookie, old(Left())))
    {
      hide Unsigned;
      hide ToInt32;
      if cookie != 2 && cookie != 4 { return false, []; }
      ok, s := ReadBytes(cookie);
      if !ok { return false, []; }
      var n := ToInt32(Unsigned(s));
      if n < 0 { return false, []; }
      ok, s := ReadBytes(n);
    }

    method GetCount(cookie: nat) returns (ok: bool, n: int)
      requires Valid()
      modifies this
      ensures Valid() && len <= old(len) && Returned(ok, n, Left(), DecodeCount(cookie, old(Left())))
    {
      hide DecodeInt;
      hide ToInt32;
      if cookie != MAX_COOKIE - 1 { return true, cookie; }
      var t;
      ok, t := ReadBytes(1);
      n := 0;
      if !ok || t[0] % 8 != TYPE_NUMBER || t[0] / 8 == REAL { return false, 0; }
      ok, n := GetInteger(t[0] / 8);
      if ok { n := ToInt32(n); }
    }

    /** unpack_one with push_value. */
    method UnpackOne() returns (ok: bool, t: Tree)
      requires Valid()
      modifies this
      ensures Valid() && len <= old(len) && Returned(ok, t, Left(), Decode(old(Left())))
      decreases len, 1
    {
      hide DecodeInt;
      hide DecodeStr;
      hide DecodeTable;
      t := Nil;
      var b;
      ok, b := ReadBytes(1);
      if !ok { return; }
      var kind, cookie := b[0] % 8, b[0] / 8;
      if kind == TYPE_NIL { t := Nil; }
      else if kind == TYPE_BOOLEAN { t := Bool(cookie != 0); }
      else if kind == TYPE_NUMBER && cookie == REAL { ok, b := ReadBytes(8); t := Real(b); }
      else if kind == TYPE_NUMBER {
        var i;
        ok, i := GetInteger(cookie);
        t := Int(i);
      }
      else if kind == TYPE_USERDATA { ok, b := ReadBytes(8); t := Pointer(b); }
      else if kind == TYPE_SHORT_STRING { ok, b := ReadBytes(cookie); t := Str(b); }
      else if kind == TYPE_LONG_STRING { ok, b := GetLongString(cookie); t := Str(b); }
      else if kind == TYPE_TABLE { ok, t := UnpackTable(cookie); }
      else { ok := false; }
    }

    method UnpackTable(cookie: nat) returns (ok: bool, t: Tree)
      requires Valid()
      modifies this
      ensures Valid() && len <= old(len) && Returned(ok, t, Left(), DecodeTable(cookie, old(Left())))
      decreases len, 3
    {
      hide DecodeCount;
      hide DecodeElems;
      hide DecodePairs;
      t := Nil;
      var n, arr, pairs;
      ok, n := GetCount(cookie);
      if !ok { return; }
      ok, arr := UnpackElems(n);
      if !ok { return; }
      ok, pairs := UnpackPairs();
      t := Table(arr, pairs);
    }

    /** The loop over the array part. */
    method UnpackElems(n: int) returns (ok: bool, ts: Trees)
      requires Valid()
      modifies this
      ensures Valid() && len <= old(len) && Returned(ok, ts, Left(), DecodeElems(n, old(Left())))
      decreases len, 2
    {
      hide Decode;
      hide DecodeElems;
      ghost var total := DecodeElems(n, Left());
      var acc: seq<Tree>, i := [], 0;
      NoneYet(total);
      while i < n
        invariant Valid() && len <= old(len) && 0 <= i && PrefixElems(acc, DecodeElems(n - i, Left())) == total
      {
        NextElem(acc, n - i, Left());
        var h;
        ok, h := UnpackOne();
        if !ok { return false, End; }
        acc := acc + [h];
        i := i + 1;
      }
      LastElem(n - i, Left());
      ok, ts := true, FromSeq(acc, End);
    }

    /** The loop over the other entries, up to a nil. */
    method UnpackPairs() returns (ok: bool, ps: Pairs)
      requires Valid()
      modifies this
      ensures Valid() && len <= old(len) && Returned(ok, ps, Left(), DecodePairs(old(Left())))
      decreases len, 2
    {
      hide Decode;
      hide DecodePairs;
      ghost var total := DecodePairs(Left());
      var acc: seq<(Tree, Tree)> := [];
      NoPairYet(total);
      ps := Done;
      while true
        invariant Valid() && len <= old(len) && PrefixPairs(acc, DecodePairs(Left())) == total
        decreases len
      {
        NextPair(acc, Left());
        ghost var before := len;
        var k, v;
        ok, k := UnpackOne();
        if !ok { return; }
        if k.Nil? { return true, FromPairs(acc, Done); }
        ok, v := UnpackOne();
        if !ok { return; }
        acc := acc + [(k, v)];
      }
    }

    /** The loop of luaseri_unpack, up to the end of the buffer. */
    method UnpackList() returns (ok: bool, ts: seq<Tree>)
      requires Valid()
      modifies this
      ensures Valid() && Returned(ok, ts, Left(), DecodeList(old(Left())))
    {
      hide Decode;
      hide DecodeList;
      ghost var total := DecodeList(Left());
      ts := [];
      NoneListed(total);
      while true
        invariant Valid() && PrefixList(ts, DecodeList(Left())) == total
        decreases len
      {
        NextListed(ts, Left());
        if len == 0 {
          assert Left() == [];
          return true, ts;
        }
        var t;
        ok, t := UnpackOne();
        if !ok { return; }
        ts := ts + [t];
      }
    }
  }

  /** luaseri_unpack undoes luaseri_pack. */
  method PackUnpack(ts: seq<Tree>) returns (ok: bool, us: seq<Tree>)
    requires forall t :: t in ts ==> Proper(t)
    ensures ok <==> forall t :: t in ts ==> Packable(t, 0)
    ensures ok ==> us == ts
  {
    var buffer;
    us := [];
    ok, buffer := Pack(ts);
    if ok {
      ListRoundTrip(ts, []);
      assert EncodeList(ts) + [] == EncodeList(ts) && DecodeList([]) == Ok([], []) && ts + [] == ts;
      var rb := new ReadBlock(buffer);
      var fine;
      fine, us := rb.UnpackList();
      assert fine;
    }
  }

  // What the loops have built so far

  function FromSeq(acc: seq<Tree>, ts: Trees): Trees {
    if acc == [] then ts else FromSeq(acc[..|acc| - 1], Elem(acc[|acc| - 1], ts))
  }

  function FromPairs(acc: seq<(Tree, Tree)>, ps: Pairs): Pairs {
    if acc == [] then ps else FromPairs(acc[..|acc| - 1], Entry(acc[|acc| - 1].0, acc[|acc| - 1].1, ps))
  }

  ghost function PrefixElems(acc: seq<Tree>, r: Result<Trees>): Result<Trees> {
    if r.Ok? then Ok(FromSeq(acc, r.value), r.rest) else Invalid
  }

  ghost function PrefixPairs(acc: seq<(Tree, Tree)>, r: Result<Pairs>): Result<Pairs> {
    if r.Ok? then Ok(FromPairs(acc, r.value), r.rest) else Invalid
  }

  ghost function PrefixList(acc: seq<Tree>, r: Result<seq<Tree>>): Result<seq<Tree>> {
    if r.Ok? then Ok(acc + r.value, r.rest) else Invalid
  }

  lemma NoneYet(r: Result<Trees>)
    ensures PrefixElems([], r) == r
  {
  }

  lemma NoPairYet(r: Result<Pairs>)
    ensures PrefixPairs([], r) == r
  {
  }

  lemma NoneListed(r: Result<seq<Tree>>)
    ensures PrefixList([], r) == r
  {
    if r.Ok? { assert [] + r.value == r.value; }
  }

  lemma NextElem(acc: seq<Tree>, n: int, s: seq<Byte>)
    requires n > 0
    ensures var h := Decode(s);
            PrefixElems(acc, DecodeElems(n, s)) ==
            if h.Ok? then PrefixElems(acc + [h.value], DecodeElems(n - 1, h.rest)) else Invalid
  {
    var h := Decode(s);
    hide Decode;
    if h.Ok? { assert (acc + [h.value])[..|acc|] == acc; }
  }

  lemma LastElem(n: int, s: seq<Byte>)
    requires n <= 0
    ensures DecodeElems(n, s) == Ok(End, s)
  {
  }

  lemma NextPair(acc: seq<(Tree, Tree)>, s: seq<Byte>)
    ensures var k := Decode(s);
            PrefixPairs(acc, DecodePairs(s)) ==
            if k.Invalid? then Invalid
            else if k.value.Nil? then Ok(FromPairs(acc, Done), k.rest)
            else
              var v := Decode(k.rest);
              if v.Ok? then PrefixPairs(acc + [(k.value, v.value)], DecodePairs(v.rest)) else Invalid
    ensures Decode(s).Ok? ==> |Decode(s).rest| < |s|
  {
    var k := Decode(s);
    if k.Ok? {
      var v := Decode(k.rest);
      if v.Ok? { assert (acc + [(k.value, v.value)])[..|acc|] == acc; }
    }
    hide Decode;
  }

  lemma NextListed(acc: seq<Tree>, s: seq<Byte>)
    ensures s == [] ==> PrefixList(acc, DecodeList(s)) == Ok(acc, [])
    ensures s != [] ==>
      var h := Decode(s);
      PrefixList(acc, DecodeList(s)) == if h.Ok? then PrefixList(acc + [h.value], DecodeList(h.rest)) else Invalid
    ensures Decode(s).Ok? ==> |Decode(s).rest| < |s|
  {
    if s == [] {
      assert acc + [] == acc;
    } else {
      var h := Decode(s);
      if h.Ok? {
        DecodeListRest(h.rest);
        if DecodeList(h.rest).Ok? {
          assert acc + ([h.value] + DecodeList(h.rest).value) == acc + [h.value] + DecodeList(h.rest).value;
        }
      }
    }
    hide Decode;
  }

  /** What a reading method returns and leaves is what the specification says. */
  ghost predicate Returned<T>(ok: bool, v: T, left: seq<Byte>, r: Result<T>) {
    (ok <==> r.Ok?) && (ok ==> v == r.value && left == r.rest)
  }

  lemma ElemsAre(ts: Trees, depth: nat)
    ensures ts.End? ==> EncodeElems(ts) == [] && PackableElems(ts, depth)
    ensures ts.Elem? ==> EncodeElems(ts) == Encode(ts.head) + EncodeElems(ts.tail)
    ensures ts.Elem? ==> (PackableElems(ts, depth) <==> Packable(ts.head, depth) && PackableElems(ts.tail, depth))
  {
  }

  lemma PairsAre(ps: Pairs, depth: nat)
    ensures ps.Done? ==> EncodePairs(ps) == [Combine(TYPE_NIL, 0)] && PackablePairs(ps, depth)
    ensures ps.Entry? ==> EncodePairs(ps) == Encode(ps.key) + Encode(ps.val) + EncodePairs(ps.rest)
    ensures ps.Entry? ==>
      (PackablePairs(ps, depth) <==>
          Packable(ps.key, depth) && Packable(ps.val, depth) && PackablePairs(ps.rest, depth))
  {
  }

  lemma TableIs(arr: Trees, pairs: Pairs)
    ensures Encode(Table(arr, pairs)) == EncodeCount(Count(arr)) + EncodeElems(arr) + EncodePairs(pairs)
  {
  }

  lemma CountIs(n: nat)
    ensures n >= MAX_COOKIE - 1 ==> EncodeCount(n) == [Combine(TYPE_TABLE, MAX_COOKIE - 1)] + EncodeInt(n)
    ensures n < MAX_COOKIE - 1 ==> EncodeCount(n) == [Combine(TYPE_TABLE, n)]
  {
  }

  lemma ShortStr(s: seq<Byte>)
    requires |s| < MAX_COOKIE
    ensures EncodeStr(s) == [Combine(TYPE_SHORT_STRING, |s|)] + s
  {
  }

  lemma LongStr(s: seq<Byte>)
    requires |s| >= MAX_COOKIE
    ensures |s| < 0x1_0000 ==> EncodeStr(s) == [Combine(TYPE_LONG_STRING, 2)] + Bytes(|s|, 2) + s
    ensures |s| >= 0x1_0000 ==> EncodeStr(s) == [Combine(TYPE_LONG_STRING, 4)] + Bytes(|s|, 4) + s
  {
  }
}
