/** lua-seri.c: the bytes of a packed value, written out, and that packing gives just these. The low three
    bits of the first byte are the type, the high five a cookie; numbers are little endian. */
module SeriFormat {
  import opened Seri

  /** Two, four and eight bytes as a number. */
  function Word(s: seq<Byte>): int
    requires |s| == 2
  {
    s[0] as int + 0x100 * (s[1] as int)
  }

  function Dword(s: seq<Byte>): int
    requires |s| == 4
  {
    s[0] as int + 0x100 * (s[1] as int) + 0x1_0000 * (s[2] as int) + 0x100_0000 * (s[3] as int)
  }

  function Qword(s: seq<Byte>): int
    requires |s| == 8
  {
    Dword(s[..4]) + 0x1_0000_0000 * Dword(s[4..])
  }

  /** An integer: zero has no more bytes; then come the least of one or two bytes without a sign, and
      of four or eight bytes in two's complement. */
  predicate IntBytes(v: int, s: seq<Byte>) {
    if v == 0 then s == [2]
    else if 0 < v < 0x100 then s == [10, v]
    else if 0 < v < 0x1_0000 then |s| == 3 && s[0] == 18 && Word(s[1..]) == v
    else if -0x8000_0000 <= v < 0x8000_0000 then
      |s| == 5 && s[0] == 34 && Dword(s[1..]) == (if v < 0 then v + 0x1_0000_0000 else v)
    else |s| == 9 && s[0] == 50 && Qword(s[1..]) == (if v < 0 then v + 0x1_0000_0000_0000_0000 else v)
  }

  /** A string: up to 31 bytes with the length as the cookie, else with the length in two or four bytes. */
  predicate StrBytes(b: seq<Byte>, s: seq<Byte>) {
    if |b| < 32 then s == [4 + 8 * |b|] + b
    else if |b| < 0x1_0000 then |s| == 3 + |b| && s[0] == 21 && Word(s[1..3]) == |b| && s[3..] == b
    else |s| == 5 + |b| && s[0] == 37 && Dword(s[1..5]) == |b| && s[5..] == b
  }

  /** The head of a table: up to 30 array elements with the count as the cookie, else the count as an integer. */
  predicate HeadBytes(n: nat, s: seq<Byte>) {
    if n < 31 then s == [6 + 8 * n] else s != [] && s[0] == 254 && IntBytes(n, s[1..])
  }

  ghost predicate Packed(t: Tree, s: seq<Byte>)
    decreases t, 1
  {
    match t
    case Nil => s == [0]
    case Bool(b) => s == [if b then 9 else 1]
    case Int(i) => IntBytes(i, s)
    case Real(bits) => s == [66] + bits
    case Pointer(bits) => s == [3] + bits
    case Str(b) => StrBytes(b, s)
    case Table(arr, pairs) =>
      exists h: nat, k: nat :: PackedTable(arr, pairs, s, h, k)
  }

  /** Head, elements and entries, cut at `h` and `k`. */
  ghost predicate PackedTable(arr: Trees, pairs: Pairs, s: seq<Byte>, h: nat, k: nat)
    decreases Table(arr, pairs), 0
  {
    h <= k <= |s| && HeadBytes(Count(arr), s[..h]) && PackedElems(arr, s[h..k]) && PackedPairs(pairs, s[k..])
  }

  /** The elements one after the other. */
  ghost predicate PackedElems(ts: Trees, s: seq<Byte>)
    decreases ts, 0
  {
    match ts
    case End => s == []
    case Elem(head, tail) => exists k: nat :: k <= |s| && Packed(head, s[..k]) && PackedElems(tail, s[k..])
  }

  /** Keys and values, and then a nil. */
  ghost predicate PackedPairs(ps: Pairs, s: seq<Byte>)
    decreases ps, 1
  {
    match ps
    case Done => s == [0]
    case Entry(key, val, rest) =>
      exists i: nat, j: nat :: PackedEntry(key, val, rest, s, i, j)
  }

  /** Key, value and the rest, cut at `i` and `j`. */
  ghost predicate PackedEntry(key: Tree, val: Tree, rest: Pairs, s: seq<Byte>, i: nat, j: nat)
    decreases Entry(key, val, rest), 0
  {
    i <= j <= |s| && Packed(key, s[..i]) && Packed(val, s[i..j]) && PackedPairs(rest, s[j..])
  }

  lemma NumbersAre(s: seq<Byte>)
    ensures |s| == 1 ==> Unsigned(s) == s[0]
    ensures |s| == 2 ==> Unsigned(s) == Word(s)
    ensures |s| == 4 ==> Unsigned(s) == Dword(s)
    ensures |s| == 8 ==> Unsigned(s) == Qword(s)
  {
    if |s| == 2 { FirstTwo(s); }
    if |s| == 4 { FirstFour(s); }
    if |s| == 8 {
      FirstFour(s);
      FirstFour(s[..4]);
      FirstFour(s[4..]);
    }
  }

  lemma FirstTwo(s: seq<Byte>)
    requires |s| >= 2
    ensures Unsigned(s) == Word(s[..2]) + 0x1_0000 * Unsigned(s[2..])
  {
    assert s[1..][1..] == s[2..];
    assert Unsigned(s) == s[0] as int + 256 * Unsigned(s[1..]);
    assert Unsigned(s[1..]) == s[1] as int + 256 * Unsigned(s[2..]);
  }

  lemma FirstFour(s: seq<Byte>)
    requires |s| >= 4
    ensures Unsigned(s) == Dword(s[..4]) + 0x1_0000_0000 * Unsigned(s[4..])
  {
    FirstTwo(s);
    FirstTwo(s[2..]);
    assert s[2..][2..] == s[4..];
  }

  /** The number determines the bytes. */
  lemma {:induction false} SameBytes(a: seq<Byte>, b: seq<Byte>)
    requires |a| == |b| && Unsigned(a) == Unsigned(b)
    ensures a == b
  {
    if a != [] {
      assert Unsigned(a) % 256 == a[0] && Unsigned(b) % 256 == b[0];
      SameBytes(a[1..], b[1..]);
      assert a == [a[0]] + a[1..] && b == [b[0]] + b[1..];
    }
  }

  lemma BytesAre(v: int, k: nat, s: seq<Byte>)
    requires |s| == k
    ensures Power256(k) > 0 && (s == Bytes(v, k) <==> Unsigned(s) == v % Power256(k))
  {
    BytesRound(v, k);
    if Unsigned(s) == v % Power256(k) { SameBytes(s, Bytes(v, k)); }
  }

  lemma IntLayout(v: int, s: seq<Byte>)
    ensures var c := Cookie(v);
            var k := Width(c);
            && Power256(k) > 0
            && (s == EncodeInt(v) <==>
                |s| == 1 + k && s[0] == 2 + 8 * c && Unsigned(s[1..]) == v % Power256(k))
  {
    EncodeIntIs(v);
    var c := Cookie(v);
    var k := Width(c);
    BytesRound(v, k);
    var e := EncodeInt(v);
    assert e[0] == 2 + 8 * c && e[1..] == Bytes(v, k);
    hide Bytes;
    hide Unsigned;
    hide Power256;
    hide EncodeInt;
    if |s| == 1 + k {
      BytesAre(v, k, s[1..]);
      assert s == [s[0]] + s[1..] && e == [e[0]] + e[1..];
    }
  }

  lemma NoBytes(s: seq<Byte>)
    requires |s| == 1
    ensures Unsigned(s[1..]) == 0 && Power256(0) == 1 && s == [s[0]]
  {
  }

  lemma Rest64(v: int)
    requires IsInt64(v)
    ensures v % 0x1_0000_0000_0000_0000 == if v < 0 then v + 0x1_0000_0000_0000_0000 else v
    ensures IsInt32(v) ==> v % 0x1_0000_0000 == if v < 0 then v + 0x1_0000_0000 else v
  {
  }

  lemma IntIs(v: int, s: seq<Byte>)
    requires IsInt64(v)
    ensures IntBytes(v, s) <==> s == EncodeInt(v)
  {
    hide EncodeInt;
    hide Unsigned;
    hide Power256;
    hide Bytes;
    if v == 0 || 0 < v < 0x100 {
      SmallIs(v, s);
    } else if 0 < v < 0x1_0000 {
      Powers();
      IntLayout(v, s);
      if |s| == 3 { NumbersAre(s[1..]); }
    } else {
      LargeIs(v, s);
    }
  }

  lemma SmallIs(v: int, s: seq<Byte>)
    requires 0 <= v < 0x100
    ensures IntBytes(v, s) <==> s == EncodeInt(v)
  {
    hide EncodeInt;
    hide Unsigned;
    hide Power256;
    hide Bytes;
    Powers();
    IntLayout(v, s);
    if |s| == 1 { NoBytes(s); }
    if |s| == 2 {
      NumbersAre(s[1..]);
      assert s == [s[0], s[1]];
    }
  }

  lemma LargeIs(v: int, s: seq<Byte>)
    requires IsInt64(v) && !(0 <= v < 0x1_0000)
    ensures IntBytes(v, s) <==> s == EncodeInt(v)
  {
    hide EncodeInt;
    hide Unsigned;
    hide Power256;
    hide Bytes;
    hide Dword;
    hide Qword;
    Powers();
    IntLayout(v, s);
    Rest64(v);
    if s != [] { NumbersAre(s[1..]); }
  }

  lemma StrIs(b: seq<Byte>, s: seq<Byte>)
    requires |b| < 0x8000_0000
    ensures StrBytes(b, s) <==> s == EncodeStr(b)
  {
    if |b| >= 32 { LongIs(b, s, if |b| < 0x1_0000 then 2 else 4); }
  }

  lemma LongIs(b: seq<Byte>, s: seq<Byte>, k: nat)
    requires 32 <= |b| < 0x8000_0000 && k == if |b| < 0x1_0000 then 2 else 4
    ensures StrBytes(b, s) <==> s == EncodeStr(b)
  {
    hide EncodeStr;
    hide Bytes;
    hide Word;
    hide Dword;
    LongLayout(b, k);
    if |s| == 1 + k + |b| {
      LongCut(s, 5 + 8 * k, Bytes(|b|, k), b);
      LengthIs(|b|, k, s[1..k + 1]);
    }
  }

  lemma LengthIs(n: nat, k: nat, s: seq<Byte>)
    requires n < 0x8000_0000 && k == (if n < 0x1_0000 then 2 else 4) && |s| == k
    ensures s == Bytes(n, k) <==> (if k == 2 then Word(s) else Dword(s)) == n
  {
    hide Bytes;
    hide Unsigned;
    hide Power256;
    Powers();
    BytesAre(n, k, s);
    NumbersAre(s);
  }

  lemma LongLayout(b: seq<Byte>, k: nat)
    requires 32 <= |b| < 0x8000_0000 && k == if |b| < 0x1_0000 then 2 else 4
    ensures EncodeStr(b) == [5 + 8 * k] + Bytes(|b|, k) + b
  {
    hide Bytes;
  }

  lemma LongCut(s: seq<Byte>, h: Byte, n: seq<Byte>, b: seq<Byte>)
    requires |s| == 1 + |n| + |b|
    ensures s == [h] + n + b <==> s[0] == h && s[1..|n| + 1] == n && s[|n| + 1..] == b
  {
    assert s == [s[0]] + s[1..|n| + 1] + s[|n| + 1..];
    var e := [h] + n + b;
    assert e[0] == h && e[1..|n| + 1] == n && e[|n| + 1..] == b;
  }

  lemma HeadIs(n: nat, s: seq<Byte>)
    requires n < 0x8000_0000
    ensures HeadBytes(n, s) <==> s == EncodeCount(n)
  {
    if n >= 31 {
      hide EncodeInt;
      if s != [] {
        IntIs(n, s[1..]);
        assert s == [s[0]] + s[1..];
      }
      assert EncodeCount(n)[1..] == EncodeInt(n) && EncodeCount(n)[0] == 254;
    }
  }

  /** Packing a value gives the bytes of the format, and no others are in the format. */
  lemma {:induction false} PackedIs(t: Tree, s: seq<Byte>)
    requires Proper(t)
    ensures Packed(t, s) <==> s == Encode(t)
    decreases t, 2
  {
    match t
    case Int(i) => IntIs(i, s);
    case Str(b) => StrIs(b, s);
    case Table(arr, pairs) => TableIs(arr, pairs, s);
    case _ =>
  }

  lemma Cut(s: seq<Byte>, a: seq<Byte>, b: seq<Byte>, c: seq<Byte>, i: nat, j: nat)
    requires i <= j <= |s|
    ensures s[..i] == a && s[i..j] == b && s[j..] == c <==> s == a + b + c && i == |a| && j == |a| + |b|
  {
    assert s == s[..i] + s[i..j] + s[j..];
    if s == a + b + c && i == |a| && j == |a| + |b| { assert s[..i] == a && s[i..j] == b && s[j..] == c; }
  }

  lemma {:induction false} TableIs(arr: Trees, pairs: Pairs, s: seq<Byte>)
    requires Proper(Table(arr, pairs))
    ensures Packed(Table(arr, pairs), s) <==> s == Encode(Table(arr, pairs))
    decreases Table(arr, pairs), 1
  {
    hide EncodeCount;
    hide HeadBytes;
    hide EncodeElems;
    hide EncodePairs;
    hide PackedElems;
    hide PackedPairs;
    hide PackedTable;
    var c, e, p := EncodeCount(Count(arr)), EncodeElems(arr), EncodePairs(pairs);
    if h: nat, k: nat :| PackedTable(arr, pairs, s, h, k) {
      TableAt(arr, pairs, s, h, k);
    }
    if s == Encode(Table(arr, pairs)) {
      assert s == c + e + p;
      TableAt(arr, pairs, s, |c|, |c| + |e|);
      assert PackedTable(arr, pairs, s, |c|, |c| + |e|);
    }
  }

  lemma {:induction false} TableAt(arr: Trees, pairs: Pairs, s: seq<Byte>, h: nat, k: nat)
    requires Proper(Table(arr, pairs))
    ensures var c, e, p := EncodeCount(Count(arr)), EncodeElems(arr), EncodePairs(pairs);
            PackedTable(arr, pairs, s, h, k) <==> s == c + e + p && h == |c| && k == |c| + |e|
    decreases Table(arr, pairs), 0
  {
    hide EncodeCount;
    hide HeadBytes;
    hide EncodeElems;
    hide EncodePairs;
    hide PackedElems;
    hide PackedPairs;
    if h <= k <= |s| {
      HeadIs(Count(arr), s[..h]);
      ElemsAre(arr, s[h..k]);
      PairsAre(pairs, s[k..]);
      Cut(s, EncodeCount(Count(arr)), EncodeElems(arr), EncodePairs(pairs), h, k);
    }
  }

  lemma {:induction false} ElemsAre(ts: Trees, s: seq<Byte>)
    requires ProperElems(ts)
    ensures PackedElems(ts, s) <==> s == EncodeElems(ts)
    decreases ts, 0
  {
    if ts.Elem? {
      if PackedElems(ts, s) {
        var k: nat :| k <= |s| && Packed(ts.head, s[..k]) && PackedElems(ts.tail, s[k..]);
        PackedIs(ts.head, s[..k]);
        ElemsAre(ts.tail, s[k..]);
      }
      if s == EncodeElems(ts) {
        var k := |Encode(ts.head)|;
        assert s[..k] == Encode(ts.head) && s[k..] == EncodeElems(ts.tail);
        PackedIs(ts.head, s[..k]);
        ElemsAre(ts.tail, s[k..]);
      }
    }
  }

  lemma {:induction false} PairsAre(ps: Pairs, s: seq<Byte>)
    requires ProperPairs(ps)
    ensures PackedPairs(ps, s) <==> s == EncodePairs(ps)
    decreases ps, 1
  {
    if ps.Entry? {
      hide Encode;
      hide Packed;
      hide PackedEntry;
      var key, val, rest := ps.key, ps.val, ps.rest;
      var a, b, c := Encode(key), Encode(val), EncodePairs(rest);
      if i: nat, j: nat :| PackedEntry(key, val, rest, s, i, j) {
        EntryAt(key, val, rest, s, i, j);
      }
      if s == EncodePairs(ps) {
        EntryAt(key, val, rest, s, |a|, |a| + |b|);
        assert PackedEntry(key, val, rest, s, |a|, |a| + |b|);
      }
    }
  }

  lemma {:induction false} EntryAt(key: Tree, val: Tree, rest: Pairs, s: seq<Byte>, i: nat, j: nat)
    requires Proper(key) && Proper(val) && ProperPairs(rest)
    ensures var a, b, c := Encode(key), Encode(val), EncodePairs(rest);
            PackedEntry(key, val, rest, s, i, j) <==> s == a + b + c && i == |a| && j == |a| + |b|
    decreases Entry(key, val, rest), 0
  {
    hide Encode;
    hide Packed;
    hide EncodePairs;
    hide PackedPairs;
    if i <= j <= |s| {
      PackedIs(key, s[..i]);
      PackedIs(val, s[i..j]);
      PairsAre(rest, s[j..]);
      Cut(s, Encode(key), Encode(val), EncodePairs(rest), i, j);
    }
  }
}
