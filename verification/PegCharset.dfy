/** charsettype on the 32-byte bit maps of the source. */
module PegCharset {
  import opened PegTree
  import opened PegCodegen

  const CHARSETSIZE := 32
  const BITSPERCHAR := 8

  function Mask(k: nat): bv8
    requires k < 8
  {
    match k
    case 0 => 1
    case 1 => 2
    case 2 => 4
    case 3 => 8
    case 4 => 16
    case 5 => 32
    case 6 => 64
    case _ => 128
  }

  predicate TestChar(cs: seq<bv8>, c: Byte)
    requires |cs| == CHARSETSIZE
  {
    cs[c / 8] & Mask(c % 8) != 0
  }

  /** The set of characters that a bit map stands for. */
  ghost function Members(cs: seq<bv8>): Charset
    requires |cs| == CHARSETSIZE
  {
    set c: Byte | 0 <= c < 256 && TestChar(cs, c)
  }

  /** Position of the only bit of a byte, as the source finds it. */
  function BitIndex(b: bv8): (k: nat)
    ensures k < 8
  {
    var k4, b4 := if b & 0xF0 != 0 then 4 else 0, if b & 0xF0 != 0 then b >> 4 else b;
    var k2, b2 := if b4 & 0x0C != 0 then 2 else 0, if b4 & 0x0C != 0 then b4 >> 2 else b4;
    k4 + k2 + if b2 & 0x02 != 0 then 1 else 0
  }

  predicate OneBit(b: bv8) { b != 0 && b & (b - 1) == 0 }

  lemma OneBitIndex(b: bv8)
    requires OneBit(b)
    ensures b == Mask(BitIndex(b))
  {
    assert b == 1 || b == 2 || b == 4 || b == 8 || b == 16 || b == 32 || b == 64 || b == 128;
  }

  lemma MasksDiffer(j: nat, k: nat)
    requires j < 8 && k < 8
    ensures Mask(j) & Mask(k) != 0 <==> j == k
  {
  }

  lemma SomeBit(b: bv8) returns (k: nat)
    requires b != 0
    ensures k < 8 && b & Mask(k) != 0
  {
    k := if b & 1 != 0 then 0 else if b & 2 != 0 then 1 else if b & 4 != 0 then 2 else if b & 8 != 0 then 3
         else if b & 16 != 0 then 4 else if b & 32 != 0 then 5 else if b & 64 != 0 then 6 else 7;
  }

  lemma Narrowed(b: bv8, m: bv8, n: bv8)
    ensures (b & m) & n != 0 ==> b & n != 0
  {
  }

  lemma TwoBits(b: bv8) returns (j: nat, k: nat)
    requires b != 0 && !OneBit(b)
    ensures j < 8 && k < 8 && j != k && b & Mask(j) != 0 && b & Mask(k) != 0
  {
    j := SomeBit(b);
    var rest := b & !Mask(j);
    assert b == Mask(j) || rest != 0;
    assert b == Mask(j) ==> OneBit(b);
    k := SomeBit(rest);
    assert rest & Mask(j) == 0;
    Narrowed(b, !Mask(j), Mask(k));
  }

  lemma Member(cs: seq<bv8>, i: nat, k: nat) returns (c: Byte)
    requires |cs| == CHARSETSIZE && i < CHARSETSIZE && k < 8
    ensures c == i * 8 + k && (c in Members(cs) <==> cs[i] & Mask(k) != 0)
  {
    c := i * 8 + k;
    assert c / 8 == i && c % 8 == k;
  }

  /** Two members and a missing character make a set general. */
  lemma GeneralBy(cs: Charset, a: Byte, b: Byte, missing: Byte)
    requires a in cs && b in cs && a != b && missing !in cs
    ensures HasKind(cs, General)
  {
    assert missing in FULLSET;
    forall c: Byte ensures cs != {c} { assert a != c || b != c; }
  }

  /** What the source knows after the bytes before `i`. */
  predicate Scanned(cs: seq<bv8>, i: nat, count: nat, candidate: int)
    requires |cs| == CHARSETSIZE && i <= CHARSETSIZE
  {
    if count == 0 then forall k :: 0 <= k < i ==> cs[k] == 0
    else if count == 1 then
      0 <= candidate < i && OneBit(cs[candidate]) && forall k :: 0 <= k < i && k != candidate ==> cs[k] == 0
    else
      i > 0 && count == i * BITSPERCHAR && forall k :: 0 <= k < i ==> cs[k] == 0xFF
  }

  method CharsetType(cs: seq<bv8>) returns (kind: Kind)
    requires |cs| == CHARSETSIZE
    ensures HasKind(Members(cs), kind)
    ensures kind == KindOf(Members(cs))
  {
    var count: nat, i: nat, candidate: int := 0, 0, -1;
    while i < CHARSETSIZE
      invariant i <= CHARSETSIZE && Scanned(cs, i, count, candidate)
    {
      var b := cs[i];
      if b == 0 {
        if count > 1 {
          FullThenHole(cs, 0, i, 0);
          KindOfIs(Members(cs), General);
          return General;
        }
      } else if b == 0xFF {
        if count < i * BITSPERCHAR {
          HoleBefore(cs, i, count, candidate);
          KindOfIs(Members(cs), General);
          return General;
        } else {
          count := count + BITSPERCHAR;
        }
      } else if b & (b - 1) == 0 {
        if count > 0 {
          SecondBit(cs, i, count, candidate);
          KindOfIs(Members(cs), General);
          return General;
        } else {
          count, candidate := count + 1, i;
        }
      } else {
        Mixed(cs, i);
        KindOfIs(Members(cs), General);
        return General;
      }
      i := i + 1;
    }
    if count == 0 {
      kind := Empty;
      AllZero(cs);
    } else if count == 1 {
      kind := Singleton(candidate * BITSPERCHAR + BitIndex(cs[candidate]));
      OnlyBit(cs, candidate);
    } else {
      kind := Full;
      AllOnes(cs);
    }
    KindOfIs(Members(cs), kind);
  }

  /** A byte without bit `k`: a missing character. */
  lemma MissingBit(b: bv8) returns (k: nat)
    requires b != 0xFF
    ensures k < 8 && b & Mask(k) == 0
  {
    assert !b != 0;
    k := SomeBit(!b);
    assert !b & Mask(k) == Mask(k);
    assert b & Mask(k) == 0;
  }

  lemma FullThenHole(cs: seq<bv8>, full: nat, i: nat, k: nat)
    requires |cs| == CHARSETSIZE && full < CHARSETSIZE && i < CHARSETSIZE && k < 8
    requires cs[full] == 0xFF && cs[i] & Mask(k) == 0
    ensures HasKind(Members(cs), General)
  {
    var a := Member(cs, full, 0);
    var b := Member(cs, full, 1);
    var missing := Member(cs, i, k);
    GeneralBy(Members(cs), a, b, missing);
  }

  lemma HoleBefore(cs: seq<bv8>, i: nat, count: nat, candidate: int)
    requires |cs| == CHARSETSIZE && 0 < i < CHARSETSIZE && Scanned(cs, i, count, candidate) && count < i * BITSPERCHAR
    requires cs[i] == 0xFF
    ensures HasKind(Members(cs), General)
  {
    assert cs[0] != 0xFF;
    var k := MissingBit(cs[0]);
    FullThenHole(cs, i, 0, k);
  }

  lemma SecondBit(cs: seq<bv8>, i: nat, count: nat, candidate: int)
    requires |cs| == CHARSETSIZE && i < CHARSETSIZE && Scanned(cs, i, count, candidate) && count > 0
    requires OneBit(cs[i])
    ensures HasKind(Members(cs), General)
  {
    assert cs[i] != 0xFF;
    var hole := MissingBit(cs[i]);
    var missing := Member(cs, i, hole);
    var first := if count == 1 then candidate else 0;
    assert cs[first] != 0;
    var j := SomeBit(cs[first]);
    var k := SomeBit(cs[i]);
    var a := Member(cs, first, j);
    var b := Member(cs, i, k);
    GeneralBy(Members(cs), a, b, missing);
  }

  lemma Mixed(cs: seq<bv8>, i: nat)
    requires |cs| == CHARSETSIZE && i < CHARSETSIZE && cs[i] != 0 && cs[i] != 0xFF && !OneBit(cs[i])
    ensures HasKind(Members(cs), General)
  {
    var j, k := TwoBits(cs[i]);
    var hole := MissingBit(cs[i]);
    var a := Member(cs, i, j);
    var b := Member(cs, i, k);
    var missing := Member(cs, i, hole);
    GeneralBy(Members(cs), a, b, missing);
  }

  lemma AllZero(cs: seq<bv8>)
    requires |cs| == CHARSETSIZE && forall k :: 0 <= k < CHARSETSIZE ==> cs[k] == 0
    ensures Members(cs) == {}
  {
    forall c: Byte ensures !TestChar(cs, c) { assert (0 as bv8) & Mask(c % 8) == 0; }
  }

  lemma AllOnes(cs: seq<bv8>)
    requires |cs| == CHARSETSIZE && forall k :: 0 <= k < CHARSETSIZE ==> cs[k] == 0xFF
    ensures Members(cs) == FULLSET
  {
    forall c: Byte ensures TestChar(cs, c) { assert (0xFF as bv8) & Mask(c % 8) != 0; }
  }

  lemma OnlyBit(cs: seq<bv8>, i: nat)
    requires |cs| == CHARSETSIZE && i < CHARSETSIZE && OneBit(cs[i])
    requires forall k :: 0 <= k < CHARSETSIZE && k != i ==> cs[k] == 0
    ensures Members(cs) == {i * 8 + BitIndex(cs[i])}
  {
    OneBitIndex(cs[i]);
    forall c: Byte
      ensures TestChar(cs, c) <==> c == i * 8 + BitIndex(cs[i])
    {
      if c / 8 != i { assert (0 as bv8) & Mask(c % 8) == 0; }
      MasksDiffer(BitIndex(cs[i]), c % 8);
    }
  }
}
