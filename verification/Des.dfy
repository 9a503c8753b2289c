/** lua-crypt.c: DES in electronic codebook mode with 0x80 padding, for any subkeys and
    any contents of the S-boxes. */
module Des {
  import opened DesStandard

  // The permutations around the rounds

  function Swapped(p: Pair): Pair { Pair(p.y, p.x) }

  /** T = ((hi >> n) ^ lo) & mask; lo ^= T; hi ^= T << n */
  function Exchange(hi: Word, lo: Word, n: Word, mask: Word): Pair
    requires n < 32
  {
    var t := ((hi >> n) ^ lo) & mask;
    Pair(hi ^ (t << n), lo ^ t)
  }

  function InitialPermutation(x0: Word, y0: Word): Pair {
    var a := Exchange(x0, y0, 4, 0x0F0F0F0F);
    var b := Exchange(a.x, a.y, 16, 0x0000FFFF);
    var c := Exchange(b.y, b.x, 2, 0x33333333);
    var d := Exchange(c.x, c.y, 8, 0x00FF00FF);
    var y := Left(d.x);
    var e := Exchange(d.y, y, 0, 0xAAAAAAAA);
    Pair(Left(e.x), e.y)
  }

  /** DES_FP(X,Y) */
  function FinalPermutation(x0: Word, y0: Word): Pair {
    var x := Right(x0);
    var e := Exchange(x, y0, 0, 0xAAAAAAAA);
    var y := Right(e.y);
    var d := Exchange(y, e.x, 8, 0x00FF00FF);
    var c := Exchange(d.x, d.y, 2, 0x33333333);
    var b := Exchange(c.y, c.x, 16, 0x0000FFFF);
    var a := Exchange(b.x, b.y, 4, 0x0F0F0F0F);
    Pair(a.x, a.y)
  }

  // Every exchange undoes itself.

  lemma Exchange4(hi: Word, lo: Word)
    ensures var p := Exchange(hi, lo, 4, 0x0F0F0F0F); Exchange(p.x, p.y, 4, 0x0F0F0F0F) == Pair(hi, lo)
  {
  }

  lemma Exchange16(hi: Word, lo: Word)
    ensures var p := Exchange(hi, lo, 16, 0x0000FFFF); Exchange(p.x, p.y, 16, 0x0000FFFF) == Pair(hi, lo)
  {
  }

  lemma Exchange2(hi: Word, lo: Word)
    ensures var p := Exchange(hi, lo, 2, 0x33333333); Exchange(p.x, p.y, 2, 0x33333333) == Pair(hi, lo)
  {
  }

  lemma Exchange8(hi: Word, lo: Word)
    ensures var p := Exchange(hi, lo, 8, 0x00FF00FF); Exchange(p.x, p.y, 8, 0x00FF00FF) == Pair(hi, lo)
  {
  }

  lemma Exchange0(hi: Word, lo: Word)
    ensures var p := Exchange(hi, lo, 0, 0xAAAAAAAA); Exchange(p.x, p.y, 0, 0xAAAAAAAA) == Pair(hi, lo)
  {
  }

  lemma Rotations(w: Word)
    ensures Right(Left(w)) == w && Left(Right(w)) == w
  {
  }

  /** Each permutation undoes the other. */
  lemma FinalInvertsInitial(x0: Word, y0: Word)
    ensures var p := InitialPermutation(x0, y0); FinalPermutation(p.x, p.y) == Pair(x0, y0)
  {
    hide Exchange;
    hide Left;
    hide Right;
    var a := Exchange(x0, y0, 4, 0x0F0F0F0F);
    var b := Exchange(a.x, a.y, 16, 0x0000FFFF);
    var c := Exchange(b.y, b.x, 2, 0x33333333);
    var d := Exchange(c.x, c.y, 8, 0x00FF00FF);
    var e := Exchange(d.y, Left(d.x), 0, 0xAAAAAAAA);
    Rotations(e.x);
    Rotations(d.x);
    Exchange0(d.y, Left(d.x));
    Exchange8(c.x, c.y);
    Exchange2(b.y, b.x);
    Exchange16(a.x, a.y);
    Exchange4(x0, y0);
  }

  lemma InitialInvertsFinal(x0: Word, y0: Word)
    ensures var p := FinalPermutation(x0, y0); InitialPermutation(p.x, p.y) == Pair(x0, y0)
  {
    hide Exchange;
    hide Left;
    hide Right;
    var e := Exchange(Right(x0), y0, 0, 0xAAAAAAAA);
    var d := Exchange(Right(e.y), e.x, 8, 0x00FF00FF);
    var c := Exchange(d.x, d.y, 2, 0x33333333);
    var b := Exchange(c.y, c.x, 16, 0x0000FFFF);
    Rotations(x0);
    Rotations(e.y);
    Exchange0(Right(x0), y0);
    Exchange8(Right(e.y), e.x);
    Exchange2(d.x, d.y);
    Exchange16(c.y, c.x);
    Exchange4(b.x, b.y);
  }

  // The initial permutation is that of the standard, up to a rotation of the halves by one.

  lemma Moves4(hi: Word, lo: Word, n: Word)
    requires 1 <= n <= 32
    ensures var p := Exchange(hi, lo, 4, 0x0F0F0F0F);
            && Bit(p.x, n) == (if (n - 1) & 4 == 0 then Bit(lo, n + 4) else Bit(hi, n))
            && Bit(p.y, n) == (if (n - 1) & 4 != 0 then Bit(hi, n - 4) else Bit(lo, n))
  {
  }

  lemma Moves16(hi: Word, lo: Word, n: Word)
    requires 1 <= n <= 32
    ensures var p := Exchange(hi, lo, 16, 0x0000FFFF);
            && Bit(p.x, n) == (if (n - 1) & 16 == 0 then Bit(lo, n + 16) else Bit(hi, n))
            && Bit(p.y, n) == (if (n - 1) & 16 != 0 then Bit(hi, n - 16) else Bit(lo, n))
  {
  }

  lemma Moves2(hi: Word, lo: Word, n: Word)
    requires 1 <= n <= 32
    ensures var p := Exchange(hi, lo, 2, 0x33333333);
            && Bit(p.x, n) == (if (n - 1) & 2 == 0 then Bit(lo, n + 2) else Bit(hi, n))
            && Bit(p.y, n) == (if (n - 1) & 2 != 0 then Bit(hi, n - 2) else Bit(lo, n))
  {
  }

  lemma Moves8(hi: Word, lo: Word, n: Word)
    requires 1 <= n <= 32
    ensures var p := Exchange(hi, lo, 8, 0x00FF00FF);
            && Bit(p.x, n) == (if (n - 1) & 8 == 0 then Bit(lo, n + 8) else Bit(hi, n))
            && Bit(p.y, n) == (if (n - 1) & 8 != 0 then Bit(hi, n - 8) else Bit(lo, n))
  {
  }

  lemma Moves0(hi: Word, lo: Word, n: Word)
    requires 1 <= n <= 32
    ensures var p := Exchange(hi, lo, 0, 0xAAAAAAAA);
            && Bit(p.x, n) == (if n & 1 == 1 then Bit(lo, n) else Bit(hi, n))
            && Bit(p.y, n) == (if n & 1 == 1 then Bit(hi, n) else Bit(lo, n))
  {
  }

  lemma Rotates(w: Word, n: Word)
    requires 1 <= n <= 32
    ensures Bit(Left(w), n) == Bit(w, if n == 32 then 1 else n + 1)
    ensures Bit(Right(w), n) == Bit(w, if n == 1 then 32 else n - 1)
  {
  }

  /** Where an exchange by `s` places takes a bit of the block from. */
  function From(s: Word, n: Word): (m: Word)
    requires (s == 2 || s == 4 || s == 8 || s == 16) && 1 <= n <= 64
    ensures 1 <= m <= 64
  {
    if n <= 32 then (if (n - 1) & s == 0 then n + 32 + s else n)
    else (if (n - 33) & s != 0 then n - 32 - s else n)
  }

  /** The last exchange, with the rotations around it: from the halves `d` to those of the standard. */
  function FromLast(n: Word): (m: Word)
    requires 1 <= n <= 64
    ensures 1 <= m <= 64
  {
    var k := if n <= 32 then n else if n == 33 then 64 else n - 1;
    var f := if k & 1 == 0 then k else if k <= 32 then k + 32 else k - 32;
    if f <= 32 then f + 32 else if f == 64 then 1 else f - 31
  }

  function Other(n: Word): (m: Word)
    requires 1 <= n <= 64
    ensures 1 <= m <= 64
  {
    if n <= 32 then n + 32 else n - 32
  }

  lemma Block4(hi: Word, lo: Word, n: Word)
    requires 1 <= n <= 64
    ensures BlockBit(Exchange(hi, lo, 4, 0x0F0F0F0F), n) == BlockBit(Pair(hi, lo), From(4, n))
  {
    hide Exchange;
    hide Bit;
    Moves4(hi, lo, if n <= 32 then n else n - 32);
  }

  lemma Block16(hi: Word, lo: Word, n: Word)
    requires 1 <= n <= 64
    ensures BlockBit(Exchange(hi, lo, 16, 0x0000FFFF), n) == BlockBit(Pair(hi, lo), From(16, n))
  {
    hide Exchange;
    hide Bit;
    Moves16(hi, lo, if n <= 32 then n else n - 32);
  }

  lemma Block2(hi: Word, lo: Word, n: Word)
    requires 1 <= n <= 64
    ensures BlockBit(Exchange(hi, lo, 2, 0x33333333), n) == BlockBit(Pair(hi, lo), From(2, n))
  {
    hide Exchange;
    hide Bit;
    Moves2(hi, lo, if n <= 32 then n else n - 32);
  }

  lemma Block8(hi: Word, lo: Word, n: Word)
    requires 1 <= n <= 64
    ensures BlockBit(Exchange(hi, lo, 8, 0x00FF00FF), n) == BlockBit(Pair(hi, lo), From(8, n))
  {
    hide Exchange;
    hide Bit;
    Moves8(hi, lo, if n <= 32 then n else n - 32);
  }

  lemma BlockLast(d: Pair, n: Word)
    requires 1 <= n <= 64
    ensures var e := Exchange(d.y, Left(d.x), 0, 0xAAAAAAAA);
            BlockBit(Pair(e.x, Right(e.y)), n) == BlockBit(d, FromLast(n))
  {
    hide Exchange;
    hide Left;
    hide Right;
    hide Bit;
    var e := Exchange(d.y, Left(d.x), 0, 0xAAAAAAAA);
    var k := if n <= 32 then n else if n == 33 then 32 else n - 33;
    if n > 32 { Rotates(e.y, n - 32); }
    Moves0(d.y, Left(d.x), k);
    Rotates(d.x, k);
  }

  lemma BlockOther(p: Pair, n: Word)
    requires 1 <= n <= 64
    ensures BlockBit(Swapped(p), n) == BlockBit(p, Other(n))
  {
    hide Bit;
  }

  /** All the exchanges together take every bit from where the table says. */
  lemma TableIs(n: Word)
    requires 1 <= n <= 64
    ensures From(4, From(16, Other(From(2, From(8, FromLast(n)))))) == Ip(n)
  {
  }

  lemma InitialBit(x0: Word, y0: Word, n: Word)
    requires 1 <= n <= 64
    ensures BlockBit(Unrotated(InitialPermutation(x0, y0)), n) == BlockBit(Pair(x0, y0), Ip(n))
  {
    hide Exchange;
    hide Left;
    hide Right;
    hide BlockBit;
    hide From;
    hide FromLast;
    hide Other;
    hide Ip;
    var a := Exchange(x0, y0, 4, 0x0F0F0F0F);
    var b := Exchange(a.x, a.y, 16, 0x0000FFFF);
    var c := Exchange(b.y, b.x, 2, 0x33333333);
    var d := Exchange(c.x, c.y, 8, 0x00FF00FF);
    var e := Exchange(d.y, Left(d.x), 0, 0xAAAAAAAA);
    Rotations(e.x);
    var n1 := FromLast(n);
    var n2 := From(8, n1);
    var n3 := From(2, n2);
    var n4 := Other(n3);
    BlockLast(d, n);
    Block8(c.x, c.y, n1);
    Block2(b.y, b.x, n2);
    BlockOther(b, n3);
    Block16(a.x, a.y, n4);
    Block4(x0, y0, From(16, n4));
    TableIs(n);
  }

  /** The halves without the extra rotation that the program keeps them in. */
  function Unrotated(p: Pair): Pair { Pair(Right(p.x), Right(p.y)) }

  lemma InitialIs(x0: Word, y0: Word)
    ensures Permuted(Pair(x0, y0), Unrotated(InitialPermutation(x0, y0)))
  {
    hide InitialPermutation;
    hide BlockBit;
    hide Ip;
    hide Unrotated;
    forall n: Word {:trigger BlockBit(Unrotated(InitialPermutation(x0, y0)), n)} | 1 <= n <= 64
      ensures BlockBit(Unrotated(InitialPermutation(x0, y0)), n) == BlockBit(Pair(x0, y0), Ip(n))
    {
      InitialBit(x0, y0, n);
    }
  }

  /** The final permutation is the inverse. */
  lemma FinalIs(x: Word, y: Word)
    ensures Permuted(FinalPermutation(x, y), Unrotated(Pair(x, y)))
  {
    hide *;
    InitialInvertsFinal(x, y);
    var p := FinalPermutation(x, y);
    InitialIs(p.x, p.y);
  }

  // The rounds

  /** (T >> s) & 0x3F */
  function Six(t: Word, s: Word): Word
    requires s < 32
  {
    (t >> s) & 0x3F
  }

  /** What DES_ROUND mixes into the other half, with its two subkeys. */
  function MixEven(b: Boxes, k: Word, x: Word): Word {
    var t := k ^ x;
    Xor4(b.sb8(Six(t, 0)), b.sb6(Six(t, 8)), b.sb4(Six(t, 16)), b.sb2(Six(t, 24)))
  }

  function MixOdd(b: Boxes, k: Word, x: Word): Word {
    var t := k ^ ((x << 28) | (x >> 4));
    Xor4(b.sb7(Six(t, 0)), b.sb5(Six(t, 8)), b.sb3(Six(t, 16)), b.sb1(Six(t, 24)))
  }

  /** The bits that DES_ROUND looks up are those that the standard selects. */
  lemma EvenBits(k: Word, x: Word)
    ensures (k ^ x) & 0x3F == Expanded(Right(x), 8) ^ (k & 0x3F)
    ensures ((k ^ x) >> 8) & 0x3F == Expanded(Right(x), 6) ^ ((k >> 8) & 0x3F)
    ensures ((k ^ x) >> 16) & 0x3F == Expanded(Right(x), 4) ^ ((k >> 16) & 0x3F)
    ensures ((k ^ x) >> 24) & 0x3F == Expanded(Right(x), 2) ^ ((k >> 24) & 0x3F)
  {
  }

  lemma OddBits(k: Word, x: Word)
    ensures (k ^ ((x << 28) | (x >> 4))) & 0x3F == Expanded(Right(x), 7) ^ (k & 0x3F)
    ensures ((k ^ ((x << 28) | (x >> 4))) >> 8) & 0x3F == Expanded(Right(x), 5) ^ ((k >> 8) & 0x3F)
    ensures ((k ^ ((x << 28) | (x >> 4))) >> 16) & 0x3F == Expanded(Right(x), 3) ^ ((k >> 16) & 0x3F)
    ensures ((k ^ ((x << 28) | (x >> 4))) >> 24) & 0x3F == Expanded(Right(x), 1) ^ ((k >> 24) & 0x3F)
  {
  }

  lemma KeyGroups(k: Key)
    ensures KeyGroup(k, 1) == Six(k.k1, 24) && KeyGroup(k, 2) == Six(k.k0, 24)
    ensures KeyGroup(k, 3) == Six(k.k1, 16) && KeyGroup(k, 4) == Six(k.k0, 16)
    ensures KeyGroup(k, 5) == Six(k.k1, 8) && KeyGroup(k, 6) == Six(k.k0, 8)
    ensures KeyGroup(k, 7) == Six(k.k1, 0) && KeyGroup(k, 8) == Six(k.k0, 0)
  {
  }

  lemma SixIs(t: Word)
    ensures Six(t, 0) == t & 0x3F && Six(t, 8) == (t >> 8) & 0x3F
    ensures Six(t, 16) == (t >> 16) & 0x3F && Six(t, 24) == (t >> 24) & 0x3F
  {
  }

  lemma EvenGroups(k: Key, x: Word)
    ensures Xor(Expanded(Right(x), 8), KeyGroup(k, 8)) == Six(k.k0 ^ x, 0)
    ensures Xor(Expanded(Right(x), 6), KeyGroup(k, 6)) == Six(k.k0 ^ x, 8)
    ensures Xor(Expanded(Right(x), 4), KeyGroup(k, 4)) == Six(k.k0 ^ x, 16)
    ensures Xor(Expanded(Right(x), 2), KeyGroup(k, 2)) == Six(k.k0 ^ x, 24)
  {
    hide Expanded;
    hide KeyGroup;
    hide Right;
    hide Six;
    EvenBits(k.k0, x);
    KeyGroups(k);
    SixIs(k.k0);
    SixIs(k.k0 ^ x);
  }

  lemma OddGroups(k: Key, x: Word)
    ensures Xor(Expanded(Right(x), 7), KeyGroup(k, 7)) == Six(k.k1 ^ ((x << 28) | (x >> 4)), 0)
    ensures Xor(Expanded(Right(x), 5), KeyGroup(k, 5)) == Six(k.k1 ^ ((x << 28) | (x >> 4)), 8)
    ensures Xor(Expanded(Right(x), 3), KeyGroup(k, 3)) == Six(k.k1 ^ ((x << 28) | (x >> 4)), 16)
    ensures Xor(Expanded(Right(x), 1), KeyGroup(k, 1)) == Six(k.k1 ^ ((x << 28) | (x >> 4)), 24)
  {
    hide Expanded;
    hide KeyGroup;
    hide Right;
    hide Six;
    OddBits(k.k1, x);
    KeyGroups(k);
    SixIs(k.k1);
    SixIs(k.k1 ^ ((x << 28) | (x >> 4)));
  }

  lemma RightXor(v: Word, w: Word)
    ensures Right(Xor(v, w)) == Xor(Right(v), Right(w))
  {
  }

  lemma RightXors(v: Word, w: Word, y: Word, z: Word)
    ensures Right(Xor4(v, w, y, z)) == Xor4(Right(v), Right(w), Right(y), Right(z))
  {
    hide Right;
    hide Xor;
    RightXor(v, w);
    RightXor(y, z);
    RightXor(Xor(v, w), Xor(y, z));
  }

  lemma SelectedIs(b: Boxes, r: Word, k: Key, i: Word, v: Word)
    requires 1 <= i <= 8 && Xor(Expanded(r, i), KeyGroup(k, i)) == v
    ensures Selected(b, r, k, i) == Right(Box(b, i)(v))
  {
    hide Expanded;
    hide KeyGroup;
    hide Right;
    hide Box;
    hide Xor;
  }

  lemma MixEvenIs(b: Boxes, k: Word, x: Word)
    ensures var t := k ^ x;
            MixEven(b, k, x) ==
            Xor4(Box(b, 8)(Six(t, 0)), Box(b, 6)(Six(t, 8)), Box(b, 4)(Six(t, 16)), Box(b, 2)(Six(t, 24)))
  {
    hide Six;
    hide Xor4;
  }

  lemma MixOddIs(b: Boxes, k: Word, x: Word)
    ensures var t := k ^ ((x << 28) | (x >> 4));
            MixOdd(b, k, x) ==
            Xor4(Box(b, 7)(Six(t, 0)), Box(b, 5)(Six(t, 8)), Box(b, 3)(Six(t, 16)), Box(b, 1)(Six(t, 24)))
  {
    hide Six;
    hide Xor4;
  }

  lemma EvenSelected(b: Boxes, k: Key, x: Word)
    ensures Right(MixEven(b, k.k0, x)) ==
            Xor4(Selected(b, Right(x), k, 8), Selected(b, Right(x), k, 6), Selected(b, Right(x), k, 4),
                 Selected(b, Right(x), k, 2))
  {
    hide *;
    MixEvenIs(b, k.k0, x);
    EvenGroups(k, x);
    var t := k.k0 ^ x;
    SelectedIs(b, Right(x), k, 8, Six(t, 0));
    SelectedIs(b, Right(x), k, 6, Six(t, 8));
    SelectedIs(b, Right(x), k, 4, Six(t, 16));
    SelectedIs(b, Right(x), k, 2, Six(t, 24));
    RightXors(Box(b, 8)(Six(t, 0)), Box(b, 6)(Six(t, 8)), Box(b, 4)(Six(t, 16)), Box(b, 2)(Six(t, 24)));
  }

  lemma OddSelected(b: Boxes, k: Key, x: Word)
    ensures Right(MixOdd(b, k.k1, x)) ==
            Xor4(Selected(b, Right(x), k, 7), Selected(b, Right(x), k, 5), Selected(b, Right(x), k, 3),
                 Selected(b, Right(x), k, 1))
  {
    hide *;
    MixOddIs(b, k.k1, x);
    OddGroups(k, x);
    var t := k.k1 ^ ((x << 28) | (x >> 4));
    SelectedIs(b, Right(x), k, 7, Six(t, 0));
    SelectedIs(b, Right(x), k, 5, Six(t, 8));
    SelectedIs(b, Right(x), k, 3, Six(t, 16));
    SelectedIs(b, Right(x), k, 1, Six(t, 24));
    RightXors(Box(b, 7)(Six(t, 0)), Box(b, 5)(Six(t, 8)), Box(b, 3)(Six(t, 16)), Box(b, 1)(Six(t, 24)));
  }

  lemma Interchange(v: Word, w: Word, y: Word, z: Word)
    ensures Xor(Xor(v, w), Xor(y, z)) == Xor(Xor(v, y), Xor(w, z))
  {
    hide Xor;
    XorThree(v, w, Xor(y, z));
    XorThree(w, y, z);
    Commutes(w, y);
    XorThree(y, w, z);
    XorThree(v, y, Xor(w, z));
  }

  lemma Commutes(v: Word, w: Word)
    ensures Xor(v, w) == Xor(w, v)
  {
  }

  lemma XorEight(a1: Word, a2: Word, a3: Word, a4: Word, a5: Word, a6: Word, a7: Word, a8: Word)
    ensures Xor(Xor4(a8, a6, a4, a2), Xor4(a7, a5, a3, a1)) ==
            Xor4(Xor(a1, a2), Xor(a3, a4), Xor(a5, a6), Xor(a7, a8))
  {
    hide Xor;
    Interchange(Xor(a8, a6), Xor(a4, a2), Xor(a7, a5), Xor(a3, a1));
    Interchange(a8, a6, a7, a5);
    Interchange(a4, a2, a3, a1);
    Commutes(a8, a7);
    Commutes(a6, a5);
    Commutes(a4, a3);
    Commutes(a2, a1);
    Commutes(Xor(a7, a8), Xor(a5, a6));
    Commutes(Xor(a3, a4), Xor(a1, a2));
    Commutes(Xor(Xor(a5, a6), Xor(a7, a8)), Xor(Xor(a1, a2), Xor(a3, a4)));
  }

  lemma XorThree(x: Word, v: Word, w: Word)
    ensures Xor(Xor(x, v), w) == Xor(x, Xor(v, w))
  {
  }

  /** DES_ROUND is a round of the standard. */
  lemma TurnIs(b: Boxes, k: Key, q: Pair)
    ensures Unrotated(Turn(b, k, q)) == Pair(Right(q.y), Xor(Right(q.x), F(b, Right(q.y), k)))
  {
    hide *;
    var m, n, r := MixEven(b, k.k0, q.y), MixOdd(b, k.k1, q.y), Right(q.y);
    EvenSelected(b, k, q.y);
    OddSelected(b, k, q.y);
    TurnDef(b, k, q);
    RightXor(Xor(q.x, m), n);
    RightXor(q.x, m);
    XorThree(Right(q.x), Right(m), Right(n));
    FIs(b, r, k);
  }

  lemma TurnDef(b: Boxes, k: Key, q: Pair)
    ensures Unrotated(Turn(b, k, q)) ==
            Pair(Right(q.y), Right(Xor(Xor(q.x, MixEven(b, k.k0, q.y)), MixOdd(b, k.k1, q.y))))
  {
    hide Right;
    hide MixEven;
    hide MixOdd;
  }

  lemma FIs(b: Boxes, r: Word, k: Key)
    ensures F(b, r, k) ==
            Xor(Xor4(Selected(b, r, k, 8), Selected(b, r, k, 6), Selected(b, r, k, 4), Selected(b, r, k, 2)),
                Xor4(Selected(b, r, k, 7), Selected(b, r, k, 5), Selected(b, r, k, 3), Selected(b, r, k, 1)))
  {
    hide Selected;
    hide Xor;
    hide Xor4;
    XorEight(Selected(b, r, k, 1), Selected(b, r, k, 2), Selected(b, r, k, 3), Selected(b, r, k, 4),
             Selected(b, r, k, 5), Selected(b, r, k, 6), Selected(b, r, k, 7), Selected(b, r, k, 8));
  }

  function Keys(sk: seq<Word>): (ks: seq<Key>)
    requires |sk| == 32
    ensures |ks| == 16
  {
    seq(16, i requires 0 <= i < 16 => Key(sk[2 * i], sk[2 * i + 1]))
  }

  /** One round: one half is changed, and the halves trade places. */
  function Turn(b: Boxes, k: Key, q: Pair): Pair { Pair(q.y, q.x ^ MixEven(b, k.k0, q.y) ^ MixOdd(b, k.k1, q.y)) }

  /** The halves after a number of rounds, the one that is changed next first. */
  function Rounds(b: Boxes, ks: seq<Key>, p: Pair): Pair {
    if ks == [] then p else Turn(b, ks[|ks| - 1], Rounds(b, ks[..|ks| - 1], p))
  }

  function Reverse<T>(s: seq<T>): (r: seq<T>)
    ensures |r| == |s|
  {
    if s == [] then [] else [s[|s| - 1]] + Reverse(s[..|s| - 1])
  }

  /** The subkeys as ldesdecode uses them. */
  function Reversed(sk: seq<Word>): (r: seq<Word>)
    requires |sk| == 32
    ensures |r| == 32
  {
    seq(32, i requires 0 <= i < 32 => if i % 2 == 0 then sk[30 - i] else sk[32 - i])
  }

  lemma {:induction false} ReverseAt<T>(s: seq<T>, i: nat)
    requires i < |s|
    ensures Reverse(s)[i] == s[|s| - 1 - i]
  {
    if i > 0 { ReverseAt(s[..|s| - 1], i - 1); }
  }

  lemma KeysReversed(sk: seq<Word>)
    requires |sk| == 32
    ensures Keys(Reversed(sk)) == Reverse(Keys(sk))
  {
    var a, b := Keys(Reversed(sk)), Reverse(Keys(sk));
    forall i | 0 <= i < 16 ensures a[i] == b[i] { ReverseAt(Keys(sk), i); }
  }

  lemma XorFour(x: Word, m: Word, n: Word)
    ensures x ^ m ^ n ^ m ^ n == x
  {
  }

  lemma TurnUndo(b: Boxes, k: Key, q: Pair)
    ensures Turn(b, k, Swapped(Turn(b, k, q))) == Swapped(q)
  {
    hide MixEven;
    hide MixOdd;
    XorFour(q.x, MixEven(b, k.k0, q.y), MixOdd(b, k.k1, q.y));
  }

  lemma {:induction false} FirstRound(b: Boxes, k: Key, ks: seq<Key>, p: Pair)
    ensures Rounds(b, [k] + ks, p) == Rounds(b, ks, Turn(b, k, p))
  {
    hide Turn;
    var s := [k] + ks;
    if ks == [] {
      assert s[..0] == [] && s[0] == k;
    } else {
      FirstRound(b, k, ks[..|ks| - 1], p);
      assert s[..|s| - 1] == [k] + ks[..|ks| - 1];
    }
  }

  lemma {:induction false} RoundsAre(b: Boxes, ks: seq<Key>, p: Pair)
    ensures Unrotated(Rounds(b, ks, p)) == Ciphered(b, ks, Unrotated(p))
  {
    hide Turn;
    hide F;
    if ks != [] {
      var n := |ks| - 1;
      RoundsAre(b, ks[..n], p);
      TurnIs(b, ks[n], Rounds(b, ks[..n], p));
    }
  }

  /** The rounds with the subkeys reversed undo the rounds. */
  lemma {:induction false} RoundsUndo(b: Boxes, ks: seq<Key>, p: Pair)
    ensures Rounds(b, Reverse(ks), Swapped(Rounds(b, ks, p))) == Swapped(p)
  {
    hide Turn;
    if ks != [] {
      var n := |ks| - 1;
      var q := Rounds(b, ks[..n], p);
      TurnUndo(b, ks[n], q);
      FirstRound(b, ks[n], Reverse(ks[..n]), Swapped(Turn(b, ks[n], q)));
      RoundsUndo(b, ks[..n], p);
    }
  }

  // Blocks

  /** GET_UINT32 */
  function Get(s: seq<Byte>): Word
    requires |s| == 4
  {
    Join(s[0], s[1], s[2], s[3])
  }

  function Join(a: Byte, b: Byte, c: Byte, d: Byte): Word {
    ((a as Word) << 24) | ((b as Word) << 16) | ((c as Word) << 8) | (d as Word)
  }

  /** PUT_UINT32 */
  function Put(w: Word): (s: seq<Byte>)
    ensures |s| == 4
  {
    [((w >> 24) & 0xFF) as Byte, ((w >> 16) & 0xFF) as Byte, ((w >> 8) & 0xFF) as Byte, (w & 0xFF) as Byte]
  }

  lemma GetPut(w: Word)
    ensures Get(Put(w)) == w
  {
  }

  lemma PutGet(s: seq<Byte>)
    requires |s| == 4
    ensures Put(Get(s)) == s
  {
    PutGetBytes(s[0], s[1], s[2], s[3]);
    hide Join;
    hide Put;
    assert s == [s[0], s[1], s[2], s[3]];
  }

  lemma PutGetBytes(a: Byte, b: Byte, c: Byte, d: Byte)
    ensures Put(Join(a, b, c, d)) == [a, b, c, d]
  {
  }

  /** des_crypt as a function. */
  function Block(b: Boxes, sk: seq<Word>, input: seq<Byte>): (output: seq<Byte>)
    requires |sk| == 32 && |input| == 8
    ensures |output| == 8
  {
    var q := Rounds(b, Keys(sk), InitialPermutation(Get(input[..4]), Get(input[4..])));
    var f := FinalPermutation(q.y, q.x);
    Put(f.x) + Put(f.y)
  }

  lemma JoinByte(a: Byte, b: Byte, c: Byte, d: Byte, j: Word)
    requires 1 <= j <= 8
    ensures var w := Join(a, b, c, d);
            && Bit(w, j) == ((a as Word) >> (8 - j)) & 1 && Bit(w, 8 + j) == ((b as Word) >> (8 - j)) & 1
            && Bit(w, 16 + j) == ((c as Word) >> (8 - j)) & 1 && Bit(w, 24 + j) == ((d as Word) >> (8 - j)) & 1
  {
  }

  function Halves(s: seq<Byte>): Pair
    requires |s| == 8
  {
    Pair(Get(s[..4]), Get(s[4..]))
  }

  lemma WordByte(p: Pair, a: Byte, b: Byte, c: Byte, d: Byte, n: Word)
    requires (n == 0 && p.x == Join(a, b, c, d)) || (n == 32 && p.y == Join(a, b, c, d))
    ensures HasByte(p, n, a) && HasByte(p, n + 8, b) && HasByte(p, n + 16, c) && HasByte(p, n + 24, d)
  {
    hide Bit;
    hide Join;
    forall m: Word {:trigger BlockBit(p, m)}
      ensures n < m <= n + 8 ==> BlockBit(p, m) == ((a as Word) >> (n + 8 - m)) & 1
      ensures n + 8 < m <= n + 16 ==> BlockBit(p, m) == ((b as Word) >> (n + 16 - m)) & 1
      ensures n + 16 < m <= n + 24 ==> BlockBit(p, m) == ((c as Word) >> (n + 24 - m)) & 1
      ensures n + 24 < m <= n + 32 ==> BlockBit(p, m) == ((d as Word) >> (n + 32 - m)) & 1
    {
      if n < m <= n + 32 { JoinByte(a, b, c, d, ((m - n - 1) & 7) + 1); }
    }
  }

  lemma HalvesAre(s: seq<Byte>)
    requires |s| == 8
    ensures IsBlock(s, Halves(s))
  {
    hide Join;
    hide HasByte;
    WordByte(Halves(s), s[0], s[1], s[2], s[3], 0);
    WordByte(Halves(s), s[4], s[5], s[6], s[7], 32);
  }

  /** des_crypt enciphers as the standard says. */
  lemma BlockIs(b: Boxes, sk: seq<Word>, input: seq<Byte>)
    requires |sk| == 32 && |input| == 8
    ensures EnciphersBytes(b, Keys(sk), input, Block(b, sk, input))
  {
    hide *;
    var output := Block(b, sk, input);
    HalvesAre(input);
    HalvesAre(output);
    HalvesEnciphered(b, sk, input);
    EnciphersIs(b, Keys(sk), input, output, Halves(input), Halves(output));
  }

  lemma EnciphersIs(b: Boxes, ks: seq<Key>, input: seq<Byte>, output: seq<Byte>, p: Pair, q: Pair)
    requires |input| == 8 && |output| == 8 && IsBlock(input, p) && IsBlock(output, q) && Enciphers(b, ks, p, q)
    ensures EnciphersBytes(b, ks, input, output)
  {
    hide IsBlock;
    hide Enciphers;
  }

  lemma HalvesEnciphered(b: Boxes, sk: seq<Word>, input: seq<Byte>)
    requires |sk| == 32 && |input| == 8
    ensures Enciphers(b, Keys(sk), Halves(input), Halves(Block(b, sk, input)))
  {
    hide InitialPermutation;
    hide FinalPermutation;
    hide Get;
    hide Put;
    hide Rounds;
    hide Keys;
    hide Ciphered;
    hide Permuted;
    hide Right;
    var p := Halves(input);
    var i := InitialPermutation(p.x, p.y);
    var q := Rounds(b, Keys(sk), i);
    var f := FinalPermutation(q.y, q.x);
    var output := Put(f.x) + Put(f.y);
    assert output[..4] == Put(f.x) && output[4..] == Put(f.y);
    GetPut(f.x);
    GetPut(f.y);
    InitialIs(p.x, p.y);
    RoundsAre(b, Keys(sk), i);
    FinalIs(q.y, q.x);
    assert Permuted(p, Unrotated(i));
  }

  lemma BlockInverts(b: Boxes, sk: seq<Word>, input: seq<Byte>)
    requires |sk| == 32 && |input| == 8
    ensures Block(b, Reversed(sk), Block(b, sk, input)) == input
  {
    hide InitialPermutation;
    hide FinalPermutation;
    hide Get;
    hide Put;
    hide Rounds;
    hide Keys;
    hide Reversed;
    hide Reverse;
    var x, y := Get(input[..4]), Get(input[4..]);
    var p := InitialPermutation(x, y);
    var q := Rounds(b, Keys(sk), p);
    var f := FinalPermutation(q.y, q.x);
    var output := Put(f.x) + Put(f.y);
    assert output[..4] == Put(f.x) && output[4..] == Put(f.y);
    GetPut(f.x);
    GetPut(f.y);
    InitialInvertsFinal(q.y, q.x);
    KeysReversed(sk);
    RoundsUndo(b, Keys(sk), p);
    FinalInvertsInitial(x, y);
    PutGet(input[..4]);
    PutGet(input[4..]);
    assert input[..4] + input[4..] == input;
  }

  /** The reversed subkeys, reversed again, are the subkeys: encrypting undoes decrypting. */
  lemma ReversedTwice(sk: seq<Word>)
    requires |sk| == 32
    ensures Reversed(Reversed(sk)) == sk
  {
  }

  lemma BlockInverted(b: Boxes, sk: seq<Word>, code: seq<Byte>)
    requires |sk| == 32 && |code| == 8
    ensures Block(b, sk, Block(b, Reversed(sk), code)) == code
  {
    ReversedTwice(sk);
    hide *;
    BlockInverts(b, Reversed(sk), code);
  }

  /** DES_ROUND(X,Y): the new Y. */
  method Round(b: Boxes, k0: Word, k1: Word, x: Word, y: Word) returns (y': Word)
    ensures Pair(x, y') == Turn(b, Key(k0, k1), Pair(y, x))
  {
    hide MixEven;
    hide MixOdd;
    y' := y ^ MixEven(b, k0, x);
    y' := y' ^ MixOdd(b, k1, x);
  }

  lemma OneRound(b: Boxes, ks: seq<Key>, n: nat, p: Pair)
    requires n < |ks|
    ensures Rounds(b, ks[..n + 1], p) == Turn(b, ks[n], Rounds(b, ks[..n], p))
  {
    hide Turn;
    assert ks[..n + 1][..n] == ks[..n];
  }

  lemma NoRound(b: Boxes, p: Pair)
    ensures Rounds(b, [], p) == p
  {
  }

  lemma KeyAt(sk: seq<Word>, i: nat)
    requires |sk| == 32 && i < 8
    ensures var ks := Keys(sk);
            ks[2 * i] == Key(sk[4 * i], sk[4 * i + 1]) && ks[2 * i + 1] == Key(sk[4 * i + 2], sk[4 * i + 3])
  {
  }

  lemma TwoRounds(b: Boxes, sk: seq<Word>, i: nat, p: Pair)
    requires |sk| == 32 && i < 8
    ensures Rounds(b, Keys(sk)[..2 * (i + 1)], p) ==
            Turn(b, Key(sk[4 * i + 2], sk[4 * i + 3]),
                Turn(b, Key(sk[4 * i], sk[4 * i + 1]), Rounds(b, Keys(sk)[..2 * i], p)))
  {
    hide *;
    KeyAt(sk, i);
    OneRound(b, Keys(sk), 2 * i, p);
    OneRound(b, Keys(sk), 2 * i + 1, p);
  }

  /** The sixteen DES_ROUNDs. */
  method AllRounds(b: Boxes, sk: seq<Word>, p: Pair) returns (x: Word, y: Word)
    requires |sk| == 32
    ensures Pair(x, y) == Rounds(b, Keys(sk), p)
  {
    hide *;
    NoRound(b, p);
    assert Keys(sk)[..0] == [];
    x, y := p.x, p.y;
    var i := 0;
    while i < 8
      invariant i <= 8 && Pair(x, y) == Rounds(b, Keys(sk)[..2 * i], p)
    {
      TwoRounds(b, sk, i, p);
      x := Round(b, sk[4 * i], sk[4 * i + 1], y, x);
      y := Round(b, sk[4 * i + 2], sk[4 * i + 3], x, y);
      i := i + 1;
    }
    assert Keys(sk)[..16] == Keys(sk);
  }

  method DesCrypt(b: Boxes, sk: seq<Word>, input: seq<Byte>, output: array<Byte>, at: nat)
    requires |sk| == 32 && |input| == 8 && at + 8 <= output.Length
    modifies output
    ensures output[..] == old(output[..at]) + Block(b, sk, input) + old(output[at + 8..])
    ensures EnciphersBytes(b, Keys(sk), input, output[at..at + 8])
  {
    hide InitialPermutation;
    hide FinalPermutation;
    hide Get;
    hide Put;
    hide Rounds;
    ghost var was := output[..];
    var x, y := AllRounds(b, sk, InitialPermutation(Get(input[..4]), Get(input[4..])));
    var f := FinalPermutation(y, x);
    var bytes := Put(f.x) + Put(f.y);
    assert bytes == Block(b, sk, input);
    hide Block;
    forall j | 0 <= j < 8 { output[at + j] := bytes[j]; }
    assert output[..] == was[..at] + bytes + was[at + 8..];
    assert output[at..at + 8] == bytes;
    BlockIs(b, sk, input);
  }

  // Texts

  /** Block by block. */
  function Ecb(b: Boxes, sk: seq<Word>, text: seq<Byte>): (r: seq<Byte>)
    requires |sk| == 32 && |text| % 8 == 0
    ensures |r| == |text|
  {
    if text == [] then []
    else
      var n := |text| - 8;
      Ecb(b, sk, text[..n]) + Block(b, sk, text[n..])
  }

  lemma {:induction false} EcbInverts(b: Boxes, sk: seq<Word>, text: seq<Byte>)
    requires |sk| == 32 && |text| % 8 == 0
    ensures Ecb(b, Reversed(sk), Ecb(b, sk, text)) == text
  {
    hide Block;
    EcbEmpty(b, sk);
    EcbEmpty(b, Reversed(sk));
    hide Ecb;
    if text != [] {
      var n := |text| - 8;
      assert text[..n] + text[n..] == text;
      EcbNext(b, sk, text[..n], text[n..]);
      EcbNext(b, Reversed(sk), Ecb(b, sk, text[..n]), Block(b, sk, text[n..]));
      EcbInverts(b, sk, text[..n]);
      BlockInverts(b, sk, text[n..]);
    }
  }

  lemma EcbNext(b: Boxes, sk: seq<Word>, head: seq<Byte>, last: seq<Byte>)
    requires |sk| == 32 && |head| % 8 == 0 && |last| == 8
    ensures Ecb(b, sk, head + last) == Ecb(b, sk, head) + Block(b, sk, last)
  {
    assert (head + last)[..|head|] == head && (head + last)[|head|..] == last;
  }

  /** Each block of the text is enciphered on its own, in its place. */
  lemma {:induction false} EcbAt(b: Boxes, sk: seq<Word>, text: seq<Byte>, i: nat)
    requires |sk| == 32 && |text| % 8 == 0 && 8 * i + 8 <= |text|
    ensures EnciphersBytes(b, Keys(sk), text[8 * i..8 * i + 8], Ecb(b, sk, text)[8 * i..8 * i + 8])
  {
    hide Block;
    hide EnciphersBytes;
    hide Keys;
    var n := |text| - 8;
    if 8 * i == n {
      var whole, front := Ecb(b, sk, text), Ecb(b, sk, text[..n]);
      assert whole == front + Block(b, sk, text[n..]) && whole[n..] == Block(b, sk, text[n..]);
      assert text[n..n + 8] == text[n..] && whole[n..n + 8] == whole[n..];
      BlockIs(b, sk, text[n..]);
    } else {
      EcbAt(b, sk, text[..n], i);
      assert text[..n][8 * i..8 * i + 8] == text[8 * i..8 * i + 8];
      var whole, front := Ecb(b, sk, text), Ecb(b, sk, text[..n]);
      assert whole == front + Block(b, sk, text[n..]);
      assert whole[8 * i..8 * i + 8] == front[8 * i..8 * i + 8];
    }
  }

  function Zeros(n: nat): (s: seq<Byte>)
    ensures |s| == n && forall i :: 0 <= i < n ==> s[i] == 0
  {
    seq(n, _ => 0)
  }

  /** 0x80 and then zeros, up to the next whole block. */
  function Padded(text: seq<Byte>): (r: seq<Byte>)
    ensures |r| == (|text| / 8 + 1) * 8
  {
    text + [0x80] + Zeros(7 - |text| % 8)
  }

  method Encode(b: Boxes, sk: seq<Word>, text: seq<Byte>) returns (r: seq<Byte>)
    requires |sk| == 32
    ensures r == Ecb(b, sk, Padded(text))
  {
    hide Block;
    hide Ecb;
    hide EnciphersBytes;
    var chunks := (|text| / 8 + 1) * 8;
    var buffer := new Byte[chunks];
    var i: nat := 0;
    EcbEmpty(b, sk);
    while i < |text| - 7
      invariant i % 8 == 0 && i <= |text| && i + 8 <= chunks
      invariant buffer[..i] == Ecb(b, sk, text[..i])
    {
      ghost var was := buffer[..];
      DesCrypt(b, sk, text[i..i + 8], buffer, i);
      EcbNext(b, sk, text[..i], text[i..i + 8]);
      assert text[..i] + text[i..i + 8] == text[..i + 8];
      assert buffer[..i + 8] == buffer[..][..i + 8] == was[..i] + Block(b, sk, text[i..i + 8]);
      i := i + 8;
    }
    var bytes := |text| - i;
    assert i + 8 == chunks;
    var tail := new Byte[8];
    for j := 0 to 8
      modifies tail
      invariant forall l :: 0 <= l < j ==> tail[l] == if l < bytes then text[i + l] else if l == bytes then 0x80 else 0
    {
      tail[j] := if j < bytes then text[i + j] else if j == bytes then 0x80 else 0;
    }
    assert tail[..] == text[i..] + [0x80] + Zeros(7 - bytes);
    ghost var done, last := buffer[..i], tail[..];
    assert buffer[i + 8..] == [];
    DesCrypt(b, sk, tail[..], buffer, i);
    EcbNext(b, sk, text[..i], last);
    assert text[..i] + last == Padded(text);
    assert buffer[..] == done + Block(b, sk, last);
    r := buffer[..];
  }

  lemma EcbEmpty(b: Boxes, sk: seq<Word>)
    requires |sk| == 32
    ensures Ecb(b, sk, []) == []
  {
  }

  /** What ldesdecode does with a text. With one block of zeros only, its search for the
      padding leaves the buffer. */
  datatype Decoded = Text(text: seq<Byte>) | InvalidLength | InvalidText | OutsideBuffer

  method Decode(b: Boxes, sk: seq<Word>, text: seq<Byte>) returns (r: Decoded)
    requires |sk| == 32
    ensures r == InvalidLength <==> |text| % 8 != 0 || text == []
    ensures |text| % 8 == 0 && text != [] ==>
              var plain := Ecb(b, Reversed(sk), text);
              forall t :: r == Text(t) <==> plain == Padded(t)
    ensures r == OutsideBuffer <==> text == Block(b, sk, Zeros(8))
  {
    hide Block;
    hide EnciphersBytes;
    ZeroCode(b, sk, text);
    hide Ecb;
    if |text| % 8 != 0 || |text| == 0 { return InvalidLength; }
    var key := Reversed(sk);
    var buffer := new Byte[|text|];
    var i := 0;
    EcbEmpty(b, key);
    while i < |text|
      invariant i % 8 == 0 && i <= |text| && buffer[..i] == Ecb(b, key, text[..i])
    {
      ghost var was := buffer[..];
      DesCrypt(b, key, text[i..i + 8], buffer, i);
      EcbNext(b, key, text[..i], text[i..i + 8]);
      assert text[..i] + text[i..i + 8] == text[..i + 8];
      assert buffer[..i + 8] == buffer[..][..i + 8] == was[..i] + Block(b, key, text[i..i + 8]);
      i := i + 8;
    }
    assert text[..i] == text && buffer[..i] == buffer[..];
    ghost var plain := buffer[..];
    var padding, j := 1, |text| - 1;
    while |text| - 8 <= j && buffer[j] == 0
      invariant |text| - 9 <= j <= |text| - 1 && padding == |text| - j
      invariant forall l :: j < l < |text| ==> plain[l] == 0
    {
      padding := padding + 1;
      j := j - 1;
    }
    if j < |text| - 8 {
      NoPadding(plain);
      if |text| == 8 {
        assert plain == Zeros(8);
        return OutsideBuffer;
      }
      return InvalidText;
    }
    if buffer[j] != 0x80 {
      OtherPadding(plain, j);
      return InvalidText;
    }
    FoundPadding(plain, j);
    return Text(buffer[..|text| - padding]);
  }

  /** The one text that decrypts to nothing but a block of zeros. */
  lemma ZeroCode(b: Boxes, sk: seq<Word>, text: seq<Byte>)
    requires |sk| == 32
    ensures |text| % 8 == 0 && text != [] && Ecb(b, Reversed(sk), text) == Zeros(8) <==> text == Block(b, sk, Zeros(8))
  {
    hide Block;
    if |text| == 8 {
      assert [] + text == text;
      EcbEmpty(b, Reversed(sk));
      EcbNext(b, Reversed(sk), [], text);
      hide *;
      assert Ecb(b, Reversed(sk), text) == Block(b, Reversed(sk), text);
      BlockInverted(b, sk, text);
      BlockInverts(b, sk, Zeros(8));
    }
  }

  /** That text for an encoder: it leaves the buffer of the decoder. */
  method ZeroBlock(b: Boxes, sk: seq<Word>) returns (text: seq<Byte>, r: Decoded)
    requires |sk| == 32
    ensures |text| == 8 && r == OutsideBuffer
  {
    text := Block(b, sk, Zeros(8));
    r := Decode(b, sk, text);
  }

  lemma NoPadding(plain: seq<Byte>)
    requires |plain| % 8 == 0 && plain != [] && forall l :: |plain| - 8 <= l < |plain| ==> plain[l] == 0
    ensures forall t :: plain != Padded(t)
  {
    forall t ensures plain != Padded(t) { assert Padded(t)[|t|] == 0x80; }
  }

  /** Where the 0x80 of a padded text is. */
  lemma PaddedShape(t: seq<Byte>)
    ensures var p := Padded(t);
            && |p| - 8 <= |t| < |p| && |p| % 8 == 0 && p[|t|] == 0x80 && (forall l :: |t| < l < |p| ==> p[l] == 0)
            && p[..|t|] == t
  {
  }

  lemma OtherPadding(plain: seq<Byte>, j: nat)
    requires |plain| % 8 == 0 && |plain| - 8 <= j < |plain| && plain[j] != 0 && plain[j] != 0x80
    requires forall l :: j < l < |plain| ==> plain[l] == 0
    ensures forall t :: plain != Padded(t)
    ensures plain != Zeros(8)
  {
    forall t ensures plain != Padded(t) { PaddedShape(t); }
  }

  lemma FoundPadding(plain: seq<Byte>, j: nat)
    requires |plain| % 8 == 0 && |plain| - 8 <= j < |plain| && plain[j] == 0x80
    requires forall l :: j < l < |plain| ==> plain[l] == 0
    ensures forall t :: plain[..j] == t <==> plain == Padded(t)
    ensures plain != Zeros(8)
  {
    assert plain == Padded(plain[..j]);
    forall t | plain == Padded(t) ensures plain[..j] == t { PaddedShape(t); }
  }

  /** Decoding undoes encoding, for every text. */
  method RoundTrip(b: Boxes, sk: seq<Word>, text: seq<Byte>) returns (r: Decoded)
    requires |sk| == 32
    ensures r == Text(text)
  {
    hide *;
    var code := Encode(b, sk, text);
    EcbInverts(b, sk, Padded(text));
    r := Decode(b, sk, code);
  }
}
