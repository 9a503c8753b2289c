/** The Data Encryption Standard, FIPS PUB 46-3: one block, for any contents of the selection
    functions. Bits of a word are numbered from 1 at the left; their numbers are words too. */
module DesStandard {

  type Byte = bv8
  type Word = bv32

  /** SB1 to SB8 of the program: what selection function i and the permutation P make of six bits,
      rotated left by one. */
  datatype Boxes = Boxes(sb1: Word -> Word, sb2: Word -> Word, sb3: Word -> Word, sb4: Word -> Word,
                         sb5: Word -> Word, sb6: Word -> Word, sb7: Word -> Word, sb8: Word -> Word)

  datatype Pair = Pair(x: Word, y: Word)

  /** The subkey of one round: the eight groups of six bits, in one byte each. */
  datatype Key = Key(k0: Word, k1: Word)

  function Left(w: Word): Word { (w << 1) | (w >> 31) }
  function Right(w: Word): Word { (w << 31) | (w >> 1) }

  function Xor(v: Word, w: Word): Word { v ^ w }

  function Xor4(v: Word, w: Word, y: Word, z: Word): Word { Xor(Xor(v, w), Xor(y, z)) }

  function Bit(w: Word, n: Word): (r: Word)
    requires 1 <= n <= 32
  {
    (w >> (32 - n)) & 1
  }

  function BlockBit(p: Pair, n: Word): (r: Word)
    requires 1 <= n <= 64
  {
    if n <= 32 then Bit(p.x, n) else Bit(p.y, n - 32)
  }

  /** The table of the initial permutation: eight rows of eight, which begin with 58, 60, 62, 64, 57, 59,
      61 and 63; each entry is 8 less than the one on its left. */
  function Ip(n: Word): (m: Word)
    requires 1 <= n <= 64
    ensures 1 <= m <= 64
  {
    var row, column := (n - 1) >> 3, (n - 1) & 7;
    (if row < 4 then 58 + 2 * row else 49 + 2 * row) - 8 * column
  }

  /** `q` is the block `p` after the initial permutation, and `p` is `q` after its inverse. */
  ghost predicate Permuted(p: Pair, q: Pair) {
    forall n: Word {:trigger BlockBit(q, n)} :: 1 <= n <= 64 ==> BlockBit(q, n) == BlockBit(p, Ip(n))
  }

  /** The number of a bit, around the ends of a half. */
  function Around(n: Word): (m: Word)
    requires n <= 33
    ensures 1 <= m <= 32
  {
    if n == 0 then 32 else if n == 33 then 1 else n
  }

  /** The six bits of the half that selection function i gets: 4i - 4 to 4i + 1. */
  function Expanded(r: Word, i: Word): (v: Word)
    requires 1 <= i <= 8
    ensures v < 64
  {
    (Bit(r, Around(4 * i - 4)) << 5) | (Bit(r, 4 * i - 3) << 4) | (Bit(r, 4 * i - 2) << 3)
    | (Bit(r, 4 * i - 1) << 2) | (Bit(r, 4 * i) << 1) | Bit(r, Around(4 * i + 1))
  }

  /** The six bits of the subkey for selection function i. */
  function KeyGroup(k: Key, i: Word): (v: Word)
    requires 1 <= i <= 8
  {
    ((if i & 1 == 1 then k.k1 else k.k0) >> (24 - 8 * ((i - 1) >> 1))) & 0x3F
  }

  function Box(b: Boxes, i: Word): Word -> Word
    requires 1 <= i <= 8
  {
    if i == 1 then b.sb1 else if i == 2 then b.sb2 else if i == 3 then b.sb3 else if i == 4 then b.sb4
    else if i == 5 then b.sb5 else if i == 6 then b.sb6 else if i == 7 then b.sb7 else b.sb8
  }

  /** What selection function i makes of its six bits. */
  function Selected(b: Boxes, r: Word, k: Key, i: Word): Word
    requires 1 <= i <= 8
  {
    Right(Box(b, i)(Xor(Expanded(r, i), KeyGroup(k, i))))
  }

  /** f(R, K) */
  function F(b: Boxes, r: Word, k: Key): Word {
    Xor4(Xor(Selected(b, r, k, 1), Selected(b, r, k, 2)), Xor(Selected(b, r, k, 3), Selected(b, r, k, 4)),
         Xor(Selected(b, r, k, 5), Selected(b, r, k, 6)), Xor(Selected(b, r, k, 7), Selected(b, r, k, 8)))
  }

  /** Rounds on the halves L and R: L' = R, and R' = L xor f(R, K). */
  function Ciphered(b: Boxes, ks: seq<Key>, p: Pair): Pair {
    if ks == [] then p
    else
      var q := Ciphered(b, ks[..|ks| - 1], p);
      Pair(q.y, Xor(q.x, F(b, q.y, ks[|ks| - 1])))
  }

  /** `output` is `input` enciphered: the initial permutation, the rounds, and the inverse of the
      permutation on the halves in the order R L. */
  ghost predicate Enciphers(b: Boxes, ks: seq<Key>, input: Pair, output: Pair) {
    exists p :: Permuted(input, p) && var q := Ciphered(b, ks, p); Permuted(output, Pair(q.y, q.x))
  }

  /** Bits n + 1 to n + 8 of the block are those of the byte. */
  ghost predicate HasByte(p: Pair, n: Word, c: Byte)
    requires n <= 56
  {
    forall m: Word {:trigger BlockBit(p, m)} :: n < m <= n + 8 ==> BlockBit(p, m) == ((c as Word) >> (n + 8 - m)) & 1
  }

  /** Eight bytes as a block, the first byte on the left. */
  ghost predicate IsBlock(s: seq<Byte>, p: Pair)
    requires |s| == 8
  {
    && HasByte(p, 0, s[0]) && HasByte(p, 8, s[1]) && HasByte(p, 16, s[2]) && HasByte(p, 24, s[3])
    && HasByte(p, 32, s[4]) && HasByte(p, 40, s[5]) && HasByte(p, 48, s[6]) && HasByte(p, 56, s[7])
  }

  ghost predicate EnciphersBytes(b: Boxes, ks: seq<Key>, input: seq<Byte>, output: seq<Byte>) {
    && |input| == 8 && |output| == 8
    && exists p, q :: IsBlock(input, p) && IsBlock(output, q) && Enciphers(b, ks, p, q)
  }
}
