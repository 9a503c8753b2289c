/** The hierarchical timing wheel of skynet_timer.c: where a node is kept, and why one
    list is enough to cascade at each tick. */
module TimerWheel {
  import opened Arith

  const WRAP := 0x1_0000_0000      // the clock has 32 bits
  const HORIZON := 0x8000_0000     // delays are positive ints
  const TIME_NEAR := 256
  const TIME_LEVEL := 64

  datatype Event = Event(handle: nat, session: int)
  datatype Node = Node(event: Event, expire: nat)

  /** A request as the caller made it: `due` counts all ticks, without wrapping. */
  datatype Timeout = Timeout(event: Event, due: nat)

  /** The lists of the wheel: `near`, and the rows of `t` one after the other. */
  datatype Wheel = Wheel(near: seq<seq<Node>>, t: seq<seq<Node>>) {
    predicate Valid() { |near| == TIME_NEAR && |t| == 4 * TIME_LEVEL }

    /** Lists are numbered: the near ones first, then level by level. */
    function List(p: nat): seq<Node>
      requires Valid() && p < TIME_NEAR + 4 * TIME_LEVEL
    {
      if p < TIME_NEAR then near[p] else t[p - TIME_NEAR]
    }
  }

  const PLACES := TIME_NEAR + 4 * TIME_LEVEL

  /** The ticks that one slot of level `i` covers, for i = 4 the whole clock. */
  function Width(i: nat): (w: nat)
    requires i <= 4
    ensures w > 0
  {
    if i == 0 then 0x100 else if i == 1 then 0x4000 else if i == 2 then 0x10_0000
    else if i == 3 then 0x400_0000 else WRAP
  }

  /** Clock values without the digits below level `i`, and the digit at level `i`. */
  function Block(x: nat, i: nat): nat
    requires i <= 4
  {
    x / Width(i)
  }

  function Slot(x: nat, i: nat): (s: nat)
    requires i <= 3
    ensures s < TIME_LEVEL
  {
    Block(x, i) % TIME_LEVEL
  }

  /** The list that `add_node` chooses for a node at clock value `time`. */
  function PlaceOf(e: nat, time: nat): (p: nat)
    ensures p < PLACES
  {
    if Block(e, 0) == Block(time, 0) then e % TIME_NEAR
    else if Block(e, 1) == Block(time, 1) then TIME_NEAR + Slot(e, 0)
    else if Block(e, 2) == Block(time, 2) then TIME_NEAR + TIME_LEVEL + Slot(e, 1)
    else if Block(e, 3) == Block(time, 3) then TIME_NEAR + 2 * TIME_LEVEL + Slot(e, 2)
    else TIME_NEAR + 3 * TIME_LEVEL + Slot(e, 3)
  }

  /** The one list that is redistributed when the clock reaches `ct`; none if PLACES. */
  function CascadeOf(ct: nat): nat {
    if ct == 0 then TIME_NEAR + 3 * TIME_LEVEL
    else if ct % Width(0) != 0 then PLACES
    else if ct % Width(1) != 0 then TIME_NEAR + Slot(ct, 0)
    else if ct % Width(2) != 0 then TIME_NEAR + TIME_LEVEL + Slot(ct, 1)
    else if ct % Width(3) != 0 then TIME_NEAR + 2 * TIME_LEVEL + Slot(ct, 2)
    else TIME_NEAR + 3 * TIME_LEVEL + Slot(ct, 3)
  }

  function Tick(time: nat): nat { (time + 1) % WRAP }

  /** How many ticks before a node with this expiry is due. */
  function Left(e: nat, time: nat): int { (e - time) % WRAP }

  /** Two clock values agree from level `i` up when they agree above it and in its digit. */
  lemma Digits(e: nat, f: nat, i: nat)
    requires i <= 3 && e < WRAP && f < WRAP
    ensures Block(e, i) == Block(f, i) <==> Block(e, i + 1) == Block(f, i + 1) && Slot(e, i) == Slot(f, i)
  {
    SplitDigit(e, i);
    SplitDigit(f, i);
  }

  lemma SplitDigit(x: nat, i: nat)
    requires i <= 3 && x < WRAP
    ensures Block(x, i) == TIME_LEVEL * Block(x, i + 1) + Slot(x, i)
  {
    DivDiv(x, Width(i), Width(i + 1));
  }

  lemma DivDiv(x: nat, v: nat, w: nat)
    requires v > 0 && w == TIME_LEVEL * v
    ensures x / v / TIME_LEVEL == x / w
  {
    var q, r := x / v, x % v;
    var p, d := q / TIME_LEVEL, q % TIME_LEVEL;
    DigitSplit(x, v, q, r, p, d);
    Quotient(x, w, p, v * d + r);
  }

  lemma DigitSplit(x: nat, v: nat, q: nat, r: nat, p: nat, d: nat)
    requires x == v * q + r && r < v && q == TIME_LEVEL * p + d && d < TIME_LEVEL
    ensures x == TIME_LEVEL * v * p + (v * d + r) && v * d + r < TIME_LEVEL * v
  {
    Spread(v, p, d);
    Below(v, d);
  }

  lemma Spread(v: nat, p: nat, d: nat)
    ensures v * (TIME_LEVEL * p + d) == TIME_LEVEL * v * p + v * d
  {
  }

  lemma Below(v: nat, d: nat)
    requires d < TIME_LEVEL
    ensures v * d <= TIME_LEVEL * v - v
  {
    assert v * d <= v * (TIME_LEVEL - 1);
  }

  /** A tick changes a block number only when all digits below become zero. */
  lemma SameBlock(time: nat, i: nat)
    requires i <= 3 && (time + 1) % Width(i) != 0
    ensures Block(time + 1, i) == Block(time, i)
  {
  }

  lemma ZerosBelow(ct: nat, i: nat)
    requires i <= 3 && ct % Width(i + 1) == 0
    ensures ct % Width(i) == 0
  {
    var k := ct / Width(i + 1);
    assert ct == Width(i + 1) * k == Width(i) * (TIME_LEVEL * k);
    Quotient(ct, Width(i), TIME_LEVEL * k, 0);
  }

  /** What is left when a block ends lies in a later block. */
  lemma LaterBlock(e: nat, time: nat, i: nat)
    requires e < WRAP && time < WRAP && i <= 3 && 1 <= Left(e, time) < HORIZON
    requires (time + 1) % Width(i) == 0
    ensures Block(e, i) != Block(time, i)
  {
    if Block(e, i) == Block(time, i) {
      LastOfBlock(e, time, Width(i));
      Backwards(e, time);
    }
  }

  lemma LastOfBlock(e: nat, time: nat, w: nat)
    requires w > 0 && (time + 1) % w == 0 && e / w == time / w
    ensures e <= time < e + w
  {
    var k := (time + 1) / w;
    assert time + 1 == w * k && k > 0;
    assert time == w * (k - 1) + (w - 1);
    Quotient(time, w, k - 1, w - 1);
    assert e == w * (k - 1) + e % w;
  }

  lemma Backwards(e: nat, time: nat)
    requires e <= time < e + HORIZON && time < WRAP
    ensures Left(e, time) == 0 || Left(e, time) > HORIZON
  {
  }

  /** The next tick moves no node but those of the cascaded list. */
  lemma OneCascadeIsEnough(e: nat, time: nat)
    requires e < WRAP && time < WRAP && 1 <= Left(e, time) < HORIZON
    requires PlaceOf(e, time) != CascadeOf(Tick(time))
    ensures PlaceOf(e, Tick(time)) == PlaceOf(e, time)
  {
    TickCases(time);
    hide Tick;
    if time + 1 == WRAP { WrapCase(e, time); } else { CarryCase(e, time); }
  }

  lemma TickCases(time: nat)
    requires time < WRAP
    ensures Tick(time) == if time + 1 == WRAP then 0 else time + 1
  {
  }

  lemma WrapCase(e: nat, time: nat)
    requires e < WRAP && time + 1 == WRAP && 1 <= Left(e, time) < HORIZON && PlaceOf(e, time) != CascadeOf(0)
    ensures PlaceOf(e, 0) == PlaceOf(e, time)
  {
    LaterBlock(e, time, 3);
    Digits(e, time, 0); Digits(e, time, 1); Digits(e, time, 2);
    Digits(e, 0, 0); Digits(e, 0, 1); Digits(e, 0, 2); Digits(e, 0, 3);
    assert Slot(0, 3) == 0 && Block(e, 4) == Block(0, 4);
    hide Block;
    hide Slot;
    hide Left;
  }

  lemma CarryCase(e: nat, time: nat)
    requires e < WRAP && time + 1 < WRAP && 1 <= Left(e, time) < HORIZON
    requires PlaceOf(e, time) != CascadeOf(time + 1)
    ensures PlaceOf(e, time + 1) == PlaceOf(e, time)
  {
    var ct := time + 1;
    Digits(e, ct, 0); Digits(e, ct, 1); Digits(e, ct, 2); Digits(e, ct, 3);
    Digits(e, time, 0); Digits(e, time, 1); Digits(e, time, 2); Digits(e, time, 3);
    assert Block(e, 4) == Block(ct, 4) == Block(time, 4);
    if ct % Width(0) == 0 { LaterBlock(e, time, 0); } else { SameBlock(time, 0); }
    if ct % Width(1) == 0 { LaterBlock(e, time, 1); ZerosBelow(ct, 0); } else { SameBlock(time, 1); }
    if ct % Width(2) == 0 { LaterBlock(e, time, 2); ZerosBelow(ct, 1); } else { SameBlock(time, 2); }
    if ct % Width(3) == 0 { LaterBlock(e, time, 3); ZerosBelow(ct, 2); } else { SameBlock(time, 3); }
    hide Block;
    hide Slot;
    hide Left;
    hide Width;
  }

  /** The near list of the present tick holds nothing but what is due now. */
  lemma DueNowIsNear(e: nat, time: nat)
    requires e < WRAP && time < WRAP
    ensures PlaceOf(e, time) == time % TIME_NEAR <==> e == time
  {
  }
}
