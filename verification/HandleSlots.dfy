/** skynet_handle.c: the table from handles to contexts. */
module HandleSlots {
  import opened Arith
  import opened BigWords
  import opened Wrappers

  type Context(==) = nat

  const HANDLE_MASK := 0xff_ffff
  const REMOTE := 0x100_0000      // 1 << HANDLE_REMOTE_SHIFT
  const DEFAULT_SLOT_SIZE := 4

  /** A context and its own record of its handle. */
  datatype Entry = Entry(handle: nat, ctx: Context)

  /** What becomes of a registration: a handle, or a use of an empty slot as a context, or the
      assertion that the table can grow. */
  datatype Outcome = Handle(handle: nat) | NullContext | TooMany

  /** handle & (slot_size - 1), for a power of two. */
  function Hash(h: nat, size: nat): (i: nat)
    requires size > 0
    ensures i < size
  {
    h % size
  }

  /** The counter starts again at 1, since 0 is reserved. */
  function Wrapped(h: nat): nat { if h > HANDLE_MASK then 1 else h }

  /** Every context sits at its handle modulo the size. */
  ghost predicate Placed(s: seq<Option<Entry>>, harbor: nat) {
    && |s| > 0
    && forall i {:trigger s[i]} :: 0 <= i < |s| && s[i].Some? ==>
         var h := s[i].value.handle;
         Hash(h, |s|) == i && h / REMOTE == harbor && 0 < h % REMOTE
  }

  /** One handle more, which nothing had, and everything else as it was. */
  ghost predicate Adds(s: seq<Option<Entry>>, t: seq<Option<Entry>>, handle: nat, ctx: Context) {
    && (forall c: Context :: !Registered(s, handle, c))
    && forall h: nat, c: Context :: Registered(t, h, c) <==> Registered(s, h, c) || (h == handle && c == ctx)
  }

  ghost predicate SameHandles(s: seq<Option<Entry>>, t: seq<Option<Entry>>) {
    forall h: nat, c: Context :: Registered(t, h, c) <==> Registered(s, h, c)
  }

  lemma AddsAfter(r: seq<Option<Entry>>, s: seq<Option<Entry>>, t: seq<Option<Entry>>, handle: nat, ctx: Context)
    requires SameHandles(r, s) && Adds(s, t, handle, ctx)
    ensures Adds(r, t, handle, ctx)
  {
    hide Registered;
  }

  lemma SameAsItself(s: seq<Option<Entry>>)
    ensures SameHandles(s, s)
  {
  }

  // The numbers that a search tries

  /** What the search tries after k steps: the numbers from 1 to HANDLE_MASK in a circle. */
  function Candidate(index: nat, k: nat): (low: nat)
    requires index > 0
    ensures 0 < low <= HANDLE_MASK
  {
    1 + (index - 1 + k) % HANDLE_MASK
  }

  /** The slot of that number. */
  function Probe(index: nat, k: nat, size: nat): (i: nat)
    requires index > 0 && size > 0
    ensures i < size
  {
    Hash(Candidate(index, k), size)
  }

  /** The search passes the end of the numbers without trying slot 0. */
  predicate Skips(index: nat, size: nat) { index + size > REMOTE && (index < REMOTE || size == REMOTE) }

  /** The number that the search finds. */
  ghost predicate FirstFree(s: seq<Option<Entry>>, index: nat, low: nat)
    requires index > 0
  {
    exists k {:trigger Candidate(index, k)} :: 0 <= k < |s| && low == Candidate(index, k) &&
      s[Probe(index, k, |s|)] == None &&
      forall j :: 0 <= j < k ==> s[Probe(index, j, |s|)].Some?
  }

  /** Slot 0 is the only free one, and the search does not try it. */
  ghost predicate Stuck(s: seq<Option<Entry>>, index: nat) {
    |s| > 0 && s[0] == None && (forall i {:trigger s[i]} :: 0 < i < |s| ==> s[i].Some?) && Skips(index, |s|)
  }

  lemma NextCandidate(index: nat, k: nat)
    requires index > 0
    ensures Wrapped(Candidate(index, k) + 1) == Candidate(index, k + 1)
  {
    var x := index - 1 + k;
    var q, r := x / HANDLE_MASK, x % HANDLE_MASK;
    if r + 1 < HANDLE_MASK {
      Quotient(x + 1, HANDLE_MASK, q, r + 1);
    } else {
      Quotient(x + 1, HANDLE_MASK, q + 1, 0);
    }
  }

  lemma FirstCandidate(index: nat)
    requires 0 < index <= REMOTE
    ensures Wrapped(index) == Candidate(index, 0)
  {
  }

  /** Up to the last number they count up, and then from 1 again. */
  lemma Candidates(index: nat, k: nat)
    requires 0 < index <= REMOTE && k < REMOTE
    ensures index + k < REMOTE ==> Candidate(index, k) == index + k
    ensures REMOTE <= index + k && index + k - REMOTE < HANDLE_MASK ==> Candidate(index, k) == index + k - REMOTE + 1
    ensures index + k - REMOTE == HANDLE_MASK ==> Candidate(index, k) == 1
  {
  }

  /** A search that fails has tried every slot, but for slot 0 when it skips it. */
  lemma Visits(index: nat, bits: nat, i: nat) returns (k: nat)
    requires 0 < index <= REMOTE && bits <= 24
    requires i < Exp(2, bits) && (i == 0 ==> !Skips(index, Exp(2, bits)))
    ensures Exp(2, bits) > 0 && k < Exp(2, bits) && Probe(index, k, Exp(2, bits)) == i
  {
    PowerDivides(bits);
    var size := Exp(2, bits);
    var q := REMOTE / size;
    assert REMOTE == size * q;
    hide Exp;
    hide Candidate;
    SizeBound(bits);
    if index + size <= REMOTE {
      k := Consecutive(index, size, i);
      Candidates(index, k);
    } else if i == 0 {
      k := size - 1;
      Candidates(index, k);
      Quotient(size, size, 1, 0);
    } else if i <= index + size - REMOTE {
      k := REMOTE - index + i - 1;
      Candidates(index, k);
      Quotient(i, size, 0, i);
    } else {
      k := REMOTE - index - size + i;
      Candidates(index, k);
      assert size * q - size == size * (q - 1);
      Quotient(index + k, size, q - 1, i);
    }
  }

  lemma SizeBound(bits: nat)
    requires bits <= 24
    ensures 0 < Exp(2, bits) <= REMOTE && (bits < 24 ==> 2 * Exp(2, bits) <= REMOTE) &&
              (Exp(2, bits) == REMOTE <==> bits == 24)
  {
    ExpPos(2, bits);
    Largest();
    ExpMono(2, bits, 24);
    if bits < 24 { ExpMono(2, bits + 1, 24); }
  }

  lemma Largest()
    ensures Exp(2, 24) == REMOTE
  {
    assert Exp(2, 8) == 0x100;
    ExpAdd(2, 8, 8);
    ExpAdd(2, 8, 16);
  }

  /** A search that skips slot 0 does not try it. */
  lemma Skipped(index: nat, bits: nat, k: nat)
    requires 0 < index <= REMOTE && bits <= 24 && Skips(index, Exp(2, bits)) && k < Exp(2, bits)
    ensures Probe(index, k, Exp(2, bits)) != 0
  {
    PowerDivides(bits);
    var size := Exp(2, bits);
    var q := REMOTE / size;
    assert REMOTE == size * q;
    SizeBound(bits);
    Candidates(index, k);
    hide Exp;
    hide Candidate;
    if index + k < REMOTE {
      assert size * q - size == size * (q - 1);
      Quotient(index + k, size, q - 1, index + k - (REMOTE - size));
    } else if index + k - REMOTE < HANDLE_MASK {
      Quotient(index + k - REMOTE + 1, size, 0, index + k - REMOTE + 1);
    } else {
      Quotient(1, size, 0, 1);
    }
  }

  ghost predicate Registered(s: seq<Option<Entry>>, h: nat, c: Context) {
    exists i :: 0 <= i < |s| && s[i] == Some(Entry(h, c))
  }

  /** The low bits of a handle do not depend on the harbor. */
  lemma LowBits(harbor: nat, low: nat, size: nat)
    requires size > 0 && REMOTE % size == 0
    ensures Hash(harbor * REMOTE + low, size) == Hash(low, size)
  {
    var q := REMOTE / size;
    assert REMOTE == size * q;
    var r, d := low % size, low / size;
    assert low == size * d + r;
    assert harbor * REMOTE == size * (harbor * q) by {
      MulAssoc(harbor, size, q);
      MulAssoc(size, harbor, q);
      Commute(harbor, size);
    }
    assert size * (harbor * q) + size * d == size * (harbor * q + d);
    Quotient(harbor * REMOTE + low, size, harbor * q + d, r);
  }

  /** A handle's parts. */
  lemma Parts(harbor: nat, low: nat)
    requires low < REMOTE
    ensures (harbor * REMOTE + low) / REMOTE == harbor && (harbor * REMOTE + low) % REMOTE == low
  {
  }

  /** Any `size` consecutive numbers visit every slot. */
  lemma Consecutive(from: nat, size: nat, i: nat) returns (t: nat)
    requires i < size
    ensures t < size && Hash(from + t, size) == i
  {
    var r, d := from % size, from / size;
    assert from == size * d + r;
    if r <= i {
      t := i - r;
      Quotient(from + t, size, d, i);
    } else {
      t := size + i - r;
      assert size * d + size == size * (d + 1);
      Quotient(from + t, size, d + 1, i);
    }
  }

  /** Numbers that differ modulo `size` differ modulo 2 * `size`; the double residue is one of two. */
  lemma DoubleResidue(h: nat, size: nat)
    requires size > 0
    ensures h % (2 * size) == h % size || h % (2 * size) == h % size + size
  {
    var q, r := h / size, h % size;
    assert h == size * q + r;
    if q % 2 == 0 {
      assert size * q == 2 * size * (q / 2) by { assert q == 2 * (q / 2); MulAssoc(size, 2, q / 2); }
      Quotient(h, 2 * size, q / 2, r);
    } else {
      assert size * q == 2 * size * (q / 2) + size by { assert q == 2 * (q / 2) + 1; MulAssoc(size, 2, q / 2); }
      Quotient(h, 2 * size, q / 2, r + size);
    }
  }

  lemma ProbeIs(index: nat, k: nat, size: nat)
    requires index > 0 && size > 0
    ensures Probe(index, k, size) == Hash(Candidate(index, k), size) && Candidate(index, k) <= HANDLE_MASK
    ensures Wrapped(Candidate(index, k)) == Candidate(index, k)
  {
  }

  lemma Found(s: seq<Option<Entry>>, index: nat, bits: nat, k: nat)
    requires 0 < index <= REMOTE && bits <= 24 && |s| == Exp(2, bits) && k < |s| && s[Probe(index, k, |s|)] == None
    requires forall j {:trigger Probe(index, j, |s|)} :: 0 <= j < k ==> s[Probe(index, j, |s|)].Some?
    ensures FirstFree(s, index, Candidate(index, k)) && !Stuck(s, index)
    ensures None in s
  {
    hide Exp;
    hide Probe;
    hide Candidate;
    var i := Probe(index, k, |s|);
    assert s[i] == None;
    if Skips(index, |s|) { Skipped(index, bits, k); }
  }

  lemma FreeSlot(s: seq<Option<Entry>>, index: nat, low: nat)
    requires 0 < index && FirstFree(s, index, low)
    ensures |s| > 0 && 0 < low <= HANDLE_MASK && Hash(low, |s|) < |s| && s[Hash(low, |s|)] == None && None in s
  {
  }

  /** Until the counter wraps, what is found is ahead of everything before. */
  lemma Ahead(s: seq<Option<Entry>>, index: nat, low: nat)
    requires 0 < index && index + |s| <= REMOTE && FirstFree(s, index, low)
    ensures index <= low < index + |s|
  {
  }

  lemma NotFound(s: seq<Option<Entry>>, index: nat, bits: nat)
    requires 0 < index <= REMOTE && bits <= 24 && |s| == Exp(2, bits) && |s| > 0
    requires forall j {:trigger Probe(index, j, |s|)} :: 0 <= j < |s| ==> s[Probe(index, j, |s|)].Some?
    ensures Stuck(s, index) || None !in s
  {
    hide Exp;
    hide Probe;
    hide Skips;
    forall i {:trigger s[i]} | 0 <= i < |s| && (i == 0 ==> !Skips(index, |s|)) ensures s[i].Some? {
      var k := Visits(index, bits, i);
    }
  }

  class HandleStorage {
    const harbor: nat
    var handleIndex: nat
    var slot: array<Option<Entry>>
    ghost var bits: nat            // slot_size == 1 << bits

    ghost predicate Valid()
      reads this, slot
    {
      && 2 <= bits <= 24 && slot.Length == Exp(2, bits) && slot.Length > 0
      && 0 < handleIndex <= REMOTE
      && Placed(slot[..], harbor)
    }

    ghost predicate Has(h: nat, c: Context)
      reads this, slot
    {
      Registered(slot[..], h, c)
    }

    constructor (harbor: nat)
      ensures Valid() && (forall h: nat, c: Context :: !Has(h, c)) && handleIndex == 1 && fresh(slot)
      ensures slot[..] == [None, None, None, None] && this.harbor == harbor
    {
      this.harbor := harbor;
      handleIndex := 1;
      assert Exp(2, 2) == DEFAULT_SLOT_SIZE;
      slot := new Option<Entry>[DEFAULT_SLOT_SIZE](_ => None);
      bits := 2;
    }

    /** The search for a free slot from the counter on. */
    method FindSlot() returns (found: bool, low: nat)
      requires Valid()
      ensures found ==> FirstFree(slot[..], handleIndex, low)
      ensures !found <==> Stuck(slot[..], handleIndex) || None !in slot[..]
    {
      hide Placed;
      assert slot.Length > 0 && 0 < handleIndex <= REMOTE;
      var size := slot.Length;
      ghost var s := slot[..];
      hide *;
      low := handleIndex;
      var i := 0;
      FirstCandidate(handleIndex);
      while i < size
        invariant i <= size && Wrapped(low) == Candidate(handleIndex, i)
        invariant forall j {:trigger Probe(handleIndex, j, size)} :: 0 <= j < i ==> s[Probe(handleIndex, j, size)].Some?
      {
        low := Wrapped(low);
        ProbeIs(handleIndex, i, size);
        if slot[Hash(low, size)] == None {
          Found(s, handleIndex, bits, i);
          return true, low;
        }
        NextCandidate(handleIndex, i);
        i, low := i + 1, low + 1;
      }
      NotFound(s, handleIndex, bits);
      found := false;
    }

    /** Doubles the slots; no two contexts meet in one. */
    method Rehash()
      requires Valid() && bits < 24 && None !in slot[..]
      modifies this`slot, this`bits
      ensures Valid() && fresh(slot) && slot.Length == 2 * old(slot.Length)
      ensures SameHandles(old(slot[..]), slot[..])
      ensures handleIndex == old(handleIndex) && None in slot[..] && !Stuck(slot[..], handleIndex)
    {
      SizeBound(bits);
      assert bits >= 2 && Exp(2, bits) >= 4;
      hide Hash;
      hide Placed;
      var size := slot.Length;
      ghost var s := slot[..];
      var newSlot := new Option<Entry>[2 * size](_ => None);
      assert Spread(s, newSlot[..], 0);
      hide Spread;
      var i := 0;
      while i < size
        invariant i <= size && Spread(s, newSlot[..], i)
        modifies newSlot
      {
        assert s[i] == slot[i];
        SpreadNext(s, newSlot[..], i, harbor);
        var h := slot[i].value.handle;
        HashBound(h, 2 * size);
        var j := Hash(h, 2 * size);
        assert newSlot[..][j] == None;
        ghost var next := newSlot[..][j := slot[i]];
        newSlot[j] := slot[i];
        assert newSlot[..] == next;
        i := i + 1;
      }
      SpreadAll(s, newSlot[..], harbor);
      slot := newSlot;
      bits := bits + 1;
    }

    /** skynet_handle_register, and the caller's assignment to ctx->handle. It faults exactly
        when slot 0 is the only free one and the search skips it. */
    method Register(ctx: Context) returns (r: Outcome)
      requires Valid()
      modifies this, slot
      ensures Valid()
      ensures r.Handle? <==> !old(Stuck(slot[..], handleIndex))
      ensures r == TooMany <==> old(Stuck(slot[..], handleIndex)) && old(slot.Length) == REMOTE
      ensures r.Handle? ==>
                && r.handle % REMOTE != 0 && r.handle / REMOTE == harbor && handleIndex == r.handle % REMOTE + 1
                && Adds(old(slot[..]), slot[..], r.handle, ctx)
      ensures r.Handle? && old(handleIndex) + slot.Length <= REMOTE ==> r.handle % REMOTE >= old(handleIndex)
      ensures r.Handle? && None in old(slot[..]) ==>
                && slot == old(slot) && FirstFree(old(slot[..]), old(handleIndex), r.handle % REMOTE)
                && slot[..] == old(slot[..])[Hash(r.handle, slot.Length) := Some(Entry(r.handle, ctx))]
      ensures r.Handle? && None !in old(slot[..]) ==> slot.Length == 2 * old(slot.Length)
    {
      hide *;
      Facts();
      ghost var s := slot[..];
      SameAsItself(s);
      var found, low := FindSlot();
      if !found {
        var fault := Grow();
        if fault.Some? { return fault.value; }
        Facts();
        found, low := FindSlot();
      }
      ghost var t := slot[..];
      FreeSlot(t, handleIndex, low);
      if handleIndex + |t| <= REMOTE { Ahead(t, handleIndex, low); }
      assert t[Hash(low, |t|)] == slot[Hash(low, |t|)];
      var handle := PlaceAt(low, ctx);
      AddsAfter(s, t, slot[..], handle, ctx);
      r := Handle(handle);
    }

    lemma Facts()
      requires Valid()
      ensures slot.Length > 0 && 0 < handleIndex <= REMOTE
    {
    }

    /** What follows a search that failed: the check of the size, and the rehash, which takes
        every slot to hold a context. */
    method Grow() returns (fault: Option<Outcome>)
      requires Valid()
      requires Stuck(slot[..], handleIndex) || None !in slot[..]
      modifies this`slot, this`bits
      ensures Valid() && handleIndex == old(handleIndex)
      ensures fault.Some? <==> old(Stuck(slot[..], handleIndex))
      ensures fault.Some? ==> fault.value == if old(slot.Length) == REMOTE then TooMany else NullContext
      ensures fault.None? ==>
                && None in slot[..] && !Stuck(slot[..], handleIndex) && fresh(slot) &&
                     slot.Length == 2 * old(slot.Length)
                && SameHandles(old(slot[..]), slot[..])
    {
      SizeBound(bits);
      if 2 * slot.Length - 1 > HANDLE_MASK {
        if None !in slot[..] { SomeFree(slot[..], harbor, bits); }
        return Some(TooMany);
      }
      if slot[0] == None { return Some(NullContext); }
      hide Exp;
      hide Placed;
      Rehash();
      fault := None;
    }

    /** The context goes into the free slot of `low`. */
    method PlaceAt(low: nat, ctx: Context) returns (handle: nat)
      requires Valid() && 0 < low <= HANDLE_MASK && slot[Hash(low, slot.Length)] == None
      modifies this`handleIndex, slot
      ensures Valid() && handle % REMOTE == low && handle / REMOTE == harbor && handleIndex == low + 1
      ensures Adds(old(slot[..]), slot[..], handle, ctx)
      ensures slot[..] == old(slot[..])[Hash(handle, slot.Length) := Some(Entry(handle, ctx))]
    {
      handle := harbor * REMOTE + low;
      ghost var s := slot[..];
      HashBound(low, slot.Length);
      var i := Hash(low, slot.Length);
      assert s[i] == None;
      PutFresh(s, harbor, bits, low, ctx);
      hide Placed;
      hide Registered;
      ghost var next := s[i := Some(Entry(handle, ctx))];
      slot[i] := Some(Entry(handle, ctx));
      assert slot[..] == next;
      handleIndex := low + 1;
    }

    /** skynet_handle_grab */
    method Grab(handle: nat) returns (c: Option<Context>)
      requires Valid()
      ensures forall d: Context :: c == Some(d) <==> Has(handle, d)
    {
      var i := Hash(handle, slot.Length);
      AtHash(slot[..], harbor, handle);
      var e := slot[i];
      assert slot[..][i] == e;
      if e.Some? && e.value.handle == handle { return Some(e.value.ctx); }
      return None;
    }

    /** The table's part of skynet_handle_retire: its reference goes to the caller. */
    method Retire(handle: nat) returns (c: Option<Context>)
      requires Valid()
      modifies slot
      ensures Valid()
      ensures forall d: Context :: c == Some(d) <==> old(Has(handle, d))
      ensures forall h: nat, d: Context :: Has(h, d) <==> old(Has(h, d)) && h != handle
      ensures slot[..] == if c.Some? then old(slot[..])[Hash(handle, slot.Length) := None] else old(slot[..])
    {
      c := Grab(handle);
      if c.Some? {
        var i := Hash(handle, slot.Length);
        ghost var s := slot[..];
        TakeEntry(s, harbor, i, handle);
        slot[i] := None;
        assert slot[..] == s[i := None];
      } else {
        forall d: Context ensures !Registered(slot[..], handle, d) { assert !Has(handle, d); }
        NotIn(slot[..], handle);
      }
    }
  }

  // A run into the fault

  /** Four slots, and the contexts of the first registrations. */
  ghost predicate Busy(s: seq<Option<Entry>>, n: nat) {
    |s| == 4 && forall j :: 0 <= j < 4 ==> (s[j].Some? <==> 0 < j < n)
  }

  lemma NotStuck(s: seq<Option<Entry>>, n: nat, index: nat)
    requires Busy(s, n) && 0 < index <= REMOTE - 4
    ensures !Stuck(s, index) && None in s
  {
    assert s[0] == None;
  }

  lemma Fills(s: seq<Option<Entry>>, n: nat, handle: nat, e: Entry)
    requires Busy(s, n) && 0 < n < 4 && FirstFree(s, n, handle % REMOTE) && handle / REMOTE == 0
    ensures handle == n && Busy(s[Hash(handle, 4) := Some(e)], n + 1)
  {
    assert Candidate(n, 0) == n;
    assert s[Probe(n, 0, 4)] == None;
  }

  lemma ComesAndGoes(s: seq<Option<Entry>>, index: nat, handle: nat, e: Entry)
    requires Busy(s, 4) && 4 <= index <= REMOTE - 4 && (index == 4 || index % 4 == 1)
    requires FirstFree(s, index, handle % REMOTE) && handle / REMOTE == 0
    ensures handle % 4 == 0 && index <= handle < REMOTE - 3 && Hash(handle, 4) == 0
    ensures s[0 := Some(e)][0 := None] == s && (handle + 1) % 4 == 1
  {
    Ahead(s, index, handle % REMOTE);
  }

  lemma AtTheEnd(s: seq<Option<Entry>>)
    requires Busy(s, 4)
    ensures Stuck(s, REMOTE - 3)
  {
  }

  lemma Present(h: HandleStorage, s: seq<Option<Entry>>, handle: nat, ctx: Context)
    requires Adds(s, h.slot[..], handle, ctx)
    ensures h.Has(handle, ctx)
  {
  }

  /** Three contexts that stay and a fourth that comes and goes lead to the fault, as soon as
      the counter reaches the last numbers. */
  method WrapFault(ctx: Context) returns (r: Outcome)
    ensures r == NullContext
  {
    var h := new HandleStorage(0);
    assert Busy(h.slot[..], 1);
    hide *;
    for n := 1 to 4
      invariant fresh(h) && fresh(h.slot) && h.Valid() && h.harbor == 0 && h.handleIndex == n && Busy(h.slot[..], n)
    {
      ghost var s := h.slot[..];
      NotStuck(s, n, n);
      r := h.Register(ctx);
      Fills(s, n, r.handle, Entry(r.handle, ctx));
    }
    while h.handleIndex < REMOTE - 3
      invariant fresh(h) && fresh(h.slot) && h.Valid() && h.harbor == 0 && Busy(h.slot[..], 4)
      invariant 4 <= h.handleIndex <= REMOTE - 3 && (h.handleIndex == 4 || h.handleIndex % 4 == 1)
      decreases REMOTE - h.handleIndex
    {
      ghost var s := h.slot[..];
      NotStuck(s, 4, h.handleIndex);
      ghost var index := h.handleIndex;
      r := h.Register(ctx);
      ComesAndGoes(s, index, r.handle, Entry(r.handle, ctx));
      Present(h, s, r.handle, ctx);
      var c := h.Retire(r.handle);
    }
    AtTheEnd(h.slot[..]);
    r := h.Register(ctx);
  }

  /** A handle can only be in its own slot. */
  lemma AtHash(s: seq<Option<Entry>>, harbor: nat, handle: nat)
    requires Placed(s, harbor)
    ensures forall d: Context :: Registered(s, handle, d) <==> s[Hash(handle, |s|)] == Some(Entry(handle, d))
  {
    forall d: Context ensures Registered(s, handle, d) <==> s[Hash(handle, |s|)] == Some(Entry(handle, d)) {
      if Registered(s, handle, d) {
        var i :| 0 <= i < |s| && s[i] == Some(Entry(handle, d));
      }
    }
  }

  lemma NotIn(s: seq<Option<Entry>>, handle: nat)
    requires forall d: Context :: !Registered(s, handle, d)
    ensures forall h: nat, d: Context :: Registered(s, h, d) <==> Registered(s, h, d) && h != handle
  {
  }

  lemma TakeEntry(s: seq<Option<Entry>>, harbor: nat, i: nat, handle: nat)
    requires Placed(s, harbor) && i < |s| && s[i].Some? && s[i].value.handle == handle
    ensures var t := s[i := None];
            Placed(t, harbor) && forall h: nat, d: Context :: Registered(t, h, d) <==>
                Registered(s, h, d) && h != handle
  {
    var t := s[i := None];
    forall h: nat, d: Context ensures Registered(t, h, d) <==> Registered(s, h, d) && h != handle {
      if Registered(t, h, d) {
        var j :| 0 <= j < |t| && t[j] == Some(Entry(h, d));
        assert s[j] == t[j];
      }
      if Registered(s, h, d) && h != handle {
        var j :| 0 <= j < |s| && s[j] == Some(Entry(h, d));
        assert t[j] == s[j];
      }
    }
  }

  lemma PutEntry(s: seq<Option<Entry>>, harbor: nat, i: nat, e: Entry)
    requires Placed(s, harbor) && i < |s| && s[i] == None && 0 < e.handle % REMOTE
    requires Hash(e.handle, |s|) == i && e.handle / REMOTE == harbor
    ensures var t := s[i := Some(e)];
            && Placed(t, harbor)
            && (forall d: Context :: !Registered(s, e.handle, d))
            && forall h: nat, d: Context :: Registered(t, h, d) <==>
                 Registered(s, h, d) || (h == e.handle && d == e.ctx)
  {
    var t := s[i := Some(e)];
    AtHash(s, harbor, e.handle);
    forall h: nat, d: Context ensures Registered(t, h, d) <==> Registered(s, h, d) || (h == e.handle && d == e.ctx) {
      if Registered(t, h, d) {
        var j :| 0 <= j < |t| && t[j] == Some(Entry(h, d));
        if j != i { assert s[j] == t[j]; }
      }
      if Registered(s, h, d) {
        var j :| 0 <= j < |s| && s[j] == Some(Entry(h, d));
        assert t[j] == s[j];
      }
      if h == e.handle && d == e.ctx { assert t[i] == Some(Entry(h, d)); }
    }
  }

  lemma PutFresh(s: seq<Option<Entry>>, harbor: nat, bits: nat, low: nat, ctx: Context)
    requires Placed(s, harbor) && |s| == Exp(2, bits) && bits <= 24 && 0 < low < REMOTE
    requires Hash(low, |s|) < |s| && s[Hash(low, |s|)] == None
    ensures var handle := harbor * REMOTE + low;
            var t := s[Hash(low, |s|) := Some(Entry(handle, ctx))];
            && handle % REMOTE == low && handle / REMOTE == harbor && Hash(handle, |s|) == Hash(low, |s|)
            && Placed(t, harbor)
            && Adds(s, t, handle, ctx)
  {
    PowerDivides(bits);
    LowBits(harbor, low, |s|);
    Parts(harbor, low);
    PutEntry(s, harbor, Hash(low, |s|), Entry(harbor * REMOTE + low, ctx));
    hide Hash;
    hide Registered;
    hide Placed;
    hide Exp;
  }

  lemma PowerDivides(p: nat)
    requires p <= 24
    ensures Exp(2, p) > 0 && REMOTE % Exp(2, p) == 0
  {
    ExpPos(2, p);
    ExpAdd(2, p, 24 - p);
    Largest();
    hide Exp;
    Quotient(REMOTE, Exp(2, p), Exp(2, 24 - p), 0);
  }

  /** The table can not be full at its largest size, because no handle is zero. */
  lemma SomeFree(s: seq<Option<Entry>>, harbor: nat, bits: nat)
    requires Placed(s, harbor) && |s| == Exp(2, bits) && bits <= 24
    requires None !in s
    ensures bits < 24
  {
    assert s[0].Some?;
    Largest();
    hide Exp;
  }

  lemma SpreadAll(s: seq<Option<Entry>>, t: seq<Option<Entry>>, harbor: nat)
    requires Placed(s, harbor) && Spread(s, t, |s|)
    requires None !in s
    ensures Placed(t, harbor)
    ensures forall h: nat, c: Context :: Registered(t, h, c) <==> Registered(s, h, c)
    ensures |s| > 1 ==> exists i {:trigger t[i]} :: 0 < i < |t| && t[i] == None
  {
    forall h: nat, c: Context ensures Registered(t, h, c) <==> Registered(s, h, c) {
      if Registered(s, h, c) {
        var j :| 0 <= j < |s| && s[j] == Some(Entry(h, c));
        HashBound(h, |t|);
        assert t[Hash(h, |t|)] == s[j];
      }
      if Registered(t, h, c) {
        var j :| 0 <= j < |t| && t[j] == Some(Entry(h, c));
        HashBound(h, |s|);
        assert s[Hash(h, |s|)] == t[j];
      }
    }
    if |s| > 1 && t[1].Some? && t[|s| + 1].Some? {
      Half(s, t, 1);
      Half(s, t, |s| + 1);
    }
  }

  /** An entry of the doubled table comes from its slot modulo the old size. */
  lemma Half(s: seq<Option<Entry>>, t: seq<Option<Entry>>, j: nat)
    requires Spread(s, t, |s|) && j < |t| && t[j].Some?
    ensures var k := if j < |s| then j else j - |s|; s[k] == t[j] && Hash(t[j].value.handle, |t|) == j
  {
    DoubleResidue(t[j].value.handle, |s|);
  }

  lemma HashBound(h: nat, size: nat)
    requires size > 0
    ensures Hash(h, size) < size
  {
  }

  /** The first `i` slots of `s` are spread over twice as many. */
  ghost predicate Spread(s: seq<Option<Entry>>, t: seq<Option<Entry>>, i: nat) {
    && |t| == 2 * |s| && i <= |s|
    && (forall j {:trigger s[j]} :: 0 <= j < i && s[j].Some? ==> t[Hash(s[j].value.handle, |t|)] == s[j])
    && (forall j {:trigger t[j]} :: 0 <= j < |t| && t[j].Some? ==>
          var k := Hash(t[j].value.handle, |s|); k < i && s[k] == t[j] && Hash(t[j].value.handle, |t|) == j)
  }

  lemma SpreadNext(s: seq<Option<Entry>>, t: seq<Option<Entry>>, i: nat, harbor: nat)
    requires Placed(s, harbor) && Spread(s, t, i) && i < |s| && s[i].Some?
    ensures var j := Hash(s[i].value.handle, |t|); t[j] == None && Spread(s, t[j := s[i]], i + 1)
  {
    var j := Hash(s[i].value.handle, |t|);
    DoubleResidue(s[i].value.handle, |s|);
    if t[j].Some? {
      DoubleResidue(t[j].value.handle, |s|);
    }
  }
}
