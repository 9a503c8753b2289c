/** lua-sharedata.c: struct table, its conversion from a Lua table, lookup and iteration. */
module SharedTables {
  import opened Chains
  import opened SharedChains
  import opened Wrappers

  ghost function HashSet(ks: seq<Key>, sizearray: nat): set<Key> { set k | k in ks && IsHashKey(k, sizearray) }

  predicate Distinct(ks: seq<Key>) { forall i, j :: 0 <= i < j < |ks| ==> ks[i] != ks[j] }

  lemma HashSetNext(ks: seq<Key>, i: nat, sizearray: nat)
    requires Distinct(ks) && i < |ks|
    ensures var a, b := HashSet(ks[..i], sizearray), HashSet(ks[..i + 1], sizearray);
            if IsHashKey(ks[i], sizearray) then b == a + {ks[i]} && ks[i] !in a && |b| == |a| + 1 else b == a
  {
    var a, b := HashSet(ks[..i], sizearray), HashSet(ks[..i + 1], sizearray);
    forall k ensures k in b <==> k in a || (k == ks[i] && IsHashKey(k, sizearray)) {
      assert k in ks[..i + 1] <==> k in ks[..i] || k == ks[i];
    }
    hide HashSet;
    if IsHashKey(ks[i], sizearray) {
      assert ks[i] !in ks[..i];
      assert b == a + {ks[i]};
    } else {
      assert b == a;
    }
  }

  /** countsize */
  method CountSize(ks: seq<Key>, sizearray: nat) returns (n: nat)
    requires Distinct(ks)
    ensures n == |HashSet(ks, sizearray)|
  {
    n := 0;
    var i := 0;
    assert HashSet(ks[..0], sizearray) == {};
    while i < |ks|
      invariant i <= |ks| && n == |HashSet(ks[..i], sizearray)|
    {
      HashSetNext(ks, i, sizearray);
      n := n + 1;
      if !IsHashKey(ks[i], sizearray) { n := n - 1; }
      i := i + 1;
    }
    assert ks[..i] == ks;
  }

  /** After the first pass over the first `i` keys. */
  ghost predicate First(s: seq<Node>, at: map<Key, nat>, calchash: string -> nat, ks: seq<Key>, i: nat,
                        sizearray: nat)
  {
    && i <= |ks| && |s| > 0
    && (forall k {:trigger k in at} :: k in at ==>
         k in HashSet(ks, sizearray) && at[k] == MainPos(KeyHash(k, calchash), |s|))
    && (forall j {:trigger ks[j]} :: 0 <= j < i && IsHashKey(ks[j], sizearray) ==>
          s[MainPos(KeyHash(ks[j], calchash), |s|)].value.Some?)
    && (forall j {:trigger ks[j]} :: i <= j < |ks| && ks[j] in at ==> false)
  }

  /** After the second pass over the first `i` keys. */
  ghost predicate Second(s: seq<Node>, at: map<Key, nat>, calchash: string -> nat, ks: seq<Key>, i: nat,
                         sizearray: nat)
  {
    && i <= |ks| && |s| > 0
    && (forall k {:trigger k in at} :: k in at ==> k in HashSet(ks, sizearray))
    && (forall j {:trigger ks[j]} :: 0 <= j < i && IsHashKey(ks[j], sizearray) ==> ks[j] in at)
    && (forall j {:trigger ks[j]} :: 0 <= j < |ks| && IsHashKey(ks[j], sizearray) ==>
          s[MainPos(KeyHash(ks[j], calchash), |s|)].value.Some?)
    && (forall j {:trigger ks[j]} :: i <= j < |ks| && ks[j] in at ==>
         at[ks[j]] == MainPos(KeyHash(ks[j], calchash), |s|))
  }

  ghost predicate ArrayHas(a: seq<Option<Value>>, m: map<Key, Value>, ks: seq<Key>, i: nat)
  {
    && |a| < 0x8000_0000 && i <= |ks|
    && forall j {:trigger a[j]} :: 0 <= j < |a| ==>
      a[j] == if IntKey(j + 1) in ks[..i] && IntKey(j + 1) in m then Some(m[IntKey(j + 1)]) else None
  }

  class SharedTable {
    const arr: array<Option<Value>>
    const hash: array<Node>
    const calchash: string -> nat
    ghost var rank: seq<real>
    ghost var at: map<Key, nat>

    /** The table holds exactly `m`. */
    ghost predicate Frozen(m: map<Key, Value>)
      reads this, arr, hash
    {
      FrozenOn(arr[..], hash[..], rank, at, calchash, m)
    }

    /** convtable, for a table whose keys are enumerated as `ks`. */
    constructor (m: map<Key, Value>, ks: seq<Key>, sizearray: nat, calchash: string -> nat)
      requires sizearray < 0x8000_0000
      requires Distinct(ks) && forall k :: k in ks <==> k in m
      ensures Frozen(m) && arr.Length == sizearray
    {
      hide FrozenOn;
      hide Distinct;
      hide HashSet;
      hide Indexed;
      this.calchash := calchash;
      var a := new Option<Value>[sizearray](_ => None);
      var sizehash := CountSize(ks, sizearray);
      var h := new Node[sizehash](_ => EMPTY);
      arr, hash := a, h;
      ghost var r, p: map<Key, nat> := seq(sizehash, _ => 0.0), map[];
      if sizehash > 0 {
        NothingIndexed(h[..], r, calchash, m);
        hide *;
        p := FillNoColliding(a, h, m, ks, calchash, r);
        r, p := FillColliding(h, m, ks, sizearray, calchash, r, p);
        FilledIsFrozen(a[..], h[..], r, p, calchash, m, ks);
      } else {
        FillArray(a, m, ks);
        EmptyIsFrozen(a[..], h[..], r, calchash, m, ks);
      }
      rank, at := r, p;
    }

    /** lookup_key: the slot of a key of the hash part. */
    method LookupKey(k: Key, ghost m: map<Key, Value>) returns (i: Option<nat>)
      requires Frozen(m)
      ensures i == if k in at then Some(at[k]) else None
      ensures i.Some? ==> i.value < hash.Length
    {
      if hash.Length == 0 { return None; }
      FrozenFilled(arr[..], hash[..], rank, at, calchash, m, k);
      hide *;
      i := Walk(hash, rank, at, calchash, m, k);
    }

    /** lindexconf */
    method Index(k: Key, ghost m: map<Key, Value>) returns (v: Option<Value>)
      requires Frozen(m)
      ensures v == if k in m then Some(m[k]) else None
    {
      if !IsHashKey(k, arr.Length) {
        assert arr[..][k.i - 1] == arr[k.i - 1] && IntKey(k.i - 1 + 1) == k;
        return arr[k.i - 1];
      }
      var i := LookupKey(k, m);
      if i.None? { return None; }
      SlotValue(arr[..], hash[..], rank, at, calchash, m, k);
      v := hash[i.value].value;
    }

    /** Where the enumeration goes on after a key; past the end for an unknown one. */
    ghost function After(key: Option<Key>): nat
      reads this, arr, hash
    {
      match key
      case None => 0
      case Some(k) =>
        if !IsHashKey(k, arr.Length) then k.i
        else if k in at then arr.Length + at[k] + 1
        else arr.Length + hash.Length
    }

    /** lnextkey: the next key, the array part before the hash slots. */
    method NextKey(key: Option<Key>, ghost m: map<Key, Value>) returns (next: Option<Key>)
      requires Frozen(m)
      ensures NextFrom(Cells(arr[..], hash[..]), After(key), next)
    {
      hide FrozenOn;
      hide Cells;
      hide NextFrom;
      FrozenSize(arr[..], hash[..], rank, at, calchash, m);
      if key.None? {
        next := ScanArray(0);
      } else if !IsHashKey(key.value, arr.Length) {
        next := ScanArray(key.value.i);
      } else {
        var found := LookupKey(key.value, m);
        HashCells(arr[..], hash[..], if found.None? then hash.Length else found.value + 1);
        next := if found.None? then None else HashFrom(found.value + 1);
      }
    }

    /** The hash slot `j`, or the end. */
    function HashFrom(j: nat): Option<Key>
      reads hash
      requires j <= hash.Length
    {
      if j == hash.Length then None else Some(hash[j].key)
    }

    /** The rest of the array part, and then the first hash slot. */
    method ScanArray(from: nat) returns (next: Option<Key>)
      requires from <= arr.Length < 0x8000_0000
      ensures NextFrom(Cells(arr[..], hash[..]), from, next)
    {
      ghost var cells := Cells(arr[..], hash[..]);
      var i := from;
      while i < arr.Length
        invariant from <= i <= arr.Length && forall p :: from <= p < i ==> cells[p] == None
      {
        assert cells[i] == if arr[i].Some? then Some(IntKey(i + 1)) else None;
        if arr[i].Some? { return Some(IntKey(i + 1)); }
        i := i + 1;
      }
      if hash.Length > 0 { assert cells[arr.Length] == Some(hash[0].key); }
      next := HashFrom(0);
    }

    /** A whole traversal with lnextkey: every key of the table, and each once. */
    method Traverse(ghost m: map<Key, Value>) returns (ks: seq<Key>)
      requires Frozen(m)
      ensures Distinct(ks) && forall k :: k in ks <==> k in m
    {
      FrozenSize(arr[..], hash[..], rank, at, calchash, m);
      ghost var a, s := arr[..], hash[..];
      AfterFirst();
      NoKeys();
      hide *;
      ghost var cells := Cells(a, s);
      ks := [];
      var key: Option<Key> := None;
      assert cells[..0] == [];
      while true
        invariant After(key) <= |cells| && ks == KeysOf(cells[..After(key)])
        decreases |cells| - After(key)
      {
        ghost var from := After(key);
        var next := NextKey(key, m);
        if next.None? {
          KeysEnd(cells, from);
          KeysAll(a, s, rank, at, calchash, m);
          return;
        }
        AfterNext(a, s, rank, at, calchash, m, from, next.value);
        AfterKey(next.value);
        KeysNext(cells, from, next.value, After(next));
        ks := ks + [next.value];
        key := next;
      }
    }

    lemma AfterFirst()
      ensures After(None) == 0
    {
    }

    lemma AfterKey(k: Key)
      requires 0 <= Place(k, at, arr.Length)
      ensures After(Some(k)) == Place(k, at, arr.Length) + 1
    {
    }
  }

  ghost predicate FrozenOn(a: seq<Option<Value>>, s: seq<Node>, rank: seq<real>, at: map<Key, nat>,
                           calchash: string -> nat, m: map<Key, Value>)
  {
    && |a| < 0x8000_0000
    && (forall j {:trigger a[j]} :: 0 <= j < |a| ==>
         a[j] == if IntKey(j + 1) in m then Some(m[IntKey(j + 1)]) else None)
    && (if |s| == 0 then at == map[] else Filled(s, rank, at, calchash, m))
    && (forall k {:trigger k in at} {:trigger k in m} :: k in at <==> k in m && IsHashKey(k, |a|))
  }

  lemma FilledIsFrozen(a: seq<Option<Value>>, s: seq<Node>, rank: seq<real>, at: map<Key, nat>,
                       calchash: string -> nat, m: map<Key, Value>, ks: seq<Key>)
    requires ArrayHas(a, m, ks, |ks|) && (forall k :: k in ks <==> k in m)
    requires |s| > 0 && Filled(s, rank, at, calchash, m) && at.Keys == HashSet(ks, |a|)
    ensures FrozenOn(a, s, rank, at, calchash, m)
  {
    hide Indexed;
    assert ks[..|ks|] == ks;
    forall k {:trigger k in at} {:trigger k in m} ensures k in at <==> k in m && IsHashKey(k, |a|) {
      assert k in at <==> k in HashSet(ks, |a|);
    }
  }

  lemma EmptyIsFrozen(a: seq<Option<Value>>, s: seq<Node>, rank: seq<real>, calchash: string -> nat,
                      m: map<Key, Value>, ks: seq<Key>)
    requires ArrayHas(a, m, ks, |ks|) && (forall k :: k in ks <==> k in m)
    requires |s| == 0 == |HashSet(ks, |a|)|
    ensures FrozenOn(a, s, rank, map[], calchash, m)
  {
    assert ks[..|ks|] == ks;
    assert HashSet(ks, |a|) == {};
    forall k {:trigger k in m} ensures !(k in m && IsHashKey(k, |a|)) {
      assert k !in HashSet(ks, |a|);
    }
  }

  /** All slots are used. */
  ghost predicate Filled(s: seq<Node>, rank: seq<real>, at: map<Key, nat>, calchash: string -> nat,
                         m: map<Key, Value>)
  {
    Indexed(s, rank, at, calchash, m) && forall i {:trigger s[i]} :: 0 <= i < |s| ==> s[i].value.Some?
  }

  method FillArray(a: array<Option<Value>>, m: map<Key, Value>, ks: seq<Key>)
    requires forall k :: k in ks <==> k in m
    requires a.Length < 0x8000_0000 && forall j :: 0 <= j < a.Length ==> a[j] == None
    modifies a
    ensures ArrayHas(a[..], m, ks, |ks|)
  {
    var i := 0;
    while i < a.Length
      invariant i <= a.Length
      invariant forall j :: 0 <= j < i ==> a[j] == if IntKey(j + 1) in m then Some(m[IntKey(j + 1)]) else None
      invariant forall j :: i <= j < a.Length ==> a[j] == None
    {
      a[i] := if IntKey(i + 1) in m then Some(m[IntKey(i + 1)]) else None;
      i := i + 1;
    }
    assert ks[..|ks|] == ks;
  }

  method FillNoColliding(a: array<Option<Value>>, h: array<Node>, m: map<Key, Value>, ks: seq<Key>,
                         calchash: string -> nat, ghost rank: seq<real>)
    returns (ghost at: map<Key, nat>)
    requires Distinct(ks) && (forall k :: k in ks <==> k in m)
    requires h.Length > 0 && Indexed(h[..], rank, map[], calchash, m)
    requires a.Length < 0x8000_0000 && forall j :: 0 <= j < a.Length ==> a[j] == None
    modifies a, h
    ensures Indexed(h[..], rank, at, calchash, m) && First(h[..], at, calchash, ks, |ks|, a.Length)
    ensures ArrayHas(a[..], m, ks, |ks|)
  {
    hide *;
    at := map[];
    FirstStart(h[..], calchash, ks, a.Length);
    ArrayStart(a[..], m, ks);
    var i: nat := 0;
    while i < |ks|
      invariant i <= |ks|
      invariant Indexed(h[..], rank, at, calchash, m) && First(h[..], at, calchash, ks, i, a.Length)
      invariant ArrayHas(a[..], m, ks, i)
    {
      assert ks[i] in m;
      ArrayNext(a[..], m, ks, i);
      if !IsHashKey(ks[i], a.Length) {
        FirstSkip(h[..], at, calchash, ks, i, a.Length);
        SetArray(a, ks[i], m[ks[i]]);
      } else {
        at := PlaceFirst(h, m, ks, i, a.Length, calchash, rank, at);
      }
      i := i + 1;
    }
  }

  method SetArray(a: array<Option<Value>>, k: Key, v: Value)
    requires !IsHashKey(k, a.Length)
    modifies a
    ensures a[..] == old(a[..])[k.i - 1 := Some(v)]
  {
    a[k.i - 1] := Some(v);
  }

  /** One turn of the first pass, for a key of the hash part. */
  method PlaceFirst(h: array<Node>, m: map<Key, Value>, ks: seq<Key>, i: nat, sizearray: nat, calchash: string -> nat,
                    ghost rank: seq<real>, ghost at0: map<Key, nat>)
    returns (ghost at: map<Key, nat>)
    requires Distinct(ks) && i < |ks| && ks[i] in m && IsHashKey(ks[i], sizearray) && h.Length > 0
    requires Indexed(h[..], rank, at0, calchash, m) && First(h[..], at0, calchash, ks, i, sizearray)
    modifies h
    ensures Indexed(h[..], rank, at, calchash, m) && First(h[..], at, calchash, ks, i + 1, sizearray)
  {
    hide Indexed;
    hide First;
    hide KeyHash;
    at := at0;
    ghost var s := h[..];
    var k := ks[i];
    var keyhash := KeyHash(k, calchash);
    var p := MainPos(keyhash, h.Length);
    if h[p].value.None? {
      FirstNotIn(s, at, calchash, ks, i, sizearray);
      PlacedIndexed(s, rank, at, calchash, m, k);
      FirstPlaced(s, at, calchash, ks, i, sizearray, m[k]);
      h[p] := Node(k, keyhash, Some(m[k]), -1, true);
      at := at[k := p];
      assert h[..] == Placed(s, p, k, keyhash, m[k]);
    } else {
      FirstUsed(s, at, calchash, ks, i, sizearray);
    }
  }

  lemma FirstStart(s: seq<Node>, calchash: string -> nat, ks: seq<Key>, sizearray: nat)
    requires |s| > 0
    ensures First(s, map[], calchash, ks, 0, sizearray)
  {
  }

  lemma FirstNotIn(s: seq<Node>, at: map<Key, nat>, calchash: string -> nat, ks: seq<Key>, i: nat, sizearray: nat)
    requires First(s, at, calchash, ks, i, sizearray) && i < |ks|
    ensures ks[i] !in at
  {
  }

  lemma FirstSkip(s: seq<Node>, at: map<Key, nat>, calchash: string -> nat, ks: seq<Key>, i: nat, sizearray: nat)
    requires First(s, at, calchash, ks, i, sizearray) && i < |ks| && !IsHashKey(ks[i], sizearray)
    ensures First(s, at, calchash, ks, i + 1, sizearray)
  {
  }

  lemma FirstUsed(s: seq<Node>, at: map<Key, nat>, calchash: string -> nat, ks: seq<Key>, i: nat, sizearray: nat)
    requires First(s, at, calchash, ks, i, sizearray) && i < |ks| &&
               s[MainPos(KeyHash(ks[i], calchash), |s|)].value.Some?
    ensures First(s, at, calchash, ks, i + 1, sizearray)
  {
  }

  lemma FirstPlaced(s: seq<Node>, at: map<Key, nat>, calchash: string -> nat, ks: seq<Key>, i: nat, sizearray: nat,
                    v: Value)
    requires Distinct(ks) && First(s, at, calchash, ks, i, sizearray) && i < |ks| && IsHashKey(ks[i], sizearray)
    ensures var k := ks[i];
            var p := MainPos(KeyHash(k, calchash), |s|);
            First(Placed(s, p, k, KeyHash(k, calchash), v), at[k := p], calchash, ks, i + 1, sizearray)
  {
    hide KeyHash;
    hide MainPos;
    assert ks[i] in HashSet(ks, sizearray);
  }

  lemma ArrayStart(a: seq<Option<Value>>, m: map<Key, Value>, ks: seq<Key>)
    requires |a| < 0x8000_0000 && forall j :: 0 <= j < |a| ==> a[j] == None
    ensures ArrayHas(a, m, ks, 0)
  {
  }

  lemma ArrayNext(a: seq<Option<Value>>, m: map<Key, Value>, ks: seq<Key>, i: nat)
    requires ArrayHas(a, m, ks, i) && i < |ks| && ks[i] in m
    ensures if IsHashKey(ks[i], |a|) then ArrayHas(a, m, ks, i + 1)
            else ArrayHas(a[ks[i].i - 1 := Some(m[ks[i]])], m, ks, i + 1)
  {
    assert ks[..i + 1] == ks[..i] + [ks[i]];
  }

  method FillColliding(h: array<Node>, m: map<Key, Value>, ks: seq<Key>, sizearray: nat, calchash: string -> nat,
                       ghost rank0: seq<real>, ghost at0: map<Key, nat>)
    returns (ghost rank: seq<real>, ghost at: map<Key, nat>)
    requires Distinct(ks) && (forall k :: k in ks <==> k in m) && h.Length == |HashSet(ks, sizearray)| > 0
    requires Indexed(h[..], rank0, at0, calchash, m) && First(h[..], at0, calchash, ks, |ks|, sizearray)
    modifies h
    ensures Filled(h[..], rank, at, calchash, m) && at.Keys == HashSet(ks, sizearray)
  {
    hide *;
    rank, at := rank0, at0;
    SecondStart(h[..], at, calchash, ks, sizearray);
    assert AllTo(h[..], 0) by { NoneTo(h[..]); }
    var i: nat, emptyslot: nat := 0, 0;
    while i < |ks|
      invariant i <= |ks| && emptyslot <= h.Length
      invariant Indexed(h[..], rank, at, calchash, m) && Second(h[..], at, calchash, ks, i, sizearray)
      invariant AllTo(h[..], emptyslot)
    {
      emptyslot, rank, at := FillOne(h, m, ks, i, sizearray, calchash, rank, at, emptyslot);
      i := i + 1;
    }
    SecondEnd(h[..], rank, at, calchash, m, ks, sizearray);
  }

  /** The slots before `n` are used. */
  ghost predicate AllTo(s: seq<Node>, n: nat) {
    n <= |s| && forall j {:trigger s[j]} :: 0 <= j < n ==> s[j].value.Some?
  }

  lemma NoneTo(s: seq<Node>)
    ensures AllTo(s, 0)
  {
  }

  /** One turn of the second pass. */
  method FillOne(h: array<Node>, m: map<Key, Value>, ks: seq<Key>, i: nat, sizearray: nat, calchash: string -> nat,
                 ghost rank0: seq<real>, ghost at0: map<Key, nat>, emptyslot0: nat)
    returns (emptyslot: nat, ghost rank: seq<real>, ghost at: map<Key, nat>)
    requires Distinct(ks) && i < |ks| && (forall k :: k in ks <==> k in m) && h.Length == |HashSet(ks, sizearray)| > 0
    requires Indexed(h[..], rank0, at0, calchash, m) && Second(h[..], at0, calchash, ks, i, sizearray)
    requires AllTo(h[..], emptyslot0)
    modifies h
    ensures Indexed(h[..], rank, at, calchash, m) && Second(h[..], at, calchash, ks, i + 1, sizearray)
    ensures emptyslot <= h.Length && AllTo(h[..], emptyslot)
  {
    var k := ks[i];
    assert k in m;
    emptyslot, rank, at := emptyslot0, rank0, at0;
    if !IsHashKey(k, sizearray) {
      SecondSkip(h[..], at, calchash, ks, i, sizearray);
      return;
    }
    var keyhash := KeyHash(k, calchash);
    var p := MainPos(keyhash, h.Length);
    SecondMain(h[..], rank, at, calchash, m, ks, i, sizearray);
    hide *;
    ghost var s := h[..];
    var main := h[p];
    assert main == s[p];
    if main.key == k {
      SecondIn(s, at, calchash, ks, i, sizearray);
    } else {
      emptyslot, rank, at := Collide(h, m, ks, i, sizearray, calchash, rank, at, emptyslot, keyhash, p);
    }
  }

  /** A key whose main position another key has. */
  method Collide(h: array<Node>, m: map<Key, Value>, ks: seq<Key>, i: nat, sizearray: nat, calchash: string -> nat,
                 ghost rank0: seq<real>, ghost at0: map<Key, nat>, emptyslot0: nat, keyhash: nat, p: nat)
    returns (emptyslot: nat, ghost rank: seq<real>, ghost at: map<Key, nat>)
    requires Distinct(ks) && i < |ks| && ks[i] in m && IsHashKey(ks[i], sizearray) && emptyslot0 <= h.Length
    requires Indexed(h[..], rank0, at0, calchash, m) && Second(h[..], at0, calchash, ks, i, sizearray)
    requires AllTo(h[..], emptyslot0)
    requires h.Length > 0 && keyhash == KeyHash(ks[i], calchash) && p == MainPos(keyhash, h.Length)
    requires ks[i] !in at0 && h[p].value.Some? && |Used(h[..])| < h.Length
    modifies h
    ensures Indexed(h[..], rank, at, calchash, m) && Second(h[..], at, calchash, ks, i + 1, sizearray)
    ensures emptyslot <= h.Length && AllTo(h[..], emptyslot)
  {
    hide *;
    ghost var s, k := h[..], ks[i];
    IndexedChained(s, rank0, at0, calchash, m);
    emptyslot := FindEmpty(h, emptyslot0);
    var e := emptyslot - 1;
    assert s == h[..];
    CollidedIndexed(s, rank0, at0, calchash, m, e, k);
    SecondCollided(s, at0, calchash, ks, i, sizearray, e, m[k]);
    CollidedUsed(s, p, e, k, keyhash, m[k]);
    AllToUsed(s, Collided(s, p, e, k, keyhash, m[k]), e);
    rank := rank0[e := RankBetween(Nexts(s), rank0, p)];
    at := at0[k := e];
    WriteCollided(h, p, e, ks[i], keyhash, m[ks[i]]);
  }

  lemma AllToUsed(s: seq<Node>, s': seq<Node>, e: nat)
    requires AllTo(s, e) && e < |s| == |s'| && s'[e].value.Some?
    requires forall j :: 0 <= j < |s| && s[j].value.Some? ==> s'[j].value.Some?
    ensures AllTo(s', e + 1)
  {
  }

  lemma IndexedChained(s: seq<Node>, rank: seq<real>, at: map<Key, nat>, calchash: string -> nat, m: map<Key, Value>)
    requires Indexed(s, rank, at, calchash, m)
    ensures Chained(Nexts(s), rank) && |rank| == |s|
  {
  }

  lemma CollidedUsed(s: seq<Node>, p: nat, e: nat, k: Key, keyhash: nat, v: Value)
    requires p < |s| && e < |s| && p != e
    ensures var s' := Collided(s, p, e, k, keyhash, v);
            |s'| == |s| && s'[e].value.Some? && forall j :: 0 <= j < |s| && s[j].value.Some? ==> s'[j].value.Some?
  {
  }

  /** The scan for an empty slot, which goes on where the last one ended; its assertion. */
  method FindEmpty(h: array<Node>, emptyslot: nat) returns (next: nat)
    requires AllTo(h[..], emptyslot) && |Used(h[..])| < h.Length
    ensures emptyslot < next <= h.Length && h[..][next - 1].value.None? && AllTo(h[..], next - 1)
  {
    ghost var s := h[..];
    SomeEmpty(s);
    hide Used;
    var i := emptyslot;
    while i < h.Length
      invariant emptyslot <= i <= h.Length && AllTo(s, i)
    {
      assert s[i] == h[i];
      if h[i].value.None? { return i + 1; }
      i := i + 1;
    }
    assert false;
  }

  method WriteCollided(h: array<Node>, p: nat, e: nat, k: Key, keyhash: nat, v: Value)
    requires p < h.Length && e < h.Length && p != e
    modifies h
    ensures h[..] == Collided(old(h[..]), p, e, k, keyhash, v)
  {
    h[e] := Node(k, keyhash, Some(v), h[p].next, false);
    h[p] := h[p].(next := e, nocolliding := false);
  }

  lemma SecondStart(s: seq<Node>, at: map<Key, nat>, calchash: string -> nat, ks: seq<Key>, sizearray: nat)
    requires First(s, at, calchash, ks, |ks|, sizearray)
    ensures Second(s, at, calchash, ks, 0, sizearray)
  {
  }

  lemma SecondSkip(s: seq<Node>, at: map<Key, nat>, calchash: string -> nat, ks: seq<Key>, i: nat, sizearray: nat)
    requires Second(s, at, calchash, ks, i, sizearray) && i < |ks| && !IsHashKey(ks[i], sizearray)
    ensures Second(s, at, calchash, ks, i + 1, sizearray)
  {
  }

  /** The key in the main position tells whether the first pass has stored this one. */
  lemma SecondMain(s: seq<Node>, rank: seq<real>, at: map<Key, nat>, calchash: string -> nat, m: map<Key, Value>,
                   ks: seq<Key>, i: nat, sizearray: nat)
    requires Second(s, at, calchash, ks, i, sizearray) && i < |ks| && IsHashKey(ks[i], sizearray) &&
               |s| == |HashSet(ks, sizearray)|
    requires Indexed(s, rank, at, calchash, m)
    ensures var p := MainPos(KeyHash(ks[i], calchash), |s|);
            && s[p].value.Some? && (s[p].key == ks[i] <==> ks[i] in at)
            && (ks[i] !in at ==> |Used(s)| < |s|)
  {
    var k := ks[i];
    IndexedAt(s, rank, at, calchash, m);
    UsedIs(s, rank, at, calchash, m);
    hide Indexed;
    if k !in at {
      assert k in HashSet(ks, sizearray) && at.Keys <= HashSet(ks, sizearray) - {k};
      SubsetSize(at.Keys, HashSet(ks, sizearray) - {k});
    }
  }

  lemma UsedIs(s: seq<Node>, rank: seq<real>, at: map<Key, nat>, calchash: string -> nat, m: map<Key, Value>)
    requires Indexed(s, rank, at, calchash, m)
    ensures |Used(s)| == |at|
  {
  }

  lemma SecondIn(s: seq<Node>, at: map<Key, nat>, calchash: string -> nat, ks: seq<Key>, i: nat, sizearray: nat)
    requires Second(s, at, calchash, ks, i, sizearray) && i < |ks| && ks[i] in at
    ensures Second(s, at, calchash, ks, i + 1, sizearray)
  {
  }

  lemma SecondCollided(s: seq<Node>, at: map<Key, nat>, calchash: string -> nat, ks: seq<Key>, i: nat, sizearray: nat,
                       e: nat, v: Value)
    requires Distinct(ks) && Second(s, at, calchash, ks, i, sizearray) && i < |ks| && IsHashKey(ks[i], sizearray)
    requires e < |s| && s[e].value.None?
    ensures var k := ks[i];
            var p := MainPos(KeyHash(k, calchash), |s|);
            p != e && Second(Collided(s, p, e, k, KeyHash(k, calchash), v), at[k := e], calchash, ks, i + 1, sizearray)
  {
    hide KeyHash;
    hide MainPos;
    var k := ks[i];
    assert k in HashSet(ks, sizearray);
    var p := MainPos(KeyHash(k, calchash), |s|);
    assert s[p].value.Some?;
  }

  lemma SecondEnd(s: seq<Node>, rank: seq<real>, at: map<Key, nat>, calchash: string -> nat, m: map<Key, Value>,
                  ks: seq<Key>, sizearray: nat)
    requires Second(s, at, calchash, ks, |ks|, sizearray) && Indexed(s, rank, at, calchash, m) &&
               |s| == |HashSet(ks, sizearray)|
    ensures Filled(s, rank, at, calchash, m) && at.Keys == HashSet(ks, sizearray)
  {
    UsedIs(s, rank, at, calchash, m);
    hide Indexed;
    hide Used;
    SecondKeys(s, at, calchash, ks, sizearray);
    AllUsed(s);
  }

  lemma SecondKeys(s: seq<Node>, at: map<Key, nat>, calchash: string -> nat, ks: seq<Key>, sizearray: nat)
    requires Second(s, at, calchash, ks, |ks|, sizearray)
    ensures at.Keys == HashSet(ks, sizearray)
  {
    forall k | k in HashSet(ks, sizearray) ensures k in at {
      var j :| 0 <= j < |ks| && ks[j] == k;
    }
  }

  method Walk(hash: array<Node>, ghost rank: seq<real>, ghost at: map<Key, nat>, calchash: string -> nat,
              ghost m: map<Key, Value>, k: Key)
    returns (i: Option<nat>)
    requires hash.Length > 0 && Filled(hash[..], rank, at, calchash, m)
    ensures i == if k in at then Some(at[k]) else None
    ensures i.Some? ==> i.value < hash.Length
  {
    hide Indexed;
    hide KeyHash;
    ghost var s := hash[..];
    var keyhash := KeyHash(k, calchash);
    WalkStart(s, rank, at, calchash, m, k);
    var j: nat := MainPos(keyhash, hash.Length);
    var n := hash[j];
    if keyhash != n.keyhash && n.nocolliding { return None; }
    hide OnTrack;
    hide MainPos;
    while true
      invariant OnTrack(s, rank, at, calchash, m, j, k)
      decreases Steps(rank, j)
    {
      WalkOn(s, rank, at, calchash, m, j, k);
      n := hash[j];
      assert s[j] == n;
      if keyhash == n.keyhash && n.key == k { return Some(j); }
      if n.next < 0 { return None; }
      j := n.next;
    }
  }

  lemma FrozenSize(a: seq<Option<Value>>, s: seq<Node>, rank: seq<real>, at: map<Key, nat>, calchash: string -> nat,
                   m: map<Key, Value>)
    requires FrozenOn(a, s, rank, at, calchash, m)
    ensures |a| < 0x8000_0000
  {
  }

  lemma FrozenFilled(a: seq<Option<Value>>, s: seq<Node>, rank: seq<real>, at: map<Key, nat>, calchash: string -> nat,
                     m: map<Key, Value>, k: Key)
    requires FrozenOn(a, s, rank, at, calchash, m) && |s| > 0
    ensures Filled(s, rank, at, calchash, m)
  {
  }

  lemma SlotValue(a: seq<Option<Value>>, s: seq<Node>, rank: seq<real>, at: map<Key, nat>, calchash: string -> nat,
                  m: map<Key, Value>, k: Key)
    requires FrozenOn(a, s, rank, at, calchash, m) && k in at
    ensures at[k] < |s| && k in m && s[at[k]].value == Some(m[k])
  {
    IndexedAt(s, rank, at, calchash, m);
  }

  // Enumeration

  /** The keys in the order of the enumeration; nil elements of the array have none. */
  function Cells(a: seq<Option<Value>>, s: seq<Node>): (cells: seq<Option<Key>>)
    requires |a| < 0x8000_0000
    ensures |cells| == |a| + |s|
  {
    seq(|a| + |s|, p requires 0 <= p < |a| + |s| =>
      if p < |a| then (if a[p].Some? then Some(IntKey(p + 1)) else None) else Some(s[p - |a|].key))
  }

  ghost predicate NextFrom(cells: seq<Option<Key>>, from: nat, next: Option<Key>) {
    match next
    case None => forall p :: from <= p < |cells| ==> cells[p] == None
    case Some(k) =>
      exists p :: from <= p < |cells| && cells[p] == Some(k) && forall q :: from <= q < p ==> cells[q] == None
  }

  function KeysOf(cells: seq<Option<Key>>): seq<Key> {
    if cells == [] then []
    else
      var c := cells[|cells| - 1];
      KeysOf(cells[..|cells| - 1]) + (if c.Some? then [c.value] else [])
  }

  lemma NoKeys()
    ensures KeysOf([]) == []
  {
  }

  /** In the hash part every slot has a key. */
  lemma HashCells(a: seq<Option<Value>>, s: seq<Node>, j: nat)
    requires |a| < 0x8000_0000 && j <= |s|
    ensures NextFrom(Cells(a, s), |a| + j, if j == |s| then None else Some(s[j].key))
  {
    if j < |s| { assert Cells(a, s)[|a| + j] == Some(s[j].key); }
  }

  /** No key has two cells. */
  ghost predicate Injective(cells: seq<Option<Key>>) {
    forall p, q {:trigger cells[p], cells[q]} :: 0 <= p < q < |cells| && cells[p].Some? ==> cells[p] != cells[q]
  }

  lemma {:induction false} KeysIn(cells: seq<Option<Key>>, k: Key)
    ensures k in KeysOf(cells) <==> Some(k) in cells
  {
    if cells != [] {
      KeysIn(cells[..|cells| - 1], k);
      assert cells == cells[..|cells| - 1] + [cells[|cells| - 1]];
    }
  }

  lemma {:induction false} KeysDistinct(cells: seq<Option<Key>>)
    requires Injective(cells)
    ensures Distinct(KeysOf(cells))
  {
    if cells != [] {
      var n := |cells| - 1;
      KeysDistinct(cells[..n]);
      if cells[n].Some? {
        KeysIn(cells[..n], cells[n].value);
        assert Some(cells[n].value) !in cells[..n];
      }
    }
  }

  lemma {:induction false} KeysSkip(cells: seq<Option<Key>>, a: nat, b: nat)
    requires a <= b <= |cells| && forall p :: a <= p < b ==> cells[p] == None
    ensures KeysOf(cells[..b]) == KeysOf(cells[..a])
  {
    if a < b {
      KeysSkip(cells, a, b - 1);
      assert cells[..b][..b - 1] == cells[..b - 1];
    }
  }

  lemma KeysEnd(cells: seq<Option<Key>>, from: nat)
    requires from <= |cells| && NextFrom(cells, from, None)
    ensures KeysOf(cells) == KeysOf(cells[..from])
  {
    KeysSkip(cells, from, |cells|);
    assert cells[..|cells|] == cells;
  }

  lemma KeysNext(cells: seq<Option<Key>>, from: nat, k: Key, after: nat)
    requires NextFrom(cells, from, Some(k)) && Injective(cells)
    requires 0 < after <= |cells| && cells[after - 1] == Some(k)
    ensures from < after && KeysOf(cells[..after]) == KeysOf(cells[..from]) + [k]
  {
    var p :| from <= p < |cells| && cells[p] == Some(k) && forall q :: from <= q < p ==> cells[q] == None;
    assert p == after - 1;
    KeysSkip(cells, from, p);
    assert cells[..after][..p] == cells[..p];
  }

  /** The place of a key in the enumeration. */
  ghost function Place(k: Key, at: map<Key, nat>, sizearray: nat): int {
    if !IsHashKey(k, sizearray) then k.i - 1 else if k in at then sizearray + at[k] else -1
  }

  lemma CellsAre(a: seq<Option<Value>>, s: seq<Node>, rank: seq<real>, at: map<Key, nat>, calchash: string -> nat,
                 m: map<Key, Value>)
    requires FrozenOn(a, s, rank, at, calchash, m)
    ensures var cells := Cells(a, s);
            && (forall p {:trigger cells[p]} :: 0 <= p < |cells| && cells[p].Some? ==>
                  cells[p].value in m && Place(cells[p].value, at, |a|) == p)
            && (forall k {:trigger k in m} :: k in m ==>
                  var p := Place(k, at, |a|); 0 <= p < |cells| && cells[p] == Some(k))
            && Injective(cells)
  {
    var cells := Cells(a, s);
    forall p {:trigger cells[p]} | 0 <= p < |cells| && cells[p].Some?
      ensures cells[p].value in m && Place(cells[p].value, at, |a|) == p
    {
      CellPlace(a, s, rank, at, calchash, m, p);
    }
    forall k {:trigger k in m} | k in m
      ensures var p := Place(k, at, |a|); 0 <= p < |cells| && cells[p] == Some(k)
    {
      KeyPlace(a, s, rank, at, calchash, m, k);
    }
  }

  lemma SlotKey(a: seq<Option<Value>>, s: seq<Node>, rank: seq<real>, at: map<Key, nat>, calchash: string -> nat,
                m: map<Key, Value>, i: nat)
    requires FrozenOn(a, s, rank, at, calchash, m) && i < |s|
    ensures var k := s[i].key; k in at && at[k] == i && k in m && IsHashKey(k, |a|)
  {
    hide Indexed;
    assert Indexed(s, rank, at, calchash, m) && s[i].value.Some?;
    IndexedAt(s, rank, at, calchash, m);
  }

  lemma KeySlot(a: seq<Option<Value>>, s: seq<Node>, rank: seq<real>, at: map<Key, nat>, calchash: string -> nat,
                m: map<Key, Value>, k: Key)
    requires FrozenOn(a, s, rank, at, calchash, m) && k in m && IsHashKey(k, |a|)
    ensures k in at && at[k] < |s| && s[at[k]].key == k
  {
    hide Indexed;
    assert k in at;
    IndexedAt(s, rank, at, calchash, m);
  }

  lemma CellPlace(a: seq<Option<Value>>, s: seq<Node>, rank: seq<real>, at: map<Key, nat>, calchash: string -> nat,
                  m: map<Key, Value>, p: nat)
    requires FrozenOn(a, s, rank, at, calchash, m) && p < |a| + |s| && Cells(a, s)[p].Some?
    ensures var k := Cells(a, s)[p].value; k in m && Place(k, at, |a|) == p
  {
    hide Indexed;
    hide KeyHash;
    if p < |a| {
      assert a[p].Some?;
    } else {
      SlotKey(a, s, rank, at, calchash, m, p - |a|);
    }
  }

  lemma KeyPlace(a: seq<Option<Value>>, s: seq<Node>, rank: seq<real>, at: map<Key, nat>, calchash: string -> nat,
                 m: map<Key, Value>, k: Key)
    requires FrozenOn(a, s, rank, at, calchash, m) && k in m
    ensures var p := Place(k, at, |a|); 0 <= p < |a| + |s| && Cells(a, s)[p] == Some(k)
  {
    hide Indexed;
    hide KeyHash;
    if !IsHashKey(k, |a|) {
      assert a[k.i - 1] == Some(m[k]) && IntKey(k.i - 1 + 1) == k;
    } else {
      KeySlot(a, s, rank, at, calchash, m, k);
    }
  }

  lemma KeysAll(a: seq<Option<Value>>, s: seq<Node>, rank: seq<real>, at: map<Key, nat>, calchash: string -> nat,
                m: map<Key, Value>)
    requires FrozenOn(a, s, rank, at, calchash, m)
    ensures var ks := KeysOf(Cells(a, s)); Distinct(ks) && forall k :: k in ks <==> k in m
  {
    var cells := Cells(a, s);
    CellsAre(a, s, rank, at, calchash, m);
    KeysDistinct(cells);
    hide FrozenOn;
    forall k ensures k in KeysOf(cells) <==> k in m {
      KeysIn(cells, k);
      if Some(k) in cells {
        var p :| 0 <= p < |cells| && cells[p] == Some(k);
      }
      if k in m { assert cells[Place(k, at, |a|)] == Some(k); }
    }
  }

  /** The place behind a key that the enumeration has returned. */
  lemma AfterNext(a: seq<Option<Value>>, s: seq<Node>, rank: seq<real>, at: map<Key, nat>, calchash: string -> nat,
                  m: map<Key, Value>, from: nat, k: Key)
    requires FrozenOn(a, s, rank, at, calchash, m) && NextFrom(Cells(a, s), from, Some(k))
    ensures var p := Place(k, at, |a|); 0 <= p < |a| + |s| && Cells(a, s)[p] == Some(k) && Injective(Cells(a, s))
  {
    CellsAre(a, s, rank, at, calchash, m);
    hide FrozenOn;
    var cells := Cells(a, s);
    var p :| from <= p < |cells| && cells[p] == Some(k);
  }
}
