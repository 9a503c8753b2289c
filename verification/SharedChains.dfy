/** lua-sharedata.c: the frozen hash part of a table, which is filled in two passes. */
module SharedChains {
  import opened Chains
  import opened Wrappers

  /** Integer keys are kept in a C int, and so is the size of the array part. */
  type Int32 = i: int | -0x8000_0000 <= i < 0x8000_0000

  datatype Key = IntKey(i: Int32) | StrKey(s: string)
  type Value(!new, ==, 0) = nat

  /** struct node; a slot whose value type is nil is empty. `next` is -1 at the end of a chain. */
  datatype Node = Node(key: Key, keyhash: nat, value: Option<Value>, next: int, nocolliding: bool)

  const EMPTY := Node(IntKey(0), 0, None, -1, false)

  function KeyHash(k: Key, calchash: string -> nat): nat {
    match k
    case IntKey(i) => i % 0x1_0000_0000
    case StrKey(s) => calchash(s) % 0x1_0000_0000
  }

  /** ishashkey: not one of the array's indices. */
  predicate IsHashKey(k: Key, sizearray: nat) { !(k.IntKey? && 1 <= k.i <= sizearray) }

  function MainPos(keyhash: nat, sizehash: nat): (h: nat)
    requires sizehash > 0
    ensures h < sizehash
  {
    keyhash % sizehash
  }

  function Nexts(s: seq<Node>): (next: seq<int>)
    ensures |next| == |s|
  {
    seq(|s|, i requires 0 <= i < |s| => s[i].next)
  }

  ghost predicate Linked(s: seq<Node>, rank: seq<real>) {
    && Chained(Nexts(s), rank)
    && forall i {:trigger s[i]} :: 0 <= i < |s| ==>
         && (s[i].value.None? ==> s[i].next == -1)
         && (0 <= s[i].next < |s| ==> s[s[i].next].value.Some?)
  }

  /** What is true of one key of the source table `m` once it is in the hash part: where it
      is, that its main position leads there, and that it is there if that says so. */
  ghost predicate Found(s: seq<Node>, rank: seq<real>, at: map<Key, nat>, calchash: string -> nat, m: map<Key, Value>,
                        k: Key)
    requires |s| > 0 && Linked(s, rank)
  {
    k in at ==>
      var h := MainPos(KeyHash(k, calchash), |s|);
      && k in m && at[k] < |s|
      && s[at[k]].key == k && s[at[k]].keyhash == KeyHash(k, calchash) && s[at[k]].value == Some(m[k])
      && Reaches(Nexts(s), rank, h, at[k])
      && (s[h].nocolliding ==> at[k] == h)
  }

  ghost function Used(s: seq<Node>): set<int> { set i | 0 <= i < |s| && s[i].value.Some? }

  ghost predicate Indexed(s: seq<Node>, rank: seq<real>, at: map<Key, nat>, calchash: string -> nat,
                          m: map<Key, Value>)
  {
    && |s| > 0 && Linked(s, rank)
    && (forall k {:trigger at[k]} {:trigger Found(s, rank, at, calchash, m, k)} :: Found(s, rank, at, calchash, m, k))
    && Keyed(s, at)
    && |Used(s)| == |at|
  }

  /** Each used slot is where its key is. */
  ghost predicate Keyed(s: seq<Node>, at: map<Key, nat>) {
    forall i {:trigger s[i]} :: 0 <= i < |s| && s[i].value.Some? ==> s[i].key in at && at[s[i].key] == i
  }

  lemma KeyedMore(s: seq<Node>, s': seq<Node>, at: map<Key, nat>, e: nat, k: Key)
    requires Keyed(s, at) && |s'| == |s| && e < |s| && k !in at && s'[e].key == k
    requires forall i {:trigger s'[i]} :: 0 <= i < |s| && i != e ==> s'[i].key == s[i].key && s'[i].value == s[i].value
    ensures Keyed(s', at[k := e]) && |at[k := e]| == |at| + 1
  {
    assert at[k := e].Keys == at.Keys + {k};
  }

  // Insertion

  /** First pass: an empty main position takes the key. */
  function Placed(s: seq<Node>, h: nat, k: Key, keyhash: nat, v: Value): seq<Node>
    requires h < |s|
  {
    s[h := Node(k, keyhash, Some(v), -1, true)]
  }

  /** Second pass: the key goes into an empty slot behind its main position. */
  function Collided(s: seq<Node>, h: nat, e: nat, k: Key, keyhash: nat, v: Value): seq<Node>
    requires h < |s| && e < |s| && h != e
  {
    s[e := Node(k, keyhash, Some(v), s[h].next, false)][h := s[h].(next := e, nocolliding := false)]
  }

  lemma UsedMore(s: seq<Node>, s': seq<Node>, e: nat)
    requires |s'| == |s| && e < |s| && s[e].value.None? && s'[e].value.Some?
    requires forall i {:trigger s'[i]} :: 0 <= i < |s| && i != e ==> (s'[i].value.Some? <==> s[i].value.Some?)
    ensures |Used(s')| == |Used(s)| + 1
  {
    assert Used(s') == Used(s) + {e};
  }

  lemma EmptyIsFree(s: seq<Node>, rank: seq<real>, e: nat)
    requires Linked(s, rank) && e < |s| && s[e].value.None?
    ensures Free(Nexts(s), e)
  {
    forall i {:trigger Nexts(s)[i]} | 0 <= i < |s| ensures Nexts(s)[i] != e {
      assert s[i].next < |s| by { var _ := Nexts(s)[i]; }
    }
  }

  /** The main position of a stored key is never empty. */
  lemma MainUsed(s: seq<Node>, rank: seq<real>, at: map<Key, nat>, calchash: string -> nat, m: map<Key, Value>, k: Key)
    requires |s| > 0 && Linked(s, rank) && Found(s, rank, at, calchash, m, k) && k in at
    ensures s[MainPos(KeyHash(k, calchash), |s|)].value.Some?
  {
    var h := MainPos(KeyHash(k, calchash), |s|);
    if h != at[k] {
      ReachesFrom(Nexts(s), rank, h, at[k]);
      assert s[h].next >= 0;
    }
  }

  lemma PlacedLinked(s: seq<Node>, rank: seq<real>, h: nat, k: Key, keyhash: nat, v: Value)
    requires Linked(s, rank) && h < |s| && s[h].value.None?
    ensures var s' := Placed(s, h, k, keyhash, v);
            && Linked(s', rank) && Nexts(s') == Nexts(s) && s'[h] == Node(k, keyhash, Some(v), -1, true)
            && forall i {:trigger s'[i]} :: 0 <= i < |s| && i != h ==> s'[i] == s[i]
  {
    assert Nexts(Placed(s, h, k, keyhash, v)) == Nexts(s);
  }

  lemma PlacedIndexed(s: seq<Node>, rank: seq<real>, at: map<Key, nat>, calchash: string -> nat, m: map<Key, Value>,
                      k: Key)
    requires Indexed(s, rank, at, calchash, m) && k in m && k !in at
    requires s[MainPos(KeyHash(k, calchash), |s|)].value.None?
    ensures var h := MainPos(KeyHash(k, calchash), |s|);
            Indexed(Placed(s, h, k, KeyHash(k, calchash), m[k]), rank, at[k := h], calchash, m)
  {
    var h := MainPos(KeyHash(k, calchash), |s|);
    var s', at' := Placed(s, h, k, KeyHash(k, calchash), m[k]), at[k := h];
    PlacedLinked(s, rank, h, k, KeyHash(k, calchash), m[k]);
    ReachesSelf(Nexts(s), rank, h);
    UsedMore(s, s', h);
    KeyedMore(s, s', at, h, k);
    assert Found(s', rank, at', calchash, m, k);
    hide Used;
    hide Keyed;
    hide Linked;
    forall l {:trigger at'[l]} {:trigger Found(s', rank, at', calchash, m, l)}
      ensures Found(s', rank, at', calchash, m, l)
    {
      if l != k { PlacedFound(s, rank, at, calchash, m, k, l); }
    }
    hide Found;
    hide Placed;
    hide KeyHash;
    hide MainPos;
  }

  lemma PlacedFound(s: seq<Node>, rank: seq<real>, at: map<Key, nat>, calchash: string -> nat, m: map<Key, Value>,
                    k: Key, l: Key)
    requires Indexed(s, rank, at, calchash, m) && k in m && l != k
    requires s[MainPos(KeyHash(k, calchash), |s|)].value.None?
    ensures var h := MainPos(KeyHash(k, calchash), |s|);
            var s', at' := Placed(s, h, k, KeyHash(k, calchash), m[k]), at[k := h];
            Linked(s', rank) && Found(s', rank, at', calchash, m, l)
  {
    var h := MainPos(KeyHash(k, calchash), |s|);
    PlacedLinked(s, rank, h, k, KeyHash(k, calchash), m[k]);
    assert Found(s, rank, at, calchash, m, l);
    if l in at { MainUsed(s, rank, at, calchash, m, l); }
    hide Indexed;
    hide Linked;
    hide Placed;
    hide KeyHash;
    hide MainPos;
  }

  lemma CollidedLinked(s: seq<Node>, rank: seq<real>, h: nat, e: nat, k: Key, keyhash: nat, v: Value)
    requires Linked(s, rank) && h < |s| && e < |s| && s[h].value.Some? && s[e].value.None?
    ensures var s', next := Collided(s, h, e, k, keyhash, v), Nexts(s);
            && Nexts(s') == Link(next, h, e) && Linked(s', rank[e := RankBetween(next, rank, h)])
            && s'[e].key == k && s'[e].keyhash == keyhash && s'[e].value == Some(v) && !s'[h].nocolliding
            && (forall i {:trigger s'[i]} :: 0 <= i < |s| && i != e ==>
                  s'[i].key == s[i].key && s'[i].keyhash == s[i].keyhash && s'[i].value == s[i].value)
            && (forall i {:trigger s'[i]} :: 0 <= i < |s| && i != e && i != h ==> s'[i].nocolliding == s[i].nocolliding)
  {
    var s', next := Collided(s, h, e, k, keyhash, v), Nexts(s);
    assert Nexts(s') == Link(next, h, e);
    EmptyIsFree(s, rank, e);
    LinkChained(next, rank, h, e);
    hide Chained;
    hide RankBetween;
    forall i {:trigger s'[i]} | 0 <= i < |s'|
      ensures (s'[i].value.None? ==> s'[i].next == -1) && (0 <= s'[i].next < |s'| ==> s'[s'[i].next].value.Some?)
    {
      if i != e && i != h { assert s'[i] == s[i]; }
    }
  }

  lemma CollidedIndexed(s: seq<Node>, rank: seq<real>, at: map<Key, nat>, calchash: string -> nat, m: map<Key, Value>,
                        e: nat, k: Key)
    requires Indexed(s, rank, at, calchash, m) && k in m && k !in at && e < |s| && s[e].value.None?
    requires s[MainPos(KeyHash(k, calchash), |s|)].value.Some?
    ensures var h := MainPos(KeyHash(k, calchash), |s|);
            Indexed(Collided(s, h, e, k, KeyHash(k, calchash), m[k]), rank[e := RankBetween(Nexts(s), rank, h)],
                at[k := e], calchash, m)
  {
    var h := MainPos(KeyHash(k, calchash), |s|);
    var next := Nexts(s);
    var s', rank', at' := Collided(s, h, e, k, KeyHash(k, calchash), m[k]), rank[e := RankBetween(next, rank, h)],
        at[k := e];
    CollidedLinked(s, rank, h, e, k, KeyHash(k, calchash), m[k]);
    ReachesNew(next, rank, h, e);
    UsedMore(s, s', e);
    KeyedMore(s, s', at, e, k);
    assert Found(s', rank', at', calchash, m, k);
    hide Used;
    hide Keyed;
    hide RankBetween;
    hide Linked;
    forall l {:trigger at'[l]} {:trigger Found(s', rank', at', calchash, m, l)}
      ensures Found(s', rank', at', calchash, m, l)
    {
      if l != k { CollidedFound(s, rank, at, calchash, m, e, k, l); }
    }
    hide Found;
    hide Collided;
    hide KeyHash;
    hide MainPos;
  }

  lemma IndexedFound(s: seq<Node>, rank: seq<real>, at: map<Key, nat>, calchash: string -> nat, m: map<Key, Value>,
                     k: Key)
    requires Indexed(s, rank, at, calchash, m)
    ensures |s| > 0 && Linked(s, rank) && Found(s, rank, at, calchash, m, k)
  {
  }

  lemma LinkedChained(s: seq<Node>, rank: seq<real>)
    requires Linked(s, rank)
    ensures Chained(Nexts(s), rank) && |Nexts(s)| == |s|
  {
  }

  lemma CollidedFound(s: seq<Node>, rank: seq<real>, at: map<Key, nat>, calchash: string -> nat, m: map<Key, Value>,
                      e: nat, k: Key, l: Key)
    requires Indexed(s, rank, at, calchash, m) && k in m && e < |s| && s[e].value.None? && l != k
    requires s[MainPos(KeyHash(k, calchash), |s|)].value.Some?
    ensures var h := MainPos(KeyHash(k, calchash), |s|);
            var s', rank', at' := Collided(s, h, e, k, KeyHash(k, calchash), m[k]),
                rank[e := RankBetween(Nexts(s), rank, h)], at[k := e];
            Linked(s', rank') && Found(s', rank', at', calchash, m, l)
  {
    hide Indexed;
    hide Linked;
    hide Nexts;
    hide Free;
    hide Collided;
    hide RankBetween;
    hide KeyHash;
    hide MainPos;
    IndexedFound(s, rank, at, calchash, m, l);
    var h := MainPos(KeyHash(k, calchash), |s|);
    var next := Nexts(s);
    CollidedLinked(s, rank, h, e, k, KeyHash(k, calchash), m[k]);
    EmptyIsFree(s, rank, e);
    LinkedChained(s, rank);
    LinkedChained(Collided(s, h, e, k, KeyHash(k, calchash), m[k]), rank[e := RankBetween(next, rank, h)]);
    if l in at {
      MainUsed(s, rank, at, calchash, m, l);
      ReachesLinked(next, rank, h, e, MainPos(KeyHash(l, calchash), |s|), at[l]);
    }
  }

  lemma NothingIndexed(s: seq<Node>, rank: seq<real>, calchash: string -> nat, m: map<Key, Value>)
    requires |s| > 0 && |rank| == |s| && forall i {:trigger s[i]} :: 0 <= i < |s| ==> s[i] == EMPTY
    ensures Indexed(s, rank, map[], calchash, m)
  {
    assert Used(s) == {};
    forall i {:trigger Nexts(s)[i]} | 0 <= i < |s| ensures Nexts(s)[i] == -1 { assert s[i] == EMPTY; }
  }

  /** While a key is missing there is an empty slot. */
  lemma SomeEmpty(s: seq<Node>)
    requires |Used(s)| < |s|
    ensures exists i :: 0 <= i < |s| && s[i].value.None?
  {
    RangeIs(|s|);
    if forall i :: 0 <= i < |s| ==> s[i].value.Some? { SubsetSize(Range(|s|), Used(s)); }
  }

  /** When all keys are in, all slots are used. */
  lemma AllUsed(s: seq<Node>)
    requires |Used(s)| == |s|
    ensures forall i {:trigger s[i]} :: 0 <= i < |s| ==> s[i].value.Some?
  {
    RangeIs(|s|);
    forall i {:trigger s[i]} | 0 <= i < |s| ensures s[i].value.Some? {
      assert |Range(|s|) - {i}| == |s| - 1;
      if s[i].value.None? { SubsetSize(Used(s), Range(|s|) - {i}); }
    }
  }

  // Lookup

  /** A walk that looks for `k` is at slot `j`. */
  ghost predicate OnTrack(s: seq<Node>, rank: seq<real>, at: map<Key, nat>, calchash: string -> nat,
                          m: map<Key, Value>, j: nat, k: Key)
  {
    Indexed(s, rank, at, calchash, m) && j < |s| && (k in at ==> Reaches(Nexts(s), rank, j, at[k]))
  }

  lemma IndexedAt(s: seq<Node>, rank: seq<real>, at: map<Key, nat>, calchash: string -> nat, m: map<Key, Value>)
    requires Indexed(s, rank, at, calchash, m)
    ensures forall k {:trigger at[k]} :: k in at ==>
              at[k] < |s| && s[at[k]].key == k && s[at[k]].keyhash == KeyHash(k, calchash) && k in m &&
                  s[at[k]].value == Some(m[k])
    ensures forall i {:trigger s[i]} :: 0 <= i < |s| && s[i].value.Some? ==> s[i].key in at && at[s[i].key] == i
  {
    hide Reaches;
    forall k {:trigger at[k]} | k in at
      ensures at[k] < |s| && s[at[k]].key == k && s[at[k]].keyhash == KeyHash(k, calchash) && k in m &&
                s[at[k]].value == Some(m[k])
    {
      assert Found(s, rank, at, calchash, m, k);
    }
  }

  lemma WalkOn(s: seq<Node>, rank: seq<real>, at: map<Key, nat>, calchash: string -> nat, m: map<Key, Value>, j: nat,
               k: Key)
    requires OnTrack(s, rank, at, calchash, m, j, k) && forall i {:trigger s[i]} :: 0 <= i < |s| ==> s[i].value.Some?
    ensures j < |s|
    ensures s[j].key == k ==> k in at && at[k] == j && s[j].keyhash == KeyHash(k, calchash)
    ensures s[j].key != k && s[j].next < 0 ==> k !in at
    ensures s[j].key != k && s[j].next >= 0 ==>
              OnTrack(s, rank, at, calchash, m, s[j].next, k) && Steps(rank, s[j].next) < Steps(rank, j)
  {
    IndexedAt(s, rank, at, calchash, m);
    var next := Nexts(s);
    assert next[j] == s[j].next;
    if next[j] >= 0 { StepsFall(next, rank, j); }
    if k in at && at[k] != j { ReachesFrom(next, rank, j, at[k]); }
  }

  /** The start of the search, and why it may give up at once. */
  lemma WalkStart(s: seq<Node>, rank: seq<real>, at: map<Key, nat>, calchash: string -> nat, m: map<Key, Value>, k: Key)
    requires Indexed(s, rank, at, calchash, m)
    ensures var h := MainPos(KeyHash(k, calchash), |s|);
            && OnTrack(s, rank, at, calchash, m, h, k)
            && (s[h].nocolliding && s[h].keyhash != KeyHash(k, calchash) ==> k !in at)
  {
    IndexedAt(s, rank, at, calchash, m);
    assert Found(s, rank, at, calchash, m, k);
  }
}
