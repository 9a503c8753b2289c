/** The slots of pbc's string map: a slot may belong to the chain of another key's home
    slot, and still every key is found from its own home slot. */
module PbcChains {
  import opened Chains
  import opened Wrappers

  type Key = string
  type Value(!new, ==, 0) = nat

  /** `next` is one more than the index of the next slot in the chain, 0 at its end. */
  datatype Slot = Slot(key: Option<Key>, hash: nat, pointer: Option<Value>, next: nat)

  const EMPTY := Slot(None, 0, None, 0)

  function Nexts(s: seq<Slot>): (next: seq<int>)
    ensures |next| == |s|
  {
    seq(|s|, i requires 0 <= i < |s| => s[i].next - 1)
  }

  /** Empty slots are untouched, and no chain leads to one. */
  ghost predicate Linked(s: seq<Slot>, rank: seq<real>) {
    && Chained(Nexts(s), rank)
    && forall i {:trigger s[i]} :: 0 <= i < |s| ==>
         && (s[i].key.None? ==> s[i] == EMPTY)
         && (0 < s[i].next <= |s| ==> s[s[i].next - 1].key.Some?)
  }

  function Home(hash: nat, cap: nat): (h: nat)
    requires cap > 0
    ensures h < cap
  {
    hash % cap
  }

  ghost function Used(s: seq<Slot>): set<int> { set i | 0 <= i < |s| && s[i].key.Some? }

  /** What the index says of one key: where it is, and that its home slot leads there. */
  ghost predicate Found(s: seq<Slot>, rank: seq<real>, at: map<Key, nat>, hash: Key -> nat, k: Key)
    requires |s| > 0 && Linked(s, rank)
  {
    k in at ==>
      && at[k] < |s| && s[at[k]].key == Some(k) && s[at[k]].hash == hash(k)
      && Reaches(Nexts(s), rank, Home(hash(k), |s|), at[k])
  }

  ghost predicate Indexed(s: seq<Slot>, rank: seq<real>, at: map<Key, nat>, hash: Key -> nat)
    requires |s| > 0
  {
    && Linked(s, rank)
    && (forall k {:trigger at[k]} {:trigger Found(s, rank, at, hash, k)} :: Found(s, rank, at, hash, k))
    && (forall i {:trigger s[i]} :: 0 <= i < |s| && s[i].key.Some? ==> s[i].key.value in at && at[s[i].key.value] == i)
  }

  ghost function Contents(s: seq<Slot>, at: map<Key, nat>): map<Key, Option<Value>>
    requires forall k :: k in at ==> at[k] < |s|
  {
    map k | k in at :: s[at[k]].pointer
  }

  /** While not all slots are used there is an empty one. */
  lemma SomeEmpty(s: seq<Slot>)
    requires |Used(s)| < |s|
    ensures exists i :: 0 <= i < |s| && s[i].key.None?
  {
    RangeIs(|s|);
    if forall i :: 0 <= i < |s| ==> s[i].key.Some? { SubsetSize(Range(|s|), Used(s)); }
  }

  lemma AllUsed(s: seq<Slot>)
    requires |Used(s)| == |s|
    ensures forall i :: 0 <= i < |s| ==> s[i].key.Some?
  {
    RangeIs(|s|);
    forall i | 0 <= i < |s| ensures s[i].key.Some? {
      assert |Range(|s|) - {i}| == |s| - 1;
      if s[i].key.None? { SubsetSize(Used(s), Range(|s|) - {i}); }
    }
  }

  lemma UsedMore(s: seq<Slot>, s': seq<Slot>, e: nat)
    requires |s'| == |s| && e < |s| && s[e].key.None? && s'[e].key.Some?
    requires forall i :: 0 <= i < |s| && i != e ==> s'[i].key == s[i].key
    ensures |Used(s')| == |Used(s)| + 1
  {
    assert Used(s') == Used(s) + {e};
  }

  lemma UsedBound(s: seq<Slot>)
    ensures |Used(s)| <= |s|
  {
    RangeIs(|s|);
    SubsetSize(Used(s), Range(|s|));
  }

  // Insertion

  /** A key goes into its empty home slot: no chain changes. */
  function AtHome(s: seq<Slot>, h: nat, k: Key, hash: nat, v: Option<Value>): seq<Slot>
    requires h < |s|
  {
    s[h := Slot(Some(k), hash, v, s[h].next)]
  }

  /** A key goes into the empty slot `e`, which is linked in behind slot `h` of its chain. */
  function Behind(s: seq<Slot>, h: nat, e: nat, k: Key, hash: nat, v: Option<Value>): seq<Slot>
    requires h < |s| && e < |s| && h != e
  {
    s[e := Slot(Some(k), hash, v, s[h].next)][h := s[h].(next := e + 1)]
  }

  lemma AtHomeLinked(s: seq<Slot>, rank: seq<real>, h: nat, k: Key, hash: nat, v: Option<Value>)
    requires Linked(s, rank) && h < |s| && s[h].key.None?
    ensures var s' := AtHome(s, h, k, hash, v);
            && Linked(s', rank) && Nexts(s') == Nexts(s) && s'[h].key == Some(k) && s'[h].hash == hash &&
                 s'[h].pointer == v
            && forall i {:trigger s'[i]} :: 0 <= i < |s| && i != h ==> s'[i] == s[i]
  {
    assert Nexts(AtHome(s, h, k, hash, v)) == Nexts(s);
  }

  lemma EmptyIsFree(s: seq<Slot>, rank: seq<real>, e: nat)
    requires Linked(s, rank) && e < |s| && s[e].key.None?
    ensures Free(Nexts(s), e)
  {
    forall i {:trigger Nexts(s)[i]} | 0 <= i < |s| ensures Nexts(s)[i] != e {
      assert s[i].next <= |s| by { var _ := Nexts(s)[i]; }
    }
  }

  lemma BehindLinked(s: seq<Slot>, rank: seq<real>, h: nat, e: nat, k: Key, hash: nat, v: Option<Value>)
    requires Linked(s, rank) && h < |s| && e < |s| && s[h].key.Some? && s[e].key.None?
    ensures var s', next := Behind(s, h, e, k, hash, v), Nexts(s);
            && Nexts(s') == Link(next, h, e) && Linked(s', rank[e := RankBetween(next, rank, h)])
            && s'[e].key == Some(k) && s'[e].hash == hash && s'[e].pointer == v
            && forall i {:trigger s'[i]} :: 0 <= i < |s| && i != e ==>
                 s'[i].key == s[i].key && s'[i].hash == s[i].hash && s'[i].pointer == s[i].pointer
  {
    var s', next := Behind(s, h, e, k, hash, v), Nexts(s);
    assert Nexts(s') == Link(next, h, e);
    EmptyIsFree(s, rank, e);
    LinkChained(next, rank, h, e);
    hide Chained;
    hide RankBetween;
    forall i {:trigger s'[i]} | 0 <= i < |s'|
      ensures (s'[i].key.None? ==> s'[i] == EMPTY) && (0 < s'[i].next <= |s'| ==> s'[s'[i].next - 1].key.Some?)
    {
      if i != e && i != h { assert s'[i] == s[i]; }
    }
  }

  /** The home slot of a stored key is never empty. */
  lemma HomeUsed(s: seq<Slot>, rank: seq<real>, at: map<Key, nat>, hash: Key -> nat, k: Key)
    requires |s| > 0 && Linked(s, rank) && Found(s, rank, at, hash, k) && k in at
    ensures s[Home(hash(k), |s|)].key.Some?
  {
    var h := Home(hash(k), |s|);
    if h != at[k] {
      ReachesFrom(Nexts(s), rank, h, at[k]);
      assert s[h].next > 0;
    }
  }

  lemma AtHomeIndexed(s: seq<Slot>, rank: seq<real>, at: map<Key, nat>, hash: Key -> nat, k: Key, v: Option<Value>)
    requires |s| > 0 && Indexed(s, rank, at, hash) && k !in at
    requires s[Home(hash(k), |s|)].key.None?
    ensures var h := Home(hash(k), |s|);
            Indexed(AtHome(s, h, k, hash(k), v), rank, at[k := h], hash)
  {
    var h := Home(hash(k), |s|);
    var s', at' := AtHome(s, h, k, hash(k), v), at[k := h];
    AtHomeLinked(s, rank, h, k, hash(k), v);
    ReachesSelf(Nexts(s), rank, h);
    hide AtHome;
    hide Linked;
    hide Reaches;
    forall l {:trigger at'[l]} {:trigger Found(s', rank, at', hash, l)} ensures Found(s', rank, at', hash, l) {
      assert Found(s, rank, at, hash, l);
    }
  }

  /** Slot `h` is in use, in the chain of the home slot of `k`. */
  ghost predicate InChain(s: seq<Slot>, rank: seq<real>, hash: Key -> nat, k: Key, h: nat)
    requires |s| > 0 && Linked(s, rank)
  {
    && h < |s| && s[h].key.Some? && s[Home(hash(k), |s|)].key.Some?
    && Reaches(Nexts(s), rank, Home(hash(k), |s|), h)
  }

  lemma BehindIndexed(s: seq<Slot>, rank: seq<real>, at: map<Key, nat>, hash: Key -> nat, h: nat, e: nat, k: Key,
                      v: Option<Value>)
    requires |s| > 0 && Indexed(s, rank, at, hash) && k !in at && e < |s| && s[e].key.None?
    requires InChain(s, rank, hash, k, h)
    ensures Indexed(Behind(s, h, e, k, hash(k), v), rank[e := RankBetween(Nexts(s), rank, h)], at[k := e], hash)
  {
    var next := Nexts(s);
    var s', rank', at' := Behind(s, h, e, k, hash(k), v), rank[e := RankBetween(next, rank, h)], at[k := e];
    BehindLinked(s, rank, h, e, k, hash(k), v);
    BehindFound(s, rank, hash, h, e, k, v);
    EmptyIsFree(s, rank, e);
    hide Behind;
    hide RankBetween;
    hide InChain;
    forall l {:trigger at'[l]} {:trigger Found(s', rank', at', hash, l)} ensures Found(s', rank', at', hash, l) {
      assert Found(s, rank, at, hash, l);
      if l != k && l in at {
        HomeUsed(s, rank, at, hash, l);
        ReachesLinked(next, rank, h, e, Home(hash(l), |s|), at[l]);
      }
    }
    hide Linked;
    hide Found;
  }

  /** The home slot of the new key leads to it. */
  lemma BehindFound(s: seq<Slot>, rank: seq<real>, hash: Key -> nat, h: nat, e: nat, k: Key, v: Option<Value>)
    requires |s| > 0 && Linked(s, rank) && e < |s| && s[e].key.None? && InChain(s, rank, hash, k, h)
    ensures var s', rank' := Behind(s, h, e, k, hash(k), v), rank[e := RankBetween(Nexts(s), rank, h)];
            Linked(s', rank') && Reaches(Nexts(s'), rank', Home(hash(k), |s|), e)
  {
    var next, i := Nexts(s), Home(hash(k), |s|);
    var s', rank' := Behind(s, h, e, k, hash(k), v), rank[e := RankBetween(next, rank, h)];
    BehindLinked(s, rank, h, e, k, hash(k), v);
    EmptyIsFree(s, rank, e);
    ReachesLinked(next, rank, h, e, i, h);
    ReachesThen(Nexts(s'), rank', i, h);
  }

  /** Writing a pointer changes no chain. */
  lemma SetIndexed(s: seq<Slot>, rank: seq<real>, at: map<Key, nat>, hash: Key -> nat, i: nat, v: Option<Value>)
    requires |s| > 0 && Indexed(s, rank, at, hash) && i < |s| && s[i].key.Some?
    ensures Indexed(s[i := s[i].(pointer := v)], rank, at, hash)
  {
    var s' := s[i := s[i].(pointer := v)];
    SetLinked(s, rank, i, v);
    hide Linked;
    hide Reaches;
    SameKeysIndexed(s, s', rank, at, hash);
  }

  lemma SetLinked(s: seq<Slot>, rank: seq<real>, i: nat, v: Option<Value>)
    requires Linked(s, rank) && i < |s| && s[i].key.Some?
    ensures var s' := s[i := s[i].(pointer := v)];
            && Linked(s', rank) && Nexts(s') == Nexts(s)
            && forall j {:trigger s'[j]} :: 0 <= j < |s| ==> s'[j].key == s[j].key && s'[j].hash == s[j].hash
  {
    assert Nexts(s[i := s[i].(pointer := v)]) == Nexts(s);
  }

  lemma SameKeysIndexed(s: seq<Slot>, s': seq<Slot>, rank: seq<real>, at: map<Key, nat>, hash: Key -> nat)
    requires |s| > 0 && Indexed(s, rank, at, hash) && Linked(s', rank) && |s'| == |s| && Nexts(s') == Nexts(s)
    requires forall j {:trigger s'[j]} :: 0 <= j < |s| ==> s'[j].key == s[j].key && s'[j].hash == s[j].hash
    ensures Indexed(s', rank, at, hash)
  {
    hide Linked;
    hide Reaches;
    hide Nexts;
    forall l {:trigger at[l]} {:trigger Found(s', rank, at, hash, l)} ensures Found(s', rank, at, hash, l) {
      assert Found(s, rank, at, hash, l);
    }
    forall j {:trigger s'[j]} | 0 <= j < |s'| && s'[j].key.Some?
      ensures s'[j].key.value in at && at[s'[j].key.value] == j
    {
      assert s'[j].key == s[j].key;
    }
  }

  // What the methods of the map need

  ghost predicate Sound(s: seq<Slot>, rank: seq<real>, at: map<Key, nat>, hash: Key -> nat, size: nat) {
    |s| > 0 && Indexed(s, rank, at, hash) && |Used(s)| == size
  }

  lemma IndexedAt(s: seq<Slot>, rank: seq<real>, at: map<Key, nat>, hash: Key -> nat)
    requires |s| > 0 && Indexed(s, rank, at, hash)
    ensures forall k {:trigger at[k]} :: k in at ==> at[k] < |s| && s[at[k]].key == Some(k) && s[at[k]].hash == hash(k)
    ensures Keyed(s, at)
  {
    hide Reaches;
    forall k {:trigger at[k]} | k in at ensures at[k] < |s| && s[at[k]].key == Some(k) && s[at[k]].hash == hash(k) {
      assert Found(s, rank, at, hash, k);
    }
  }

  /** Each used slot is where its key is; only used slots have a pointer. */
  ghost predicate Keyed(s: seq<Slot>, at: map<Key, nat>) {
    forall i {:trigger s[i]} :: 0 <= i < |s| ==>
      && (s[i].key.Some? ==> s[i].key.value in at && at[s[i].key.value] == i)
      && (s[i].pointer.Some? ==> s[i].key.Some?)
  }

  lemma ContentsMore(s: seq<Slot>, s': seq<Slot>, at: map<Key, nat>, e: nat, k: Key, v: Option<Value>)
    requires k !in at && |s'| == |s| && e < |s| && s'[e].pointer == v
    requires forall l {:trigger at[l]} :: l in at ==> at[l] < |s| && s'[at[l]].pointer == s[at[l]].pointer
    ensures Contents(s', at[k := e]) == Contents(s, at)[k := v]
  {
  }

  lemma AddAtHome(s: seq<Slot>, rank: seq<real>, at: map<Key, nat>, hash: Key -> nat, size: nat, k: Key,
                  v: Option<Value>)
    requires Sound(s, rank, at, hash, size) && k !in at
    requires s[Home(hash(k), |s|)].key.None?
    ensures var h := Home(hash(k), |s|);
            var s', at' := AtHome(s, h, k, hash(k), v), at[k := h];
            Sound(s', rank, at', hash, size + 1) && Contents(s', at') == Contents(s, at)[k := v]
  {
    var h := Home(hash(k), |s|);
    AtHomeIndexed(s, rank, at, hash, k, v);
    AtHomeLinked(s, rank, h, k, hash(k), v);
    UsedMore(s, AtHome(s, h, k, hash(k), v), h);
    IndexedAt(s, rank, at, hash);
    hide Indexed;
    hide Used;
    hide AtHome;
    ContentsMore(s, AtHome(s, h, k, hash(k), v), at, h, k, v);
    hide Contents;
  }

  lemma AddBehind(s: seq<Slot>, rank: seq<real>, at: map<Key, nat>, hash: Key -> nat, size: nat, h: nat, e: nat, k: Key,
                  v: Option<Value>)
    requires Sound(s, rank, at, hash, size) && k !in at && e < |s| && s[e].key.None?
    requires InChain(s, rank, hash, k, h)
    ensures var s', at', rank' := Behind(s, h, e, k, hash(k), v), at[k := e], rank[e := RankBetween(Nexts(s), rank, h)];
            Sound(s', rank', at', hash, size + 1) && Contents(s', at') == Contents(s, at)[k := v]
  {
    BehindIndexed(s, rank, at, hash, h, e, k, v);
    BehindLinked(s, rank, h, e, k, hash(k), v);
    UsedMore(s, Behind(s, h, e, k, hash(k), v), e);
    IndexedAt(s, rank, at, hash);
    hide Indexed;
    hide Used;
    hide Behind;
    hide RankBetween;
    ContentsMore(s, Behind(s, h, e, k, hash(k), v), at, e, k, v);
    hide Contents;
  }

  lemma SetSound(s: seq<Slot>, rank: seq<real>, at: map<Key, nat>, hash: Key -> nat, size: nat, i: nat,
                 v: Option<Value>)
    requires Sound(s, rank, at, hash, size) && i < |s| && s[i].key.Some?
    ensures var s' := s[i := s[i].(pointer := v)];
            Sound(s', rank, at, hash, size) && Contents(s', at) == Contents(s, at)[s[i].key.value := v]
  {
    var s' := s[i := s[i].(pointer := v)];
    SetIndexed(s, rank, at, hash, i, v);
    IndexedAt(s, rank, at, hash);
    hide Indexed;
    assert Used(s') == Used(s);
    assert s[i].key.value in at && at[s[i].key.value] == i;
  }

  lemma EmptySound(s: seq<Slot>, rank: seq<real>, hash: Key -> nat)
    requires |s| > 0 && |rank| == |s| && forall i {:trigger s[i]} :: 0 <= i < |s| ==> s[i] == EMPTY
    ensures Sound(s, rank, map[], hash, 0) && Contents(s, map[]) == map[]
  {
    assert Used(s) == {};
    forall i {:trigger Nexts(s)[i]} | 0 <= i < |s| ensures Nexts(s)[i] == -1 { assert s[i] == EMPTY; }
  }

  /** A walk that looks for `k` is at slot `j`. */
  ghost predicate OnTrack(s: seq<Slot>, rank: seq<real>, at: map<Key, nat>, hash: Key -> nat, j: nat, k: Key) {
    |s| > 0 && Indexed(s, rank, at, hash) && j < |s| && (k in at ==> Reaches(Nexts(s), rank, j, at[k]))
  }

  /** Why the walk along a chain finds what it looks for. */
  lemma WalkOn(s: seq<Slot>, rank: seq<real>, at: map<Key, nat>, hash: Key -> nat, j: nat, k: Key)
    requires OnTrack(s, rank, at, hash, j, k)
    ensures j < |s|
    ensures s[j].key == Some(k) ==> k in at && at[k] == j && s[j].hash == hash(k)
    ensures s[j].key != Some(k) && s[j].next == 0 ==> k !in at
    ensures s[j].key != Some(k) && s[j].next > 0 ==>
              OnTrack(s, rank, at, hash, s[j].next - 1, k) && Steps(rank, s[j].next - 1) < Steps(rank, j)
  {
    hide Found;
    hide Reaches;
    hide Steps;
    IndexedAt(s, rank, at, hash);
    var next := Nexts(s);
    assert Chained(next, rank) && next[j] == s[j].next - 1;
    if next[j] >= 0 { StepsFall(next, rank, j); }
    if k in at && at[k] != j { ReachesFrom(next, rank, j, at[k]); }
  }

  lemma WalkStart(s: seq<Slot>, rank: seq<real>, at: map<Key, nat>, hash: Key -> nat, k: Key)
    requires |s| > 0 && Indexed(s, rank, at, hash)
    ensures OnTrack(s, rank, at, hash, Home(hash(k), |s|), k)
  {
    if k in at { assert Found(s, rank, at, hash, k) by { var _ := at[k]; } }
  }

  /** A search that starts at the home slot meets a slot without a key exactly there, and compares
      with it exactly if the hash is that of an empty slot. */
  lemma HomeEmpty(s: seq<Slot>, rank: seq<real>, at: map<Key, nat>, hash: Key -> nat, k: Key)
    requires |s| > 0 && Indexed(s, rank, at, hash) && s[Home(hash(k), |s|)].key.None?
    ensures k !in at && s[Home(hash(k), |s|)] == EMPTY
  {
    if k in at {
      assert Found(s, rank, at, hash, k) by { var _ := at[k]; }
      HomeUsed(s, rank, at, hash, k);
    }
  }

  /** A walk through used slots. */
  ghost predicate OnChain(s: seq<Slot>, rank: seq<real>, at: map<Key, nat>, hash: Key -> nat, j: nat, k: Key) {
    OnTrack(s, rank, at, hash, j, k) && InChain(s, rank, hash, k, j)
  }

  lemma ChainStart(s: seq<Slot>, rank: seq<real>, at: map<Key, nat>, hash: Key -> nat, k: Key)
    requires |s| > 0 && Indexed(s, rank, at, hash) && s[Home(hash(k), |s|)].key.Some?
    ensures OnChain(s, rank, at, hash, Home(hash(k), |s|), k)
  {
    WalkStart(s, rank, at, hash, k);
    ReachesSelf(Nexts(s), rank, Home(hash(k), |s|));
  }

  lemma HomeIs(s: seq<Slot>, rank: seq<real>, at: map<Key, nat>, hash: Key -> nat, size: nat, k: Key)
    requires Sound(s, rank, at, hash, size)
    ensures |s| > 0 && (hash(k) == 0 ==> Home(hash(k), |s|) == 0)
    ensures var h := Home(hash(k), |s|);
            if s[h].key.Some? then OnChain(s, rank, at, hash, h, k) else k !in at && s[h].hash == 0
  {
    hide OnChain;
    hide Indexed;
    if s[Home(hash(k), |s|)].key.Some? {
      ChainStart(s, rank, at, hash, k);
    } else {
      HomeEmpty(s, rank, at, hash, k);
    }
  }

  lemma ChainOn(s: seq<Slot>, rank: seq<real>, at: map<Key, nat>, hash: Key -> nat, j: nat, k: Key)
    requires OnChain(s, rank, at, hash, j, k)
    ensures j < |s| && s[j].key.Some?
    ensures s[j].key == Some(k) ==> k in at && at[k] == j && s[j].hash == hash(k)
    ensures s[j].key != Some(k) && s[j].next == 0 ==> k !in at
    ensures s[j].key != Some(k) && s[j].next > 0 ==>
              OnChain(s, rank, at, hash, s[j].next - 1, k) && Steps(rank, s[j].next - 1) < Steps(rank, j)
  {
    WalkOn(s, rank, at, hash, j, k);
    ReachesThen(Nexts(s), rank, Home(hash(k), |s|), j);
    assert Nexts(s)[j] == s[j].next - 1;
  }

  /** The entries of the first `i` slots. */
  ghost predicate Moved(m: map<Key, Option<Value>>, s: seq<Slot>, at: map<Key, nat>, i: nat)
    requires forall k :: k in at ==> at[k] < |s|
  {
    forall k {:trigger k in m} {:trigger k in at} ::
      && (k in m <==> k in at && at[k] < i)
      && (k in m ==> m[k] == s[at[k]].pointer)
  }

  lemma MovedNext(m: map<Key, Option<Value>>, s: seq<Slot>, rank: seq<real>, at: map<Key, nat>, hash: Key -> nat,
                  i: nat)
    requires |s| > 0 && Indexed(s, rank, at, hash) && i < |s| && s[i].key.Some?
    requires (forall k :: k in at ==> at[k] < |s|) && Moved(m, s, at, i)
    ensures var k := s[i].key.value; k !in m && Moved(m[k := s[i].pointer], s, at, i + 1) && s[i].hash == hash(k)
  {
    IndexedAt(s, rank, at, hash);
    hide Indexed;
    var k := s[i].key.value;
    var m' := m[k := s[i].pointer];
    assert k in at && at[k] == i;
    assert k !in m;
    forall x {:trigger x in m'} {:trigger x in at}
      ensures (x in m' <==> x in at && at[x] < i + 1) && (x in m' ==> m'[x] == s[at[x]].pointer)
    {
      if x != k && x in at { assert s[at[x]].key == Some(x); }
      assert x in m <==> x in at && at[x] < i;
    }
  }

  lemma MovedAll(m: map<Key, Option<Value>>, s: seq<Slot>, at: map<Key, nat>)
    requires (forall k :: k in at ==> at[k] < |s|) && Moved(m, s, at, |s|)
    ensures m == Contents(s, at)
  {
  }

  lemma NextSlot(e: nat, n: nat)
    requires e < n
    ensures (e + 1) % n == if e + 1 == n then 0 else e + 1
  {
  }

  // Iteration

  /** What _pbcM_sp_next returns when its scan begins at slot `from`. */
  ghost predicate NextFrom(s: seq<Slot>, at: map<Key, nat>, from: nat, next: Option<Key>, v: Option<Value>) {
    match next
    case None => v.None? && forall j :: from <= j < |s| ==> s[j].pointer.None?
    case Some(k) =>
      && k in at && from <= at[k] < |s| && s[at[k]].pointer == v && v.Some?
      && forall j :: from <= j < at[k] ==> s[j].pointer.None?
  }

  ghost predicate ScannedTo(s: seq<Slot>, from: nat, i: nat) {
    forall j :: from <= j < i && j < |s| ==> s[j].pointer.None?
  }

  lemma NothingScanned(s: seq<Slot>, from: nat)
    ensures ScannedTo(s, from, from)
  {
  }

  lemma ScannedMore(s: seq<Slot>, from: nat, i: nat)
    requires ScannedTo(s, from, i) && i < |s| && s[i].pointer.None?
    ensures ScannedTo(s, from, i + 1)
  {
  }

  lemma ScanFound(s: seq<Slot>, at: map<Key, nat>, from: nat, i: nat)
    requires Keyed(s, at) && from <= i < |s| && ScannedTo(s, from, i) && s[i].pointer.Some?
    ensures NextFrom(s, at, from, s[i].key, s[i].pointer)
  {
  }

  lemma ScanEnd(s: seq<Slot>, at: map<Key, nat>, from: nat, i: nat)
    requires ScannedTo(s, from, i) && i >= |s|
    ensures NextFrom(s, at, from, None, None)
  {
  }

  /** `ks` are the keys with a pointer in the slots before `from`, each of them once. */
  ghost predicate Visited(s: seq<Slot>, at: map<Key, nat>, ks: seq<Key>, from: nat) {
    && (forall i {:trigger ks[i]} :: 0 <= i < |ks| ==>
         ks[i] in at && at[ks[i]] < from && at[ks[i]] < |s| && s[at[ks[i]]].pointer.Some?)
    && (forall i, j {:trigger ks[i], ks[j]} :: 0 <= i < j < |ks| ==> at[ks[i]] < at[ks[j]])
    && (forall k {:trigger at[k]} :: k in at && at[k] < from && at[k] < |s| && s[at[k]].pointer.Some? ==> k in ks)
  }

  lemma NextIsLater(s: seq<Slot>, at: map<Key, nat>, from: nat, k: Key, v: Option<Value>)
    requires NextFrom(s, at, from, Some(k), v)
    ensures k in at && from <= at[k] < |s|
  {
  }

  lemma VisitedNone(s: seq<Slot>, at: map<Key, nat>)
    ensures Visited(s, at, [], 0)
  {
  }

  lemma VisitedMore(s: seq<Slot>, at: map<Key, nat>, ks: seq<Key>, from: nat, k: Key, v: Option<Value>)
    requires Visited(s, at, ks, from) && NextFrom(s, at, from, Some(k), v)
    requires forall l {:trigger at[l]} :: l in at ==> at[l] < |s| && s[at[l]].key == Some(l)
    ensures Visited(s, at, ks + [k], at[k] + 1)
  {
    var ks' := ks + [k];
    forall l {:trigger at[l]} | l in at && at[l] < at[k] + 1 && at[l] < |s| && s[at[l]].pointer.Some?
      ensures l in ks'
    {
      if at[l] < from {
        assert l in ks;
      } else if at[l] == at[k] {
        assert s[at[l]].key == Some(l) && s[at[k]].key == Some(k);
        assert ks'[|ks|] == k;
      }
    }
  }

  lemma VisitedAll(s: seq<Slot>, at: map<Key, nat>, ks: seq<Key>, from: nat)
    requires Visited(s, at, ks, from) && NextFrom(s, at, from, None, None)
    requires forall l {:trigger at[l]} :: l in at ==> at[l] < |s| && s[at[l]].key == Some(l)
    ensures forall k :: k in ks <==> k in at && Contents(s, at)[k].Some?
    ensures forall i, j :: 0 <= i < j < |ks| ==> ks[i] != ks[j]
  {
    forall k ensures k in ks <==> k in at && Contents(s, at)[k].Some? {
      if k in ks {
        var i :| 0 <= i < |ks| && ks[i] == k;
        assert at[ks[i]] < |s|;
      }
      if k in at && Contents(s, at)[k].Some? { assert s[at[k]].pointer.Some?; }
    }
    forall i, j | 0 <= i < j < |ks| ensures ks[i] != ks[j] { assert at[ks[i]] < at[ks[j]]; }
  }
}
