/** Chains of array slots that are linked by index: next[i] follows i, -1 ends a chain. */
module Chains {

  /** Ranks fall along every chain, which is why chains end. */
  ghost predicate Chained(next: seq<int>, rank: seq<real>) {
    && |rank| == |next|
    && forall i {:trigger next[i]} :: 0 <= i < |next| ==>
         -1 <= next[i] < |next| && (next[i] >= 0 ==> rank[next[i]] < rank[i])
  }

  ghost function Below(rank: seq<real>, r: real): set<int> { set j | 0 <= j < |rank| && rank[j] < r }

  /** A bound for the steps that a walk from slot `i` can still make. */
  ghost function Steps(rank: seq<real>, i: int): nat { if 0 <= i < |rank| then |Below(rank, rank[i])| else 0 }

  lemma StepsFall(next: seq<int>, rank: seq<real>, i: nat)
    requires Chained(next, rank) && i < |next| && next[i] >= 0
    ensures Steps(rank, next[i]) < Steps(rank, i)
  {
    var a, b := Below(rank, rank[next[i]]), Below(rank, rank[i]);
    assert next[i] in b && next[i] !in a;
    SubsetSize(a, b - {next[i]});
    assert |b - {next[i]}| == |b| - 1;
  }

  lemma {:induction false} SubsetSize<T>(a: set<T>, b: set<T>)
    requires a <= b
    ensures |a| <= |b|
  {
    if a != {} {
      var x :| x in a;
      SubsetSize(a - {x}, b - {x});
    }
  }

  ghost function Range(n: nat): set<int> { if n == 0 then {} else Range(n - 1) + {n - 1} }

  lemma {:induction false} RangeIs(n: nat)
    ensures |Range(n)| == n && forall i :: i in Range(n) <==> 0 <= i < n
  {
    if n > 0 { RangeIs(n - 1); }
  }

  /** Slot `t` is in the chain from slot `i` on. */
  ghost predicate Reaches(next: seq<int>, rank: seq<real>, i: nat, t: nat)
    requires Chained(next, rank) && i < |next|
    decreases Steps(rank, i)
  {
    i == t || (next[i] >= 0 && (StepsFall(next, rank, i); Reaches(next, rank, next[i], t)))
  }

  lemma ReachesSelf(next: seq<int>, rank: seq<real>, i: nat)
    requires Chained(next, rank) && i < |next|
    ensures Reaches(next, rank, i, i)
  {
  }

  lemma ReachesOn(next: seq<int>, rank: seq<real>, i: nat, t: nat)
    requires Chained(next, rank) && i < |next| && next[i] >= 0 && Reaches(next, rank, next[i], t)
    ensures Reaches(next, rank, i, t)
  {
    StepsFall(next, rank, i);
  }

  lemma ReachesFrom(next: seq<int>, rank: seq<real>, i: nat, t: nat)
    requires Chained(next, rank) && i < |next| && Reaches(next, rank, i, t) && i != t
    ensures next[i] >= 0 && Reaches(next, rank, next[i], t) && Steps(rank, next[i]) < Steps(rank, i)
  {
    StepsFall(next, rank, i);
  }

  /** Slot `e` linked in behind slot `h`. */
  function Link(next: seq<int>, h: nat, e: nat): seq<int>
    requires h < |next| && e < |next|
  {
    next[e := next[h]][h := e]
  }

  ghost function RankBetween(next: seq<int>, rank: seq<real>, h: nat): real
    requires Chained(next, rank) && h < |next|
  {
    if next[h] < 0 then rank[h] - 1.0 else (rank[h] + rank[next[h]]) / 2.0
  }

  ghost predicate Free(next: seq<int>, e: nat) { forall i {:trigger next[i]} :: 0 <= i < |next| ==> next[i] != e }

  lemma LinkChained(next: seq<int>, rank: seq<real>, h: nat, e: nat)
    requires Chained(next, rank) && h < |next| && e < |next| && h != e && Free(next, e)
    ensures Chained(Link(next, h, e), rank[e := RankBetween(next, rank, h)])
  {
    var next', rank' := Link(next, h, e), rank[e := RankBetween(next, rank, h)];
    assert next[h] >= 0 ==> next[h] != e && rank[next[h]] < RankBetween(next, rank, h);
    assert RankBetween(next, rank, h) < rank[h];
    hide RankBetween;
    forall i {:trigger next'[i]} | 0 <= i < |next'|
      ensures -1 <= next'[i] < |next'| && (next'[i] >= 0 ==> rank'[next'[i]] < rank'[i])
    {
      if i != e && i != h { assert next'[i] == next[i] && next[i] != e; }
    }
  }

  /** Linking a slot in keeps what every other slot reaches. */
  lemma {:induction false} ReachesLinked(next: seq<int>, rank: seq<real>, h: nat, e: nat, i: nat, t: nat)
    requires Chained(next, rank) && h < |next| && e < |next| && h != e && Free(next, e)
    requires i < |next| && i != e && Reaches(next, rank, i, t)
    requires Chained(Link(next, h, e), rank[e := RankBetween(next, rank, h)])
    ensures Reaches(Link(next, h, e), rank[e := RankBetween(next, rank, h)], i, t)
    decreases Steps(rank, i)
  {
    var next', rank' := Link(next, h, e), rank[e := RankBetween(next, rank, h)];
    if i == t {
      ReachesSelf(next', rank', i);
    } else {
      ReachesFrom(next, rank, i, t);
      assert next[i] != e;
      ReachesLinked(next, rank, h, e, next[i], t);
      if i == h {
        assert next'[h] == e && next'[e] == next[h];
        hide Link;
        ReachesOn(next', rank', e, t);
        ReachesOn(next', rank', h, t);
      } else {
        assert next'[i] == next[i];
        hide Link;
        ReachesOn(next', rank', i, t);
      }
    }
  }

  lemma ReachesNew(next: seq<int>, rank: seq<real>, h: nat, e: nat)
    requires h < |next| && e < |next| && h != e && |rank| == |next|
    requires Chained(next, rank) && Chained(Link(next, h, e), rank[e := RankBetween(next, rank, h)])
    ensures Reaches(Link(next, h, e), rank[e := RankBetween(next, rank, h)], h, e)
  {
    var next', rank' := Link(next, h, e), rank[e := RankBetween(next, rank, h)];
    assert next'[h] == e;
    ReachesSelf(next', rank', e);
    ReachesOn(next', rank', h, e);
  }

  lemma {:induction false} ReachesThen(next: seq<int>, rank: seq<real>, i: nat, t: nat)
    requires Chained(next, rank) && i < |next| && Reaches(next, rank, i, t)
    ensures t < |next| && (next[t] >= 0 ==> Reaches(next, rank, i, next[t]))
    decreases Steps(rank, i)
  {
    if i == t {
      if next[t] >= 0 {
        ReachesSelf(next, rank, next[t]);
        ReachesOn(next, rank, i, next[t]);
      }
    } else {
      ReachesFrom(next, rank, i, t);
      ReachesThen(next, rank, next[i], t);
      if next[t] >= 0 { ReachesOn(next, rank, i, next[t]); }
    }
  }
}
