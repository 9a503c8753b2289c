/** skynet_handle.c: the sorted table of names. */
module HandleNames {

  datatype Name = Name(name: string, handle: nat)

  /** The sign of strcmp. */
  function Compare(a: string, b: string): int {
    if a == [] then (if b == [] then 0 else -1)
    else if b == [] then 1
    else if a[0] < b[0] then -1
    else if a[0] > b[0] then 1
    else Compare(a[1..], b[1..])
  }

  lemma {:induction false} CompareEqual(a: string, b: string)
    ensures Compare(a, b) == 0 <==> a == b
  {
    if a != [] && b != [] {
      CompareEqual(a[1..], b[1..]);
      assert a == [a[0]] + a[1..] && b == [b[0]] + b[1..];
    }
  }

  lemma {:induction false} CompareSwapped(a: string, b: string)
    ensures Compare(a, b) == -Compare(b, a)
  {
    if a != [] && b != [] { CompareSwapped(a[1..], b[1..]); }
  }

  lemma {:induction false} CompareTransitive(a: string, b: string, c: string)
    requires Compare(a, b) < 0 && Compare(b, c) < 0
    ensures Compare(a, c) < 0
  {
    if a != [] && b != [] && c != [] && a[0] == b[0] == c[0] { CompareTransitive(a[1..], b[1..], c[1..]); }
  }

  /** Sorted, and no name twice. */
  ghost predicate Sorted(s: seq<Name>) {
    forall i, j {:trigger s[i], s[j]} :: 0 <= i < j < |s| ==> Compare(s[i].name, s[j].name) < 0
  }

  ghost predicate Named(s: seq<Name>, n: string, h: nat) { exists i :: 0 <= i < |s| && s[i] == Name(n, h) }

  /** All names before `begin` are smaller than `n`, all names from `end` on are larger. */
  ghost predicate Between(s: seq<Name>, n: string, begin: int, end: int) {
    && 0 <= begin <= end <= |s|
    && (forall i {:trigger s[i]} :: 0 <= i < begin ==> Compare(s[i].name, n) < 0)
    && (forall i {:trigger s[i]} :: end <= i < |s| ==> Compare(s[i].name, n) > 0)
  }

  lemma SmallerBefore(s: seq<Name>, n: string, begin: int, end: int, mid: nat)
    requires Sorted(s) && Between(s, n, begin, end) && begin <= mid < end && Compare(s[mid].name, n) < 0
    ensures Between(s, n, mid + 1, end)
  {
    forall i {:trigger s[i]} | 0 <= i < mid + 1 ensures Compare(s[i].name, n) < 0 {
      if i < mid { CompareTransitive(s[i].name, s[mid].name, n); }
    }
  }

  lemma LargerAfter(s: seq<Name>, n: string, begin: int, end: int, mid: nat)
    requires Sorted(s) && Between(s, n, begin, end) && begin <= mid < end && Compare(s[mid].name, n) > 0
    ensures Between(s, n, begin, mid)
  {
    forall i {:trigger s[i]} | mid <= i < |s| ensures Compare(s[i].name, n) > 0 {
      if i > mid {
        CompareSwapped(s[mid].name, n);
        CompareTransitive(n, s[mid].name, s[i].name);
        CompareSwapped(s[i].name, n);
      }
    }
  }

  lemma NotNamed(s: seq<Name>, n: string, at: int)
    requires Between(s, n, at, at)
    ensures forall h: nat :: !Named(s, n, h)
  {
    forall i | 0 <= i < |s| ensures s[i].name != n {
      CompareEqual(s[i].name, n);
      assert i < at || i >= at;
    }
  }

  lemma NamedOnce(s: seq<Name>, i: nat, h: nat)
    requires Sorted(s) && i < |s| && Named(s, s[i].name, h)
    ensures h == s[i].handle
  {
    var j :| 0 <= j < |s| && s[j] == Name(s[i].name, h);
    CompareEqual(s[i].name, s[i].name);
  }

  function Inserted(s: seq<Name>, at: nat, x: Name): seq<Name>
    requires at <= |s|
  {
    s[..at] + [x] + s[at..]
  }

  lemma InsertSorted(s: seq<Name>, at: nat, x: Name)
    requires Sorted(s) && at <= |s| && Between(s, x.name, at, at)
    ensures Sorted(Inserted(s, at, x))
    ensures forall n: string, h: nat :: Named(Inserted(s, at, x), n, h) <==>
              Named(s, n, h) || (n == x.name && h == x.handle)
  {
    var t := Inserted(s, at, x);
    forall i, j {:trigger t[i], t[j]} | 0 <= i < j < |t| ensures Compare(t[i].name, t[j].name) < 0 {
      if i == at { CompareSwapped(t[j].name, x.name); assert t[j] == s[j - 1]; }
      else if j == at { assert t[i] == s[i]; }
      else {
        var p, q := if i < at then i else i - 1, if j < at then j else j - 1;
        assert t[i] == s[p] && t[j] == s[q] && p < q;
      }
    }
    hide Compare;
    InsertNamed(s, at, x);
  }

  lemma InsertNamed(s: seq<Name>, at: nat, x: Name)
    requires at <= |s|
    ensures forall n: string, h: nat :: Named(Inserted(s, at, x), n, h) <==>
              Named(s, n, h) || (n == x.name && h == x.handle)
  {
    var t := Inserted(s, at, x);
    forall n: string, h: nat ensures Named(t, n, h) <==> Named(s, n, h) || (n == x.name && h == x.handle) {
      if Named(s, n, h) {
        var i :| 0 <= i < |s| && s[i] == Name(n, h);
        assert t[if i < at then i else i + 1] == s[i];
      }
      if Named(t, n, h) {
        var i :| 0 <= i < |t| && t[i] == Name(n, h);
        if i != at { assert s[if i < at then i else i - 1] == t[i]; }
      }
      assert t[at] == x;
    }
  }

  /** What is left when the names of a handle are taken out, in order. */
  function Without(s: seq<Name>, h: nat): (r: seq<Name>)
    ensures |r| <= |s|
  {
    if s == [] then []
    else Without(s[..|s| - 1], h) + (if s[|s| - 1].handle == h then [] else [s[|s| - 1]])
  }

  lemma {:induction false} WithoutNamed(s: seq<Name>, h: nat, n: string, g: nat)
    ensures Named(Without(s, h), n, g) <==> Named(s, n, g) && g != h
  {
    if s != [] {
      var f, x := s[..|s| - 1], s[|s| - 1];
      WithoutNamed(f, h, n, g);
      NamedSnoc(f, x, n, g);
      assert f + [x] == s;
      NamedSnoc(Without(f, h), x, n, g);
      assert Without(s, h) == if x.handle == h then Without(f, h) else Without(f, h) + [x];
    }
  }

  lemma WithoutNothing(h: nat)
    ensures Without([], h) == []
  {
  }

  lemma WithoutNext(s: seq<Name>, i: nat, h: nat)
    requires i < |s|
    ensures Without(s[..i + 1], h) == Without(s[..i], h) + (if s[i].handle == h then [] else [s[i]])
  {
    assert s[..i + 1][..i] == s[..i];
  }

  lemma NamedSnoc(s: seq<Name>, x: Name, n: string, h: nat)
    ensures Named(s + [x], n, h) <==> Named(s, n, h) || x == Name(n, h)
  {
    if Named(s, n, h) {
      var i :| 0 <= i < |s| && s[i] == Name(n, h);
      assert (s + [x])[i] == s[i];
    }
    if x == Name(n, h) { assert (s + [x])[|s|] == x; }
  }

  lemma {:induction false} WithoutSorted(s: seq<Name>, h: nat)
    requires Sorted(s)
    ensures Sorted(Without(s, h))
    ensures forall x :: x in Without(s, h) ==> x in s
  {
    if s != [] {
      var f, x := s[..|s| - 1], s[|s| - 1];
      WithoutSorted(f, h);
      var r := Without(s, h);
      forall i, j {:trigger r[i], r[j]} | 0 <= i < j < |r| ensures Compare(r[i].name, r[j].name) < 0 {
        var w := Without(f, h);
        assert r[i] == w[i] && w[i] in w;
        if j < |w| { assert r[j] == w[j]; }
      }
    }
  }

  /** The names with a gap at `before`. */
  ghost predicate Apart(s: seq<Name>, t: seq<Name>, n: nat, before: nat) {
    && before <= n <= |s| && n < |t|
    && (forall j {:trigger t[j]} :: 0 <= j < before ==> t[j] == s[j])
    && (forall j {:trigger t[j]} :: before < j <= n ==> t[j] == s[j - 1])
  }

  lemma InsertedIs(s: seq<Name>, before: nat, x: Name, t: seq<Name>)
    requires Apart(s, t, |s|, before) && |t| == |s| + 1 && t[before] == x
    ensures t == Inserted(s, before, x)
  {
  }

  method CopyApart(name: array<Name>, n: nat, before: nat) returns (a: array<Name>)
    requires before <= n == name.Length && n > 0
    ensures fresh(a) && a.Length == 2 * n && Apart(name[..], a[..], n, before)
  {
    a := new Name[2 * n](_ => Name("", 0));
    forall i | 0 <= i < before { a[i] := name[i]; }
    forall i | before <= i < n { a[i + 1] := name[i]; }
  }

  method MoveApart(name: array<Name>, n: nat, before: nat)
    requires before <= n < name.Length
    modifies name
    ensures Apart(old(name[..]), name[..], n, before)
  {
    ghost var s := name[..];
    var i := n;
    while i > before
      invariant before <= i <= n
      invariant forall j :: 0 <= j < i ==> name[j] == s[j]
      invariant forall j :: i < j <= n ==> name[j] == s[j - 1]
    {
      name[i] := name[i - 1];
      i := i - 1;
    }
  }

  class NameTable {
    var name: array<Name>
    var nameCount: nat

    ghost predicate Valid()
      reads this, name
    {
      nameCount <= name.Length && 0 < name.Length && Sorted(name[..nameCount])
    }

    ghost function Names(): seq<Name>
      reads this, name
      requires Valid()
    {
      name[..nameCount]
    }

    constructor ()
      ensures Valid() && Names() == [] && fresh(name)
    {
      name := new Name[2](_ => Name("", 0));
      nameCount := 0;
    }

    /** The binary search of findname and _insert_name: the index of the name, or the place for it. */
    method Search(n: string) returns (found: bool, at: nat)
      requires Valid()
      ensures at <= nameCount
      ensures if found then at < nameCount && Names()[at].name == n else Between(Names(), n, at, at)
    {
      ghost var s := name[..nameCount];
      var begin, end := 0, nameCount as int - 1;
      while begin <= end
        invariant Between(s, n, begin, end + 1)
        decreases end + 1 - begin
      {
        var mid := (begin + end) / 2;
        assert s[mid] == name[mid];
        var c := Compare(name[mid].name, n);
        CompareEqual(name[mid].name, n);
        if c == 0 { return true, mid; }
        if c < 0 {
          SmallerBefore(s, n, begin, end + 1, mid);
          begin := mid + 1;
        } else {
          LargerAfter(s, n, begin, end + 1, mid);
          end := mid - 1;
        }
      }
      return false, begin;
    }

    /** skynet_handle_findname: 0 if there is no such name. */
    method FindName(n: string) returns (h: nat)
      requires Valid()
      ensures forall g: nat :: Named(Names(), n, g) ==> h == g
      ensures (forall g: nat :: !Named(Names(), n, g)) ==> h == 0
    {
      ghost var s := Names();
      var found, at := Search(n);
      if !found {
        NotNamed(s, n, at);
        return 0;
      }
      h := name[at].handle;
      assert s[at] == Name(n, h) && Named(s, n, h);
      forall g: nat | Named(s, n, g) ensures h == g { NamedOnce(s, at, g); }
    }

    /** skynet_handle_namehandle: fails if the name is taken. */
    method NameHandle(h: nat, n: string) returns (ok: bool)
      requires Valid()
      modifies this, name
      ensures Valid() && (name == old(name) || fresh(name))
      ensures ok <==> forall g: nat :: !Named(old(Names()), n, g)
      ensures !ok ==> Names() == old(Names())
      ensures ok ==> forall m: string, g: nat :: Named(Names(), m, g) <==>
                Named(old(Names()), m, g) || (m == n && g == h)
    {
      ghost var s := Names();
      var found, at := Search(n);
      if found {
        assert s[at] == Name(n, s[at].handle) && Named(s, n, s[at].handle);
        return false;
      }
      NotNamed(s, n, at);
      InsertSorted(s, at, Name(n, h));
      InsertBefore(Name(n, h), at);
      ok := true;
    }

    /** _insert_name_before */
    method InsertBefore(x: Name, before: nat)
      requires nameCount <= name.Length && 0 < name.Length && before <= nameCount
      modifies this, name
      ensures nameCount == old(nameCount) + 1 <= name.Length && (name == old(name) || fresh(name))
      ensures name[..nameCount] == Inserted(old(name[..nameCount]), before, x)
    {
      ghost var s := name[..nameCount];
      if nameCount >= name.Length {
        name := CopyApart(name, nameCount, before);
      } else {
        MoveApart(name, nameCount, before);
      }
      name[before] := x;
      nameCount := nameCount + 1;
      InsertedIs(s, before, x, name[..nameCount]);
    }

    /** The names' part of skynet_handle_retire: those of the handle are squeezed out. */
    method RetireNames(h: nat)
      requires Valid()
      modifies this`nameCount, name
      ensures Valid() && Names() == Without(old(Names()), h)
      ensures forall n: string, g: nat :: Named(Names(), n, g) <==> Named(old(Names()), n, g) && g != h
    {
      ghost var s := Names();
      nameCount := Squeeze(name, nameCount, h);
      WithoutSorted(s, h);
      hide Without;
      forall m: string, g: nat ensures Named(Names(), m, g) <==> Named(s, m, g) && g != h { WithoutNamed(s, h, m, g); }
    }
  }

  /** Moves the entries of other handles together, in order. */
  method Squeeze(a: array<Name>, n: nat, h: nat) returns (j: nat)
    requires n <= a.Length
    modifies a
    ensures j <= n && a[..j] == Without(old(a[..n]), h)
  {
    hide Without;
    ghost var s := a[..n];
    WithoutNothing(h);
    assert s[..0] == [];
    var i := 0;
    j := 0;
    while i < n
      invariant j <= i <= n && a[..j] == Without(s[..i], h)
      invariant forall k :: i <= k < n ==> a[k] == s[k]
    {
      WithoutNext(s, i, h);
      if a[i].handle != h {
        a[j] := a[i];
        j := j + 1;
      }
      i := i + 1;
    }
    assert s[..n] == s;
  }
}
