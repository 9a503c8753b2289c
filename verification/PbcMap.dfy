/** pbc/src/map.c: the string map map_sp. */
module PbcMap {
  import opened Chains
  import opened PbcChains
  import opened Wrappers

  /** The walk along a chain that should lead to `k`: where it is found, or the end of the chain. */
  method Walk(slot: array<Slot>, ghost rank: seq<real>, ghost at: map<Key, nat>, hash: Key -> nat, h: nat, k: Key)
    returns (found: bool, i: nat)
    requires OnChain(slot[..], rank, at, hash, h, k)
    ensures i < slot.Length && found == (k in at) && (found ==> i == at[k])
    ensures OnChain(slot[..], rank, at, hash, i, k) && (!found ==> slot[i].next == 0)
  {
    hide *;
    ghost var s := slot[..];
    i := h;
    while true
      invariant OnChain(s, rank, at, hash, i, k)
      decreases Steps(rank, i)
    {
      ChainOn(s, rank, at, hash, i, k);
      var c := slot[i];
      assert s[i] == c;
      if c.hash == hash(k) && c.key == Some(k) { return true, i; }
      if c.next == 0 { return false, i; }
      i := c.next - 1;
    }
  }

  /** The outcome of a search that compares keys: the comparison with the null key of an empty slot
      faults. */
  datatype Search = NullKey | Absent | At(i: nat)

  method Scan(slot: array<Slot>, from: nat, ghost rank: seq<real>, ghost at: map<Key, nat>, hash: Key -> nat)
    returns (next: Option<Key>, v: Option<Value>)
    requires slot.Length > 0 && Indexed(slot[..], rank, at, hash)
    ensures NextFrom(slot[..], at, from, next, v)
  {
    ghost var s := slot[..];
    IndexedAt(s, rank, at, hash);
    hide *;
    hide NextFrom;
    var i := from;
    assert ScannedTo(s, from, i) by { NothingScanned(s, from); }
    while i < slot.Length
      invariant from <= i && ScannedTo(s, from, i)
    {
      var c := slot[i];
      assert s[i] == c;
      if c.pointer.Some? {
        ScanFound(s, at, from, i);
        return c.key, c.pointer;
      }
      ScannedMore(s, from, i);
      i := i + 1;
    }
    ScanEnd(s, at, from, i);
    return None, None;
  }

  /** The two slots that an insertion behind `h` writes. */
  method WriteBehind(slot: array<Slot>, h: nat, e: nat, k: Key, hash: nat, v: Option<Value>)
    requires h < slot.Length && e < slot.Length && h != e
    modifies slot
    ensures slot[..] == Behind(old(slot[..]), h, e, k, hash, v)
  {
    slot[e] := Slot(Some(k), hash, v, slot[h].next);
    slot[h] := slot[h].(next := e + 1);
  }

  class StringMap {
    var slot: array<Slot>          // cap == slot.Length
    var size: nat
    const hash: Key -> nat         // calc_hash
    ghost var rank: seq<real>
    ghost var at: map<Key, nat>

    ghost predicate Valid()
      reads this, slot
    {
      Sound(slot[..], rank, at, hash, size)
    }

    ghost function Entries(): (m: map<Key, Option<Value>>)
      reads this, slot
      requires Valid()
      ensures m.Keys == at.Keys
    {
      Contents(slot[..], at)
    }

    constructor (max: nat, hash: Key -> nat)
      ensures Valid() && Entries() == map[] && this.hash == hash && fresh(slot)
      ensures forall k :: Faults(k) <==> hash(k) == 0
    {
      var cap := 1;
      while cap < max
        invariant cap > 0
      {
        cap := cap * 2;
      }
      this.hash := hash;
      size := 0;
      slot := new Slot[cap](_ => EMPTY);
      rank := seq(cap, _ => 0.0);
      at := map[];
      new;
      EmptySound(slot[..], rank, hash);
    }

    /** The search for a free slot behind the home slot. */
    method FindEmpty(h: nat) returns (e: nat)
      requires h < slot.Length && |Used(slot[..])| < slot.Length
      ensures e < slot.Length && slot[e].key.None?
    {
      SomeEmpty(slot[..]);
      ghost var e0 :| 0 <= e0 < slot.Length && slot[..][e0].key.None?;
      NextSlot(h, slot.Length);
      e := (h + 1) % slot.Length;
      while slot[e].key.Some?
        invariant e < slot.Length
        decreases if e0 >= e then e0 - e else e0 + slot.Length - e
      {
        NextSlot(e, slot.Length);
        e := (e + 1) % slot.Length;
      }
    }

    /** _pbcM_sp_insert_hash for a key that is not in the map. */
    method InsertHash(k: Key, hashFull: nat, v: Option<Value>)
      requires Valid() && k !in Entries() && hashFull == hash(k)
      modifies this, slot
      ensures Valid() && Entries() == old(Entries())[k := v] && size == old(size) + 1
      ensures slot == old(slot) || fresh(slot)
      ensures old(size) < old(slot.Length) ==> slot == old(slot)
      decreases if size < slot.Length then 0 else 2
    {
      if size < slot.Length {
        var h := Home(hashFull, slot.Length);
        if slot[h].key.None? {
          PutAtHome(h, k, v);
        } else {
          var e := FindEmpty(h);
          HomeInChain(slot[..], rank, at, hash, k);
          PutBehind(h, e, k, v);
        }
        return;
      }
      UsedBound(slot[..]);
      Rehash();
      InsertHash(k, hashFull, v);
    }

    method PutAtHome(h: nat, k: Key, v: Option<Value>)
      requires Valid() && k !in Entries() && h == Home(hash(k), slot.Length) && slot[h].key.None?
      modifies this`size, this`at, slot
      ensures Valid() && Entries() == old(Entries())[k := v] && size == old(size) + 1 && at == old(at)[k := h]
    {
      ghost var s := slot[..];
      AddAtHome(s, rank, at, hash, size, k, v);
      ghost var next := AtHome(s, h, k, hash(k), v);
      slot[h] := Slot(Some(k), hash(k), v, slot[h].next);
      size := size + 1;
      at := at[k := h];
      assert slot[..] == next;
      hide *;
    }

    /** The key goes into slot `e`, behind slot `h` of its chain. */
    method PutBehind(h: nat, e: nat, k: Key, v: Option<Value>)
      requires Valid() && k !in Entries() && InChain(slot[..], rank, hash, k, h)
      requires e < slot.Length && slot[e].key.None?
      modifies this`size, this`at, this`rank, slot
      ensures Valid() && Entries() == old(Entries())[k := v] && size == old(size) + 1 && at == old(at)[k := e]
    {
      assert h < slot.Length && slot[h].key.Some?;
      AddBehind(slot[..], rank, at, hash, size, h, e, k, v);
      hide Sound;
      hide Behind;
      hide RankBetween;
      hide Contents;
      hide InChain;
      ghost var r := RankBetween(Nexts(slot[..]), rank, h);
      WriteBehind(slot, h, e, k, hash(k), v);
      rank := rank[e := r];
      size := size + 1;
      at := at[k := e];
    }

    /** Doubles the slots and inserts every key again; only called when all slots are used. */
    method Rehash()
      requires Valid() && size == slot.Length
      modifies this
      ensures Valid() && Entries() == old(Entries()) && size == old(size)
      ensures fresh(slot) && slot.Length == 2 * old(slot.Length)
      decreases 1
    {
      var oldSlot := slot;
      ghost var s, oldAt, oldRank := slot[..], at, rank;
      AllUsed(s);
      var n := size;
      size := 0;
      slot := new Slot[2 * oldSlot.Length](_ => EMPTY);
      rank := seq(2 * oldSlot.Length, _ => 0.0);
      at := map[];
      EmptySound(slot[..], rank, hash);
      var i := 0;
      while i < n
        invariant i <= n && size == i && oldSlot[..] == s
        invariant fresh(slot) && slot.Length == 2 * oldSlot.Length && Valid()
        invariant Moved(Entries(), s, oldAt, i)
        modifies this, slot
      {
        MovedNext(Entries(), s, oldRank, oldAt, hash, i);
        assert oldSlot[i] == s[i];
        InsertHash(oldSlot[i].key.value, oldSlot[i].hash, oldSlot[i].pointer);
        i := i + 1;
      }
      MovedAll(Entries(), s, oldAt);
    }

    /** The search for `k` compares with a null key: its hash is 0, and its home slot is empty. */
    predicate Faults(k: Key)
      reads this, slot
    {
      hash(k) == 0 && slot.Length > 0 && slot[0].key.None?
    }

    /** _pbcM_sp_query faults if and only if the hash of the key is 0 and the slot for it is empty. */
    method Query(k: Key) returns (fault: bool, v: Option<Value>)
      requires Valid()
      ensures fault <==> Faults(k)
      ensures !fault ==> v == if k in Entries() then Entries()[k] else None
    {
      var r := Locate(k);
      match r {
        case NullKey => return true, None;
        case Absent => return false, None;
        case At(i) => return false, slot[i].pointer;
      }
    }

    /** The walk along the chain of the key's home slot, which may be empty. */
    method Locate(k: Key) returns (r: Search)
      requires Valid()
      ensures r.NullKey? <==> Faults(k)
      ensures !r.NullKey? ==> r == if k in at then At(at[k]) else Absent
    {
      hide *;
      HomeFacts(k);
      var h := Home(hash(k), slot.Length);
      if slot[h].key.None? {
        if slot[h].hash == hash(k) { return NullKey; }
        return Absent;
      }
      var found, i := Walk(slot, rank, at, hash, h, k);
      return if found then At(i) else Absent;
    }

    lemma HomeFacts(k: Key)
      requires Valid()
      ensures slot.Length > 0
      ensures var h := Home(hash(k), slot.Length);
              if slot[h].key.Some? then OnChain(slot[..], rank, at, hash, h, k) && !Faults(k)
              else k !in at && slot[h].hash == 0 && (Faults(k) <==> hash(k) == 0)
    {
      hide Sound;
      hide OnChain;
      hide Home;
      HomeIs(slot[..], rank, at, hash, size, k);
    }

    /** _pbcM_sp_query_insert: the place of the key's pointer. A new key goes to the end of its chain. */
    method QueryInsert(k: Key) returns (i: nat)
      requires Valid()
      modifies this, slot
      ensures Valid() && i < slot.Length && k in at && at[k] == i
      ensures Entries() == if k in old(Entries()) then old(Entries()) else old(Entries())[k := None]
      ensures slot == old(slot) || fresh(slot)
      decreases if size < slot.Length then 0 else 1
    {
      var h := Home(hash(k), slot.Length);
      if slot[h].key.None? {
        HomeEmpty(slot[..], rank, at, hash, k);
        PutAtHome(h, k, None);
        return h;
      }
      ChainStart(slot[..], rank, at, hash, k);
      var found, last := Walk(slot, rank, at, hash, h, k);
      if found {
        IndexedAt(slot[..], rank, at, hash);
        return last;
      }
      if slot.Length <= size {
        UsedBound(slot[..]);
        Rehash();
        i := QueryInsert(k);
        return;
      }
      i := FindEmpty(h);
      PutBehind(last, i, k, None);
    }

    /** The caller's write through the place that QueryInsert returned. */
    method SetPointer(i: nat, v: Option<Value>)
      requires Valid() && i < slot.Length && slot[i].key.Some?
      modifies slot
      ensures Valid() && Entries() == old(Entries())[old(slot[i].key.value) := v]
    {
      ghost var s := slot[..];
      SetSound(s, rank, at, hash, size, i, v);
      ghost var next := s[i := s[i].(pointer := v)];
      slot[i] := slot[i].(pointer := v);
      assert slot[..] == next;
    }

    /** Where the scan for the next entry begins; past the end for an unknown key. */
    ghost function Start(key: Option<Key>): nat
      reads this
    {
      match key
      case None => 0
      case Some(k) => if k in at then at[k] + 1 else slot.Length
    }

    /** _pbcM_sp_next: the first entry, or the one after `key`, whose pointer is not null. It faults
        where a query for `key` does, which is not a key of the map then. */
    method Next(key: Option<Key>) returns (fault: bool, next: Option<Key>, v: Option<Value>)
      requires Valid()
      ensures fault <==> key.Some? && Faults(key.value)
      ensures fault ==> key.value !in Entries()
      ensures !fault ==> NextFrom(slot[..], at, Start(key), next, v)
    {
      IndexedAt(slot[..], rank, at, hash);
      var i := 0;
      if key.Some? {
        var found := Locate(key.value);
        match found {
          case NullKey => FaultAbsent(key.value); return true, None, None;
          case Absent => return false, None, None;
          case At(j) => i := j + 1;
        }
      }
      fault := false;
      next, v := Scan(slot, i, rank, at, hash);
    }

    lemma FaultAbsent(k: Key)
      requires Valid() && Faults(k)
      ensures k !in Entries()
    {
      HomeEmpty(slot[..], rank, at, hash, k);
    }

    /** A whole traversal with _pbcM_sp_next: every entry with a pointer, and each once. */
    method Traverse() returns (ks: seq<Key>)
      requires Valid()
      ensures forall k :: k in ks <==> k in Entries() && Entries()[k].Some?
      ensures forall i, j :: 0 <= i < j < |ks| ==> ks[i] != ks[j]
    {
      ghost var s := slot[..];
      IndexedAt(s, rank, at, hash);
      VisitedNone(s, at);
      hide Sound;
      hide Contents;
      hide Visited;
      hide NextFrom;
      ks := [];
      var key: Option<Key> := None;
      while true
        invariant s == slot[..] && (key.Some? ==> key.value in at && at[key.value] < |s|)
        invariant Visited(s, at, ks, Start(key))
        decreases |s| - Start(key)
      {
        ghost var from := Start(key);
        var fault, next, v := Next(key);
        assert !fault;
        if next.None? {
          assert v == None by { NextNull(s, at, from, v); }
          VisitedAll(s, at, ks, from);
          return;
        }
        VisitedMore(s, at, ks, from, next.value, v);
        NextIsLater(s, at, from, next.value, v);
        ks := ks + [next.value];
        key := next;
      }
    }
  }

  lemma HomeInChain(s: seq<Slot>, rank: seq<real>, at: map<Key, nat>, hash: Key -> nat, k: Key)
    requires |s| > 0 && Indexed(s, rank, at, hash) && s[Home(hash(k), |s|)].key.Some?
    ensures InChain(s, rank, hash, k, Home(hash(k), |s|))
  {
    ReachesSelf(Nexts(s), rank, Home(hash(k), |s|));
  }

  lemma NextNull(s: seq<Slot>, at: map<Key, nat>, from: nat, v: Option<Value>)
    requires NextFrom(s, at, from, None, v)
    ensures v == None
  {
  }
}
