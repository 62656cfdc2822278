/** The bounded tables of helper/rate.c: used slots come first, are found by their
    key and, when all are taken, the oldest one is given away. */
module Slots {
  datatype Slot<+R> = Slot(key: string, row: R)

  predicate FreeOf<R>(slots: seq<Slot<R>>, key: string) {
    forall i :: 0 <= i < |slots| ==> slots[i].key != key
  }

  function IndexOf<R>(slots: seq<Slot<R>>, key: string): (i: nat)
    ensures i <= |slots|
    ensures i < |slots| ==> slots[i].key == key
    ensures i == |slots| <==> FreeOf(slots, key)
    ensures FreeOf(slots[..i], key)
  {
    if slots == [] then 0
    else if slots[0].key == key then 0
    else
      var i := IndexOf(slots[1..], key);
      assert forall j :: 1 <= j < |slots| ==> slots[j] == slots[1..][j - 1];
      assert forall j :: 1 <= j < i + 1 ==> slots[j] == slots[1..][..i][j - 1];
      i + 1
  }

  /** The first slot of the least age. */
  function Oldest<R>(slots: seq<Slot<R>>, age: R -> int): (i: nat)
    requires slots != []
    ensures i < |slots|
    ensures forall j :: 0 <= j < |slots| ==> age(slots[i].row) <= age(slots[j].row)
    ensures forall j :: 0 <= j < i ==> age(slots[i].row) < age(slots[j].row)
  {
    var last := |slots| - 1;
    if last == 0 then 0
    else
      var i := Oldest(slots[..last], age);
      if age(slots[last].row) < age(slots[i].row) then last else i
  }

  /** Where a key lives or is put. */
  function Place<R>(slots: seq<Slot<R>>, key: string, size: nat, age: R -> int): (i: nat)
    requires size > 0
    ensures i <= |slots| && (|slots| <= size ==> i < size)
  {
    var i := IndexOf(slots, key);
    if i < |slots| || |slots| < size then i else Oldest(slots, age)
  }

  function Put<R>(slots: seq<Slot<R>>, i: nat, s: Slot<R>): seq<Slot<R>>
    requires i <= |slots|
  {
    if i < |slots| then slots[i := s] else slots + [s]
  }

  lemma FirstAt<R>(slots: seq<Slot<R>>, key: string, i: nat)
    requires i < |slots| && slots[i].key == key && FreeOf(slots[..i], key)
    ensures IndexOf(slots, key) == i
  {
    var j := IndexOf(slots, key);
    assert forall k :: 0 <= k < i ==> slots[k] == slots[..i][k];
    assert forall k :: 0 <= k < j ==> slots[k] == slots[..j][k];
  }

  ghost predicate Prefix<R>(a: array<Slot<R>>, used: nat)
    reads a
  {
    && used <= a.Length
    && (forall i :: 0 <= i < used ==> a[i].key != "")
    && (forall i :: used <= i < a.Length ==> a[i].key == "")
  }

  /** Scans for the key, the first free slot and the oldest used one. */
  method Find<R>(a: array<Slot<R>>, ghost used: nat, key: string, age: R -> int)
    returns (slot: int, free: int, oldest: int)
    requires Prefix(a, used) && key != "" && a.Length > 0
    ensures slot == if FreeOf(a[..used], key) then -1 else Place(a[..used], key, a.Length, age)
    ensures slot < 0 && free >= 0 ==> free == used < a.Length
    ensures slot < 0 && free < 0 ==> used == a.Length && oldest == Oldest(a[..used], age)
  {
    slot, free, oldest := -1, -1, -1;
    for i := 0 to a.Length
      invariant i <= used ==> free == -1
      invariant i > used ==> free == used
      invariant FreeOf(a[..if i < used then i else used], key)
      invariant 0 < i <= used ==> oldest == Oldest(a[..i], age)
      invariant i == 0 || used == 0 ==> oldest == -1
    {
      if a[i].key == "" {
        if free < 0 {
          free := i;
        }
        continue;
      }
      if a[i].key == key {
        assert a[..used][i].key == key;
        assert a[..used][..i] == a[..i];
        FirstAt(a[..used], key, i);
        return i, free, oldest;
      }
      assert a[..i + 1][..i] == a[..i];
      if oldest < 0 || age(a[i].row) < age(a[oldest].row) {
        oldest := i;
      }
    }
  }

  // --- A table against a map that forgets nothing -----------------------------------------

  ghost predicate Distinct<R>(slots: seq<Slot<R>>) {
    forall i, j :: 0 <= i < j < |slots| ==> slots[i].key != slots[j].key
  }

  ghost predicate SlotsAgree<R>(slots: seq<Slot<R>>, rows: map<string, R>) {
    forall i :: 0 <= i < |slots| ==> slots[i].key in rows && rows[slots[i].key] == slots[i].row
  }

  /** What the table has lost no longer matters. */
  ghost predicate LostExpired<R>(slots: seq<Slot<R>>, rows: map<string, R>, expired: R -> bool) {
    forall k :: k in rows && FreeOf(slots, k) ==> expired(rows[k])
  }

  ghost predicate Mirrors<R>(slots: seq<Slot<R>>, rows: map<string, R>, size: nat, expired: R -> bool) {
    |slots| <= size && Distinct(slots) && SlotsAgree(slots, rows) && LostExpired(slots, rows, expired)
  }

  lemma PutMirrors<R>(slots: seq<Slot<R>>, rows: map<string, R>, size: nat, age: R -> int, expired: R -> bool,
                      key: string, row: R)
    requires size > 0 && Mirrors(slots, rows, size, expired)
    requires FreeOf(slots, key) && |slots| == size ==> expired(slots[Oldest(slots, age)].row)
    ensures Mirrors(Put(slots, Place(slots, key, size, age), Slot(key, row)), rows[key := row], size, expired)
  {
    var at := Place(slots, key, size, age);
    var after := Put(slots, at, Slot(key, row));
    if !FreeOf(slots, key) {
      assert slots[at].key == key;
    }
    assert after[at] == Slot(key, row);
    forall k | k in rows[key := row] && FreeOf(after, k) ensures expired(rows[key := row][k]) {
      assert k != key;
      assert forall i :: 0 <= i < |slots| && i != at ==> after[i] == slots[i];
    }
  }

  function Keys<R>(slots: seq<Slot<R>>): set<string> {
    if slots == [] then {} else Keys(slots[..|slots| - 1]) + {slots[|slots| - 1].key}
  }

  lemma {:induction false} KeysAre<R>(slots: seq<Slot<R>>)
    requires Distinct(slots)
    ensures |Keys(slots)| == |slots|
    ensures forall k :: k in Keys(slots) ==> exists i :: 0 <= i < |slots| && slots[i].key == k
  {
    if slots != [] {
      var front := slots[..|slots| - 1];
      KeysAre(front);
      forall k | k in Keys(front) ensures exists i :: 0 <= i < |slots| && slots[i].key == k {
        var i :| 0 <= i < |front| && front[i].key == k;
        assert slots[i].key == k;
      }
    }
  }
}
