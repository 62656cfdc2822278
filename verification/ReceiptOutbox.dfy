/** The table of read receipts waiting to be sent (helper/receipt.c). */
module ReceiptOutbox {
  import opened Basics

  const OUTBOX_MAX: nat := 4096
  const FIRST_CAPACITY: nat := 16

  datatype Entry = Entry(conversation: string, id: string)

  predicate NoDup(box: seq<Entry>) {
    forall i, j :: 0 <= i < j < |box| ==> box[i] != box[j]
  }

  function Elems(box: seq<Entry>): set<Entry> { set e | e in box }

  /** `None`: the table is full. */
  function Added(box: seq<Entry>, e: Entry): Option<seq<Entry>> {
    if e in box then Some(box) else if |box| >= OUTBOX_MAX then None else Some(box + [e])
  }

  function Merged(box: seq<Entry>, es: seq<Entry>): Option<seq<Entry>>
    decreases |es|
  {
    if es == [] then Some(box)
    else match Added(box, es[0])
      case None => None
      case Some(more) => Merged(more, es[1..])
  }

  /** The entries that stay when those in `gone` leave. */
  function Without(box: seq<Entry>, gone: set<Entry>): seq<Entry> {
    if box == [] then []
    else
      var rest := Without(box[..|box| - 1], gone);
      if box[|box| - 1] in gone then rest else rest + [box[|box| - 1]]
  }

  lemma InSnoc(box: seq<Entry>, x: Entry)
    ensures forall e :: e in box + [x] <==> e in box || e == x
    ensures NoDup(box) && x !in box ==> NoDup(box + [x])
  {
  }

  lemma {:induction false} WithoutMeans(box: seq<Entry>, gone: set<Entry>)
    ensures |Without(box, gone)| <= |box|
    ensures forall e :: e in Without(box, gone) <==> e in box && e !in gone
    ensures NoDup(box) ==> NoDup(Without(box, gone))
  {
    if box != [] {
      var last := |box| - 1;
      WithoutMeans(box[..last], gone);
      InSnoc(box[..last], box[last]);
      assert box == box[..last] + [box[last]];
      InSnoc(Without(box[..last], gone), box[last]);
    }
  }

  lemma ElemsSize(box: seq<Entry>)
    requires NoDup(box)
    ensures |Elems(box)| == |box|
  {
    if box != [] {
      var last := |box| - 1;
      ElemsSize(box[..last]);
      assert Elems(box) == Elems(box[..last]) + {box[last]};
    }
  }

  lemma AddedMeans(box: seq<Entry>, e: Entry)
    requires NoDup(box) && |box| <= OUTBOX_MAX && Added(box, e).Some?
    ensures var more := Added(box, e).value;
            NoDup(more) && |more| <= OUTBOX_MAX && box <= more && Elems(more) == Elems(box) + {e}
  {
    InSnoc(box, e);
  }

  lemma ElemsHead(box: seq<Entry>, es: seq<Entry>)
    requires es != []
    ensures es[0] in Elems(es)
    ensures Elems(box) + {es[0]} + Elems(es[1..]) == Elems(box) + Elems(es)
  {
    assert Elems(es) == {es[0]} + Elems(es[1..]);
  }

  /** Merging keeps the order and the table free of duplicates, holds exactly the
      old and the new entries, and fails exactly when those do not fit. */
  lemma {:induction false} MergedMeans(box: seq<Entry>, es: seq<Entry>)
    requires NoDup(box) && |box| <= OUTBOX_MAX
    ensures Merged(box, es).Some? <==> |Elems(box) + Elems(es)| <= OUTBOX_MAX
    ensures Merged(box, es).Some? ==>
              var r := Merged(box, es).value;
              box <= r && NoDup(r) && |r| <= OUTBOX_MAX && Elems(r) == Elems(box) + Elems(es)
    decreases |es|
  {
    ElemsSize(box);
    if es == [] {
      assert Elems(box) + Elems(es) == Elems(box);
    } else {
      var e := es[0];
      ElemsHead(box, es);
      match Added(box, e)
      case Some(more) =>
        AddedMeans(box, e);
        MergedMeans(more, es[1..]);
      case None =>
        Overfull(box, e, Elems(es));
    }
  }

  lemma Overfull(box: seq<Entry>, e: Entry, es: set<Entry>)
    requires NoDup(box) && |box| == OUTBOX_MAX && e !in box && e in es
    ensures |Elems(box) + es| > OUTBOX_MAX
  {
    ElemsSize(box);
    SubsetSize(Elems(box) + {e}, Elems(box) + es);
  }

  lemma SubsetSize(a: set<Entry>, b: set<Entry>)
    requires a <= b
    ensures |a| <= |b|
  {
    assert b == a + (b - a);
  }

  /** The table in place: an array that grows, is appended to and is shifted. */
  class Outbox {
    var entries: array<Entry>
    var length: nat

    ghost predicate Valid()
      reads this, entries
    {
      length <= entries.Length <= OUTBOX_MAX && NoDup(Contents())
    }

    ghost function Contents(): seq<Entry>
      reads this, entries
      requires length <= entries.Length
    {
      entries[..length]
    }

    constructor ()
      ensures Valid() && Contents() == [] && fresh(entries)
    {
      entries := new Entry[0];
      length := 0;
    }

    method Find(e: Entry) returns (found: Option<nat>)
      requires Valid()
      ensures found.Some? <==> e in Contents()
      ensures found.Some? ==> found.value < length && entries[found.value] == e
    {
      for i := 0 to length
        invariant e !in entries[..i]
      {
        if entries[i] == e {
          return Some(i);
        }
      }
      return None;
    }

    method Grow()
      requires Valid() && length == entries.Length < OUTBOX_MAX
      modifies this`entries
      ensures Valid() && fresh(entries) && entries.Length > length && Contents() == old(Contents())
    {
      var capacity := if entries.Length != 0 then entries.Length * 2 else FIRST_CAPACITY;
      if capacity > OUTBOX_MAX {
        capacity := OUTBOX_MAX;
      }
      var blank := Entry("", "");
      var grown := new Entry[capacity](_ => blank);
      for i := 0 to length
        modifies grown
        invariant grown[..i] == entries[..i]
      {
        grown[i] := entries[i];
      }
      entries := grown;
    }

    /** -1 when full, 0 when present, 1 when appended. */
    method Add(e: Entry) returns (rc: int)
      requires Valid()
      modifies this, entries
      ensures Valid() && (entries == old(entries) || fresh(entries))
      ensures rc == (if Added(old(Contents()), e).None? then -1 else if e in old(Contents()) then 0 else 1)
      ensures Contents() == Added(old(Contents()), e).GetOr(old(Contents()))
    {
      var at := Find(e);
      if at.Some? {
        return 0;
      }
      if length >= OUTBOX_MAX {
        return -1;
      }
      if length == entries.Length {
        Grow();
      }
      entries[length] := e;
      length := length + 1;
      assert Contents() == old(Contents()) + [e];
      return 1;
    }

    method Remove(e: Entry) returns (removed: bool)
      requires Valid()
      modifies this, entries
      ensures Valid() && entries == old(entries)
      ensures removed <==> e in old(Contents())
      ensures Contents() == Without(old(Contents()), {e})
    {
      var at := Find(e);
      if at.None? {
        WithoutAbsent(Contents(), e);
        return false;
      }
      WithoutOne(Contents(), at.value);
      WithoutMeans(Contents(), {e});
      Shift(at.value);
      return true;
    }

    /** Moves everything behind `at` one place forward. */
    method Shift(at: nat)
      requires length <= entries.Length && at < length
      modifies this`length, entries
      ensures length == old(length) - 1
      ensures Contents() == old(Contents())[..at] + old(Contents())[at + 1..]
    {
      ghost var box := Contents();
      for i := at to length - 1
        modifies entries
        invariant length == |box|
        invariant forall k :: 0 <= k < at ==> entries[k] == box[k]
        invariant forall k :: at <= k < i ==> entries[k] == box[k + 1]
        invariant forall k :: i < k < length ==> entries[k] == box[k]
      {
        assert entries[i + 1] == box[i + 1];
        entries[i] := entries[i + 1];
      }
      length := length - 1;
      assert Contents() == box[..at] + box[at + 1..];
    }

    /** Appends all of `es`, or stops at the first that does not fit. */
    method AddAll(es: seq<Entry>) returns (ok: bool, changed: bool)
      requires Valid()
      modifies this, entries
      ensures Valid() && (entries == old(entries) || fresh(entries))
      ensures ok <==> Merged(old(Contents()), es).Some?
      ensures ok ==> Contents() == Merged(old(Contents()), es).value
      ensures ok ==> (changed <==> Contents() != old(Contents()))
    {
      changed := false;
      for i := 0 to |es|
        invariant Valid() && (entries == old(entries) || fresh(entries))
        invariant Merged(old(Contents()), es) == Merged(Contents(), es[i..])
        invariant |Contents()| >= |old(Contents())|
        invariant if changed then |Contents()| > |old(Contents())| else Contents() == old(Contents())
      {
        assert es[i..][0] == es[i] && es[i..][1..] == es[i + 1..];
        var rc := Add(es[i]);
        if rc < 0 {
          return false, changed;
        }
        if rc > 0 {
          changed := true;
        }
      }
      return true, changed;
    }
  }

  lemma {:induction false} WithoutAbsent(box: seq<Entry>, e: Entry)
    requires e !in box
    ensures Without(box, {e}) == box
  {
    if box != [] {
      WithoutAbsent(box[..|box| - 1], e);
    }
  }

  lemma {:induction false} WithoutOne(box: seq<Entry>, i: nat)
    requires NoDup(box) && i < |box|
    ensures Without(box, {box[i]}) == box[..i] + box[i + 1..]
    decreases |box|
  {
    var last := |box| - 1;
    if i == last {
      WithoutAbsent(box[..last], box[last]);
    } else {
      var front := box[..last];
      WithoutOne(front, i);
      assert box[last] != box[i];
      assert Without(box, {box[i]}) == front[..i] + front[i + 1..] + [box[last]];
    }
  }
}
