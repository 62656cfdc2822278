/** The unread counts in place (helper/conversation.c): an array of entries that
    stands for the map the receipt commit writes. */
module UnreadTable {
  import opened Basics
  import opened ReceiptCommit

  const ID_MAX: nat := 80
  const U32_END: nat := 0x1_0000_0000
  const FIRST_CAPACITY: nat := 16

  datatype Row = Row(id: string, count: nat)

  predicate LowerHexDigit(c: char) { '0' <= c <= '9' || 'a' <= c <= 'f' }

  function Value(s: string): nat
    requires forall i :: 0 <= i < |s| ==> '0' <= s[i] <= '9'
  {
    if s == [] then 0 else Value(s[..|s| - 1]) * 10 + (s[|s| - 1] as int - '0' as int)
  }

  /** A group or direct state identifier, or a friend number. */
  predicate IdOk(id: string) {
    if id == "" || |id| >= ID_MAX then false
    else if id[0] == 'g' || id[0] == 'd' then
      |id| == 66 && id[1] == ':' && forall i :: 2 <= i < 66 ==> LowerHexDigit(id[i])
    else
      && !(|id| > 1 && id[0] == '0') && (forall i :: 0 <= i < |id| ==> '0' <= id[i] <= '9')
      && Value(id) < U32_END
  }

  predicate DistinctIds(rows: seq<Row>) {
    forall i, j :: 0 <= i < j < |rows| ==> rows[i].id != rows[j].id
  }

  function MapOf(rows: seq<Row>): Unread {
    if rows == [] then map[] else MapOf(rows[..|rows| - 1])[rows[|rows| - 1].id := rows[|rows| - 1].count]
  }

  lemma {:induction false} MapOfMeans(rows: seq<Row>)
    requires DistinctIds(rows)
    ensures forall i :: 0 <= i < |rows| ==> rows[i].id in MapOf(rows) && MapOf(rows)[rows[i].id] == rows[i].count
    ensures forall id :: id in MapOf(rows) ==> exists i :: 0 <= i < |rows| && rows[i].id == id
  {
    if rows != [] {
      var last := |rows| - 1;
      MapOfMeans(rows[..last]);
      forall id | id in MapOf(rows) ensures exists i :: 0 <= i < |rows| && rows[i].id == id {
        if id == rows[last].id {
        } else {
          var i :| 0 <= i < last && rows[..last][i].id == id;
          assert rows[i].id == id;
        }
      }
    }
  }

  lemma MapOfSnoc(rows: seq<Row>, r: Row)
    ensures MapOf(rows + [r]) == MapOf(rows)[r.id := r.count]
  {
    assert (rows + [r])[..|rows|] == rows;
  }

  lemma {:induction false} MapOfSet(rows: seq<Row>, i: nat, count: nat)
    requires DistinctIds(rows) && i < |rows|
    ensures MapOf(rows[i := Row(rows[i].id, count)]) == MapOf(rows)[rows[i].id := count]
    decreases |rows|
  {
    var last := |rows| - 1;
    var after := rows[i := Row(rows[i].id, count)];
    if i == last {
      assert after[..last] == rows[..last];
    } else {
      MapOfSet(rows[..last], i, count);
      assert after[..last] == rows[..last][i := Row(rows[i].id, count)];
    }
  }

  lemma WriteElsewhere(m: Unread, x: string, y: string, count: nat)
    requires x != y
    ensures (m - {x})[y := count] == m[y := count] - {x}
  {
  }

  lemma DistinctCut(rows: seq<Row>, i: nat)
    requires DistinctIds(rows) && i < |rows|
    ensures DistinctIds(rows[..i] + rows[i + 1..])
  {
  }

  lemma LastCut(rows: seq<Row>)
    requires DistinctIds(rows) && rows != []
    ensures MapOf(rows[..|rows| - 1]) == MapOf(rows) - {rows[|rows| - 1].id}
  {
    var front, last := rows[..|rows| - 1], rows[|rows| - 1];
    assert forall i :: 0 <= i < |front| ==> front[i].id != last.id;
    NotMapped(front, last.id);
    WrittenOver(MapOf(front), last.id, last.count);
  }

  lemma {:induction false} NotMapped(rows: seq<Row>, id: string)
    requires forall i :: 0 <= i < |rows| ==> rows[i].id != id
    ensures id !in MapOf(rows)
  {
    if rows != [] {
      NotMapped(rows[..|rows| - 1], id);
    }
  }

  lemma WrittenOver(m: Unread, x: string, count: nat)
    requires x !in m
    ensures m[x := count] - {x} == m
  {
  }

  lemma {:induction false} MapOfCut(rows: seq<Row>, i: nat)
    requires DistinctIds(rows) && i < |rows|
    ensures MapOf(rows[..i] + rows[i + 1..]) == MapOf(rows) - {rows[i].id}
    decreases |rows|
  {
    var last := |rows| - 1;
    if i == last {
      LastCut(rows);
      assert rows[..i] + rows[i + 1..] == rows[..last];
    } else {
      var front := rows[..last];
      MapOfCut(front, i);
      assert rows[..i] + rows[i + 1..] == (front[..i] + front[i + 1..]) + [rows[last]];
      MapOfSnoc(front[..i] + front[i + 1..], rows[last]);
      WriteElsewhere(MapOf(front), rows[i].id, rows[last].id, rows[last].count);
    }
  }

  lemma Saturated(u: Unread, id: string)
    requires id in u && u[id] == UNREAD_MAX
    ensures ReceiptCommit.Increment(u, id) == u
  {
  }

  class Table {
    var entries: array<Row>
    var length: nat

    ghost predicate Valid()
      reads this, entries
    {
      && length <= entries.Length && DistinctIds(Rows())
      && forall i :: 0 <= i < length ==> 1 <= entries[i].count <= UNREAD_MAX
    }

    ghost function Rows(): seq<Row>
      reads this, entries
      requires length <= entries.Length
    {
      entries[..length]
    }

    /** The map this table stands for. */
    ghost function Counts(): Unread
      reads this, entries
      requires length <= entries.Length
    {
      MapOf(Rows())
    }

    constructor ()
      ensures Valid() && Counts() == map[] && fresh(entries)
    {
      entries := new Row[0];
      length := 0;
    }

    method Find(id: string) returns (index: int)
      requires Valid()
      ensures index >= 0 ==> index < length && entries[index].id == id && IdOk(id)
      ensures index >= 0 ==> id in Counts() && Counts()[id] == entries[index].count
      ensures index < 0 ==> !IdOk(id) || id !in Counts()
    {
      MapOfMeans(Rows());
      if !IdOk(id) {
        return -1;
      }
      for i := 0 to length
        invariant forall k :: 0 <= k < i ==> entries[k].id != id
      {
        if entries[i].id == id {
          return i;
        }
      }
      return -1;
    }

    method Count(id: string) returns (n: nat)
      requires Valid()
      ensures n == if IdOk(id) then ReceiptCommit.Count(Counts(), id) else 0
    {
      var index := Find(id);
      n := if index >= 0 then entries[index].count else 0;
    }

    /** Room for one more row; the array at least doubles. */
    method Reserve()
      requires Valid()
      modifies this`entries
      ensures Valid() && Rows() == old(Rows()) && length < entries.Length
      ensures entries == old(entries) || fresh(entries)
    {
      if length < entries.Length {
        return;
      }
      var capacity := if entries.Length > 0 then entries.Length * 2 else FIRST_CAPACITY;
      var grown := new Row[capacity](_ => Row("", 0));
      for i := 0 to length
        modifies grown
        invariant grown[..i] == entries[..i]
      {
        grown[i] := entries[i];
      }
      entries := grown;
    }

    /** One more unread message, up to the largest count. */
    method Increment(id: string) returns (ok: bool)
      requires Valid()
      modifies this, entries
      ensures Valid() && (entries == old(entries) || fresh(entries))
      ensures ok <==> IdOk(id)
      ensures Counts() == if ok then ReceiptCommit.Increment(old(Counts()), id) else old(Counts())
    {
      var index := Find(id);
      if !IdOk(id) {
        return false;
      }
      if index >= 0 {
        if entries[index].count < UNREAD_MAX {
          Bump(index);
        } else {
          Saturated(Counts(), id);
        }
        return true;
      }
      Append(id);
      return true;
    }

    method Bump(index: nat)
      requires Valid() && index < length && entries[index].count < UNREAD_MAX
      modifies entries
      ensures Valid()
      ensures var r := old(entries[index]); Counts() == old(Counts())[r.id := r.count + 1]
    {
      ghost var rows := Rows();
      MapOfSet(rows, index, rows[index].count + 1);
      entries[index] := Row(entries[index].id, entries[index].count + 1);
      assert Rows() == rows[index := Row(rows[index].id, rows[index].count + 1)];
    }

    method Append(id: string)
      requires Valid() && id !in Counts()
      modifies this, entries
      ensures Valid() && (entries == old(entries) || fresh(entries))
      ensures Counts() == old(Counts())[id := 1]
    {
      Reserve();
      ghost var rows := Rows();
      MapOfMeans(rows);
      MapOfSnoc(rows, Row(id, 1));
      entries[length] := Row(id, 1);
      length := length + 1;
      assert Rows() == rows + [Row(id, 1)];
    }

    method Clear(id: string) returns (ok: bool)
      requires Valid()
      modifies this`length, entries
      ensures Valid() && (ok <==> IdOk(id))
      ensures Counts() == if ok then old(Counts()) - {id} else old(Counts())
    {
      var index := Find(id);
      if !IdOk(id) {
        return false;
      }
      if index >= 0 {
        MapOfCut(Rows(), index);
        DistinctCut(Rows(), index);
        CutAt(index);
      }
      return true;
    }

    method CutAt(at: nat)
      requires Valid() && at < length
      modifies this`length, entries
      ensures length == old(length) - 1 && Rows() == old(Rows())[..at] + old(Rows())[at + 1..]
      ensures forall i :: 0 <= i < length ==> 1 <= entries[i].count <= UNREAD_MAX
    {
      ghost var rows := Rows();
      for i := at to length - 1
        modifies entries
        invariant length == |rows|
        invariant forall k :: 0 <= k < at ==> entries[k] == rows[k]
        invariant forall k :: at <= k < i ==> entries[k] == rows[k + 1]
        invariant forall k :: i < k < length ==> entries[k] == rows[k]
      {
        assert entries[i + 1] == rows[i + 1];
        entries[i] := entries[i + 1];
      }
      length := length - 1;
      assert Rows() == rows[..at] + rows[at + 1..];
    }
  }
}
