/** The durable store of group file identifiers (helper/group_file_store.c): the
    latest 4096 reservations, and the compaction of the older, larger format. */
module IdStore {
  import opened Basics

  const LIMIT: nat := 4096
  const V1_ENTRIES: nat := 65536

  type Id = nat

  function Last(s: seq<Id>, n: nat): (r: seq<Id>)
    ensures |r| == if |s| <= n then |s| else n
  {
    if |s| <= n then s else s[|s| - n..]
  }

  /** Reserving one more drops at most the oldest. */
  lemma LastSnoc(s: seq<Id>, id: Id, n: nat)
    requires n > 0
    ensures Last(s + [id], n) == Last(s, n - 1) + [id]
    ensures Last(s + [id], n) == Last(Last(s, n) + [id], n)
  {
  }

  /** The file.  `history` lists every reservation that ever reached it. */
  class Store {
    var version: nat
    var ids: seq<Id>
    ghost var history: seq<Id>

    ghost predicate Valid()
      reads this
    {
      if version == 1 then ids == history && |ids| <= V1_ENTRIES
      else version == 2 && ids == Last(history, LIMIT)
    }

    constructor ()
      ensures Valid() && version == 2 && ids == history == []
    {
      version, ids, history := 2, [], [];
    }

    /** A file the older helper left. */
    constructor V1(left: seq<Id>)
      requires |left| <= V1_ENTRIES
      ensures Valid() && version == 1 && ids == history == left
    {
      version, ids, history := 1, left, left;
    }

    static method Contains(s: seq<Id>, id: Id) returns (found: bool)
      ensures found <==> id in s
    {
      for i := 0 to |s|
        invariant id !in s[..i]
      {
        if s[i] == id {
          return true;
        }
      }
      return false;
    }

    /** Writes the file anew; a failure may come after the rename.  `calm`: no file
        operation fails. */
    method Replace(newIds: seq<Id>, ghost newHistory: seq<Id>, calm: bool) returns (ok: bool)
      requires Valid() && newIds == Last(newHistory, LIMIT)
      modifies this
      ensures Valid()
      ensures ok ==> version == 2 && ids == newIds && history == newHistory
      ensures calm ==> ok
      ensures !ok ==>
                || (version == old(version) && ids == old(ids) && history == old(history))
                || (version == 2 && ids == newIds && history == newHistory)
    {
      var fate: Fate := *;
      if calm {
        fate := Done;
      }
      if fate.Effective() {
        version, ids, history := 2, newIds, newHistory;
      }
      ok := fate.Done?;
    }

    /** Compacts an older file: the newest identifiers stay, and so does the one
        asked for, as if it were reserved again. */
    method Migrate(preserve: Option<Id>, calm: bool) returns (ok: bool)
      requires Valid() && (preserve.Some? ==> preserve.value in ids)
      modifies this
      ensures Valid()
      ensures history == old(history) || (preserve.Some? && history == old(history) + [preserve.value])
      ensures ok ==> version == 2 && (preserve.Some? ==> preserve.value in ids)
      ensures old(version) == 2 ==> ok && ids == old(ids) && history == old(history)
      ensures calm ==> ok
    {
      if version != 1 {
        return true;
      }
      var retained := if |ids| > LIMIT then LIMIT else |ids|;
      var start := |ids| - retained;
      if preserve.Some? && retained == LIMIT {
        var kept := Contains(ids[start..], preserve.value);
        if !kept {
          var compacted := ids[start + 1..] + [preserve.value];
          LastSnoc(ids, preserve.value, LIMIT);
          ok := Replace(compacted, history + [preserve.value], calm);
          return;
        }
      }
      assert preserve.Some? ==> preserve.value in ids[start..];
      ok := Replace(ids[start..], history, calm);
    }

    /** -1 on failure, else whether the identifier is remembered. */
    method Seen(id: Id, calm: bool) returns (result: int)
      requires Valid()
      modifies this
      ensures Valid() && -1 <= result <= 1 && (calm ==> result >= 0)
      ensures result >= 0 ==> version == 2 && (result == 1 <==> id in old(ids)) && (result == 1 ==> id in ids)
      ensures history == old(history) || (id in old(ids) && history == old(history) + [id])
      ensures old(version) == 2 ==> ids == old(ids) && history == old(history)
    {
      var loaded: bool := *;
      if !calm && !loaded {
        return -1;
      }
      var found := Contains(ids, id);
      var migrated := Migrate(if found then Some(id) else None, calm);
      result := if !migrated then -1 else if found then 1 else 0;
    }

    /** 0: reserved now; 1: reserved before; -1: failure. */
    method Reserve(id: Id, calm: bool) returns (result: int)
      requires Valid()
      modifies this
      ensures Valid() && -1 <= result <= 1 && (calm ==> result >= 0)
      ensures result == 0 ==> id !in old(ids) && version == 2 && history == old(history) + [id]
      ensures result == 1 ==> id in old(ids) && version == 2 && id in ids
      ensures result == 1 && old(version) == 2 ==> history == old(history)
      ensures history == old(history) || history == old(history) + [id]
    {
      var loaded: bool := *;
      if !calm && !loaded {
        return -1;
      }
      var found := Contains(ids, id);
      if found {
        var migrated := Migrate(Some(id), calm);
        return if migrated then 1 else -1;
      }
      var retained := if |ids| >= LIMIT then LIMIT - 1 else |ids|;
      var start := |ids| - retained;
      var updated := ids[start..] + [id];
      LastSnoc(history, id, LIMIT);
      var ok := Replace(updated, history + [id], calm);
      result := if ok then 0 else -1;
    }
  }

  // --- How long an identifier is remembered ----------------------------------------------------

  predicate Distinct(s: seq<Id>) { forall i, j :: 0 <= i < j < |s| ==> s[i] != s[j] }

  /** An identifier is remembered through exactly the next 4095 reservations of
      others. */
  lemma RememberedExactly(before: seq<Id>, id: Id, later: seq<Id>)
    requires id !in later && id !in before
    ensures id in Last(before + [id] + later, LIMIT) <==> |later| < LIMIT
  {
    var s := before + [id] + later;
    var r := Last(s, LIMIT);
    assert s[|before|] == id;
    if |later| < LIMIT {
      assert r[|r| - 1 - |later|] == id;
    } else {
      assert r == later[|later| - LIMIT..];
    }
  }

  /** Reserving only what is not remembered keeps the remembered ones distinct. */
  lemma StaysDistinct(history: seq<Id>, id: Id)
    requires Distinct(Last(history, LIMIT)) && id !in Last(history, LIMIT)
    ensures Distinct(Last(history + [id], LIMIT))
  {
    LastSnoc(history, id, LIMIT);
  }

  /** After a compaction of the older format all but at most the oldest of the
      newest 4096 are still there. */
  lemma CompactionKeepsNewest(left: seq<Id>, preserve: Id, i: nat)
    requires i < |left| && |left| - i < LIMIT
    ensures left[i] in Last(left, LIMIT) && left[i] in Last(left + [preserve], LIMIT)
  {
    var a, b := Last(left, LIMIT), Last(left + [preserve], LIMIT);
    assert a[|a| - (|left| - i)] == left[i];
    assert b[|b| - 1 - (|left| - i)] == left[i];
  }
}
