/** Fixed windows and the log of what they admitted.  A window that starts at the
    first call after its predecessor ran out bounds every interval of its length
    by twice its limit. */
module Windows {
  datatype Window = Window(start: int, count: nat)

  /** The window in force at `now`. */
  function Rolled(w: Window, now: int, period: nat): Window {
    if now < w.start || now - w.start >= period then Window(now, 0) else w
  }

  function Counted(w: Window): Window { w.(count := w.count + 1) }

  /** One admitted call. */
  datatype Admission = Admission(time: int, key: string)

  /** How many admissions happened at `lo` or later. */
  function Since(log: seq<Admission>, lo: int): nat {
    if log == [] then 0
    else Since(log[..|log| - 1], lo) + if log[|log| - 1].time >= lo then 1 else 0
  }

  /** How many fell into the interval of length `period` that starts at `lo`. */
  function Within(log: seq<Admission>, lo: int, period: nat): int {
    Since(log, lo) - Since(log, lo + period)
  }

  ghost predicate Sparse(log: seq<Admission>, period: nat, bound: nat) {
    forall lo :: Within(log, lo, period) <= bound
  }

  function OfKey(log: seq<Admission>, key: string): seq<Admission> {
    if log == [] then []
    else
      var rest := OfKey(log[..|log| - 1], key);
      if log[|log| - 1].key == key then rest + [log[|log| - 1]] else rest
  }

  lemma SinceSnoc(log: seq<Admission>, a: Admission, lo: int)
    ensures Since(log + [a], lo) == Since(log, lo) + if a.time >= lo then 1 else 0
  {
    assert (log + [a])[..|log|] == log;
  }

  lemma OfKeySnoc(log: seq<Admission>, a: Admission, key: string)
    ensures OfKey(log + [a], key) == if a.key == key then OfKey(log, key) + [a] else OfKey(log, key)
  {
    assert (log + [a])[..|log|] == log;
  }

  lemma {:induction false} SinceMono(log: seq<Admission>, lo: int, hi: int)
    requires lo <= hi
    ensures Since(log, hi) <= Since(log, lo)
  {
    if log != [] {
      SinceMono(log[..|log| - 1], lo, hi);
    }
  }

  lemma {:induction false} OwnSince(log: seq<Admission>, k: string, lo: int)
    ensures Since(OfKey(log, k), lo) <= Since(log, lo)
  {
    if log != [] {
      OwnSince(log[..|log| - 1], k, lo);
      SinceSnoc(OfKey(log[..|log| - 1], k), log[|log| - 1], lo);
    }
  }

  /** What the window knows of the log: its count, a bound on its predecessor's
      and that nothing is later than its end. */
  predicate Exact(log: seq<Admission>, w: Window, period: nat, limit: nat) {
    && Since(log, w.start) == w.count <= limit
    && Since(log, w.start - period + 1) <= limit + w.count
    && Since(log, w.start + period) == 0
  }

  lemma RollKeeps(log: seq<Admission>, w: Window, now: int, period: nat, limit: nat)
    requires period > 0 && w.start <= now && Exact(log, w, period, limit)
    ensures var r := Rolled(w, now, period); Exact(log, r, period, limit) && r.start <= now < r.start + period
  {
    if now - w.start >= period {
      SinceMono(log, w.start + period, now);
      SinceMono(log, now, now + period);
      SinceMono(log, w.start, now - period + 1);
    }
  }

  lemma AdmitKeeps(log: seq<Admission>, w: Window, a: Admission, period: nat, limit: nat)
    requires Exact(log, w, period, limit) && w.count < limit
    requires w.start <= a.time < w.start + period
    ensures Exact(log + [a], Counted(w), period, limit)
  {
    SinceSnoc(log, a, w.start);
    SinceSnoc(log, a, w.start - period + 1);
    SinceSnoc(log, a, w.start + period);
  }

  lemma AdmitSparse(log: seq<Admission>, w: Window, a: Admission, period: nat, limit: nat)
    requires Exact(log, w, period, limit) && w.count < limit && Sparse(log, period, 2 * limit)
    requires w.start <= a.time < w.start + period
    ensures Sparse(log + [a], period, 2 * limit)
  {
    forall lo
      ensures Within(log + [a], lo, period) <= 2 * limit
    {
      SinceSnoc(log, a, lo);
      SinceSnoc(log, a, lo + period);
      assert Within(log, lo, period) <= 2 * limit;
      if lo <= a.time < lo + period {
        SinceMono(log, w.start - period + 1, lo);
      }
    }
  }

  // --- Distinct keys against admissions ---------------------------------------------------

  /** The admissions of the keys in `keys` alone. */
  function OfKeys(log: seq<Admission>, keys: set<string>): seq<Admission> {
    if log == [] then []
    else
      var rest := OfKeys(log[..|log| - 1], keys);
      if log[|log| - 1].key in keys then rest + [log[|log| - 1]] else rest
  }

  lemma {:induction false} SplitKeys(log: seq<Admission>, keys: set<string>, k: string, lo: int)
    requires k in keys
    ensures Since(OfKeys(log, keys), lo) == Since(OfKeys(log, keys - {k}), lo) + Since(OfKey(log, k), lo)
  {
    if log != [] {
      var front, a := log[..|log| - 1], log[|log| - 1];
      SplitKeys(front, keys, k, lo);
      SinceSnoc(OfKeys(front, keys), a, lo);
      SinceSnoc(OfKeys(front, keys - {k}), a, lo);
      SinceSnoc(OfKey(front, k), a, lo);
    }
  }

  lemma {:induction false} KeysWithin(log: seq<Admission>, keys: set<string>, lo: int, period: nat)
    ensures Within(OfKeys(log, keys), lo, period) <= Within(log, lo, period)
  {
    if log != [] {
      var front, a := log[..|log| - 1], log[|log| - 1];
      KeysWithin(front, keys, lo, period);
      SinceSnoc(OfKeys(front, keys), a, lo);
      SinceSnoc(OfKeys(front, keys), a, lo + period);
    }
  }

  lemma {:induction false} NoKeys(log: seq<Admission>)
    ensures OfKeys(log, {}) == []
  {
    if log != [] {
      NoKeys(log[..|log| - 1]);
    }
  }

  /** Keys with at least `each` admissions in an interval share what it holds. */
  lemma {:induction false} ManyKeys(log: seq<Admission>, keys: set<string>, lo: int, period: nat, each: nat)
    requires forall k :: k in keys ==> Within(OfKey(log, k), lo, period) >= each
    ensures Within(OfKeys(log, keys), lo, period) >= each * |keys|
    decreases |keys|
  {
    if keys == {} {
      NoKeys(log);
    } else {
      var k :| k in keys;
      ManyKeys(log, keys - {k}, lo, period, each);
      SplitKeys(log, keys, k, lo);
      SplitKeys(log, keys, k, lo + period);
      assert each * |keys| == each * |keys - {k}| + each;
    }
  }

  lemma KeysShare(log: seq<Admission>, keys: set<string>, lo: int, period: nat, each: nat)
    requires forall k :: k in keys ==> Within(OfKey(log, k), lo, period) >= each
    ensures each * |keys| <= Within(log, lo, period)
  {
    ManyKeys(log, keys, lo, period, each);
    KeysWithin(log, keys, lo, period);
  }
}
