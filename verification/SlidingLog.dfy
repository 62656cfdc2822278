/** The sliding log of helper/rate.c: an array of the latest admission times, zero
    meaning a free place, that admits a call while fewer than all of them are
    recent. */
module SlidingLog {
  import opened Windows

  function Zeros(size: nat): seq<int> { seq(size, i => 0) }

  predicate Recent(t: int, now: int, window: nat) { t > 0 && now - t < window }

  function CountRecent(ts: seq<int>, now: int, window: nat): nat {
    if ts == [] then 0
    else CountRecent(ts[..|ts| - 1], now, window) + if Recent(ts[|ts| - 1], now, window) then 1 else 0
  }

  /** The place the next admission goes to: the first free one, else the first
      that holds the earliest time. */
  function PushAt(ts: seq<int>): (i: nat)
    requires ts != []
    ensures i < |ts|
    ensures forall k :: 0 <= k < i ==> ts[k] != 0
    ensures ts[i] == 0 || forall k :: 0 <= k < |ts| ==> ts[k] != 0 && ts[i] <= ts[k]
    ensures ts[i] != 0 ==> forall k :: 0 <= k < i ==> ts[i] < ts[k]
  {
    var last := |ts| - 1;
    if last == 0 then 0
    else
      var i := PushAt(ts[..last]);
      if ts[i] == 0 then i
      else if ts[last] == 0 || ts[last] < ts[i] then last
      else i
  }

  function Pushed(ts: seq<int>, now: int): seq<int>
    requires ts != []
  {
    ts[PushAt(ts) := now]
  }

  /** The decision and the array after it; `keyAllows` is the per-key verdict. */
  function Allowed(ts: seq<int>, now: int, window: nat, keyAllows: bool): (seq<int>, bool)
    requires ts != []
  {
    if CountRecent(ts, now, window) >= |ts| || !keyAllows then (ts, false) else (Pushed(ts, now), true)
  }

  class Log {
    const times: array<int>
    const window: nat

    constructor (size: nat, window: nat)
      requires size > 0
      ensures times.Length == size && this.window == window && fresh(times)
      ensures times[..] == Zeros(size)
    {
      times := new int[size](i => 0);
      this.window := window;
    }

    method InWindow(now: int) returns (c: nat)
      ensures c == CountRecent(times[..], now, window)
    {
      c := 0;
      for i := 0 to times.Length
        invariant c == CountRecent(times[..i], now, window)
      {
        assert times[..i + 1][..i] == times[..i];
        if times[i] > 0 && now - times[i] < window {
          c := c + 1;
        }
      }
      assert times[..times.Length] == times[..];
    }

    method Push(now: int)
      requires times.Length > 0
      modifies times
      ensures times[..] == Pushed(old(times[..]), now)
    {
      var oldest := 0;
      for i := 0 to times.Length
        invariant oldest < times.Length && times[..] == old(times[..])
        invariant forall k :: 0 <= k < i ==> times[k] != 0 && times[oldest] <= times[k]
        invariant i > 0 ==> oldest < i && forall k :: 0 <= k < oldest ==> times[oldest] < times[k]
        invariant i == 0 ==> oldest == 0
      {
        if times[i] == 0 {
          times[i] := now;
          return;
        }
        if times[i] < times[oldest] {
          oldest := i;
        }
      }
      assert PushAt(times[..]) == oldest;
      times[oldest] := now;
    }

    method Allow(now: int, keyAllows: bool) returns (rc: int)
      requires times.Length > 0
      modifies times
      ensures rc == 0 || rc == -1
      ensures (times[..], rc == 0) == Allowed(old(times[..]), now, window, keyAllows)
    {
      var recent := InWindow(now);
      if recent >= times.Length || !keyAllows {
        return -1;
      }
      Push(now);
      return 0;
    }
  }

  // --- Runs -----------------------------------------------------------------------------------

  datatype Call = Call(now: int, keyAllows: bool)

  function Clock(calls: seq<Call>): int {
    if calls == [] then 1 else calls[|calls| - 1].now
  }

  /** The clock is positive and does not run backwards. */
  predicate Monotone(calls: seq<Call>) {
    calls == [] || (Monotone(calls[..|calls| - 1]) && Clock(calls[..|calls| - 1]) <= Clock(calls))
  }

  function TimesAfter(size: nat, window: nat, calls: seq<Call>): (ts: seq<int>)
    requires size > 0
    ensures |ts| == size
  {
    if calls == [] then Zeros(size)
    else
      var c := calls[|calls| - 1];
      Allowed(TimesAfter(size, window, calls[..|calls| - 1]), c.now, window, c.keyAllows).0
  }

  function LogAfter(size: nat, window: nat, calls: seq<Call>): seq<Admission>
    requires size > 0
  {
    if calls == [] then []
    else
      var c := calls[|calls| - 1];
      var front := calls[..|calls| - 1];
      if Allowed(TimesAfter(size, window, front), c.now, window, c.keyAllows).1
      then LogAfter(size, window, front) + [Admission(c.now, "")] else LogAfter(size, window, front)
  }

  // --- The array holds the most recent admissions ----------------------------------------------

  function CountFrom(ts: seq<int>, lo: int): (n: nat)
    ensures n <= |ts|
  {
    if ts == [] then 0 else CountFrom(ts[..|ts| - 1], lo) + if ts[|ts| - 1] >= lo then 1 else 0
  }

  function Min(a: nat, b: nat): nat { if a < b then a else b }

  /** Above every positive time, as many entries as admissions, up to the size. */
  ghost predicate HoldsLatest(ts: seq<int>, log: seq<Admission>) {
    forall lo :: lo > 0 ==> CountFrom(ts, lo) == Min(|ts|, Since(log, lo))
  }

  lemma {:induction false} CountAll(ts: seq<int>, lo: int)
    ensures CountFrom(ts, lo) == |ts| <==> forall k :: 0 <= k < |ts| ==> ts[k] >= lo
  {
    if ts != [] {
      CountAll(ts[..|ts| - 1], lo);
    }
  }

  lemma {:induction false} CountUpdate(ts: seq<int>, i: nat, t: int, lo: int)
    requires i < |ts|
    ensures CountFrom(ts[i := t], lo)
         == CountFrom(ts, lo) - (if ts[i] >= lo then 1 else 0) + (if t >= lo then 1 else 0)
    decreases |ts|
  {
    var last := |ts| - 1;
    if i == last {
      assert ts[i := t][..last] == ts[..last];
    } else {
      CountUpdate(ts[..last], i, t, lo);
      assert ts[i := t][..last] == ts[..last][i := t];
    }
  }

  lemma {:induction false} RecentIsFrom(ts: seq<int>, now: int, window: nat)
    ensures CountRecent(ts, now, window) == CountFrom(ts, if now - window + 1 > 1 then now - window + 1 else 1)
  {
    if ts != [] {
      RecentIsFrom(ts[..|ts| - 1], now, window);
    }
  }

  lemma PushHolds(ts: seq<int>, log: seq<Admission>, a: Admission)
    requires ts != [] && HoldsLatest(ts, log) && a.time > 0 && Since(log, a.time + 1) == 0
    ensures HoldsLatest(Pushed(ts, a.time), log + [a])
  {
    forall lo | lo > 0 ensures CountFrom(Pushed(ts, a.time), lo) == Min(|ts|, Since(log + [a], lo)) {
      SinceSnoc(log, a, lo);
      CountUpdate(ts, PushAt(ts), a.time, lo);
      CountAll(ts, lo);
      assert CountFrom(ts, lo) == Min(|ts|, Since(log, lo));
      if lo > a.time {
        SinceMono(log, a.time + 1, lo);
      }
    }
  }

  lemma {:induction false} ZerosHold(size: nat, lo: int)
    requires lo > 0
    ensures CountFrom(Zeros(size), lo) == 0
  {
    if size > 0 {
      ZerosHold(size - 1, lo);
      assert Zeros(size)[..size - 1] == Zeros(size - 1);
    }
  }

  lemma {:induction false} RunHolds(size: nat, window: nat, calls: seq<Call>)
    requires size > 0 && window > 0 && Monotone(calls)
    ensures Clock(calls) > 0 && HoldsLatest(TimesAfter(size, window, calls), LogAfter(size, window, calls))
    ensures Since(LogAfter(size, window, calls), Clock(calls) + 1) == 0
    ensures forall lo :: lo <= 1 ==> Since(LogAfter(size, window, calls), lo) == Since(LogAfter(size, window, calls), 1)
  {
    if calls == [] {
      forall lo | lo > 0 ensures CountFrom(Zeros(size), lo) == 0 { ZerosHold(size, lo); }
    } else {
      var front, c := calls[..|calls| - 1], calls[|calls| - 1];
      var log, a := LogAfter(size, window, front), Admission(c.now, "");
      RunHolds(size, window, front);
      SinceMono(log, Clock(front) + 1, c.now + 1);
      PushHolds(TimesAfter(size, window, front), log, a);
      SinceSnoc(log, a, c.now + 1);
      SinceSnoc(log, a, 1);
      forall lo | lo <= 1 ensures Since(log + [a], lo) == Since(log + [a], 1) { SinceSnoc(log, a, lo); }
    }
  }

  lemma ExactCount(ts: seq<int>, log: seq<Admission>, now: int, window: nat)
    requires HoldsLatest(ts, log) && now > 0 && forall lo :: lo <= 1 ==> Since(log, lo) == Since(log, 1)
    ensures CountRecent(ts, now, window) == Min(|ts|, Since(log, now - window + 1))
  {
    RecentIsFrom(ts, now, window);
    var lo := if now - window + 1 > 1 then now - window + 1 else 1;
    assert CountFrom(ts, lo) == Min(|ts|, Since(log, lo));
  }

  /** A call is refused exactly when its key is, or when the window that ends now
      already holds as many admissions as the array has places. */
  lemma SlidingLogIsExact(size: nat, window: nat, calls: seq<Call>, c: Call)
    requires size > 0 && window > 0 && Monotone(calls) && Clock(calls) <= c.now
    ensures Allowed(TimesAfter(size, window, calls), c.now, window, c.keyAllows).1
       <==> c.keyAllows && Since(LogAfter(size, window, calls), c.now - window + 1) < size
  {
    RunHolds(size, window, calls);
    ExactCount(TimesAfter(size, window, calls), LogAfter(size, window, calls), c.now, window);
  }

  /** Every interval of the window's length holds at most `size` admissions: 20 in
      any hour, 5 in any minute for the log of one key. */
  lemma {:induction false} SlidingLogBounds(size: nat, window: nat, calls: seq<Call>, lo: int)
    requires size > 0 && window > 0 && Monotone(calls)
    ensures Within(LogAfter(size, window, calls), lo, window) <= size
  {
    if calls != [] {
      var front, c := calls[..|calls| - 1], calls[|calls| - 1];
      var log, a := LogAfter(size, window, front), Admission(c.now, "");
      SlidingLogBounds(size, window, front, lo);
      SlidingLogIsExact(size, window, front, c);
      SinceSnoc(log, a, lo);
      SinceSnoc(log, a, lo + window);
      if lo <= c.now < lo + window {
        SinceMono(log, c.now - window + 1, lo);
      }
    }
  }

  /** At time zero an admission leaves no trace, and nothing is ever refused. */
  lemma {:induction false} ClockZeroAdmitsAll(size: nat, window: nat, calls: seq<Call>)
    requires size > 0 && forall i :: 0 <= i < |calls| ==> calls[i] == Call(0, true)
    ensures TimesAfter(size, window, calls) == Zeros(size)
    ensures |LogAfter(size, window, calls)| == |calls|
  {
    if calls != [] {
      ClockZeroAdmitsAll(size, window, calls[..|calls| - 1]);
      ZerosHold(size, 1);
      RecentIsFrom(Zeros(size), 0, window);
    }
  }
}
