/** The limit per group and actor.  The table of entries gives its oldest slot to
    a new key even if that slot's window has not run out.  A call that does so
    forgets; as long as none does, every live window stays in the table and the
    limit holds. */
module OfferRateKeys {
  import opened Slots
  import opened Windows
  import opened OfferRate
  import opened OfferRateSafety

  // --- What is remembered --------------------------------------------------------------------

  /** The offers the table admitted, by group and actor. */
  function KeyLog(calls: seq<Call>): seq<Admission> {
    if calls == [] then []
    else
      var front, c := calls[..|calls| - 1], calls[|calls| - 1];
      if Admits(calls) then KeyLog(front) + [Admission(c.now, c.key)] else KeyLog(front)
  }

  /** For every key the window of its last admission, as that admission left it. */
  function LastWindows(calls: seq<Call>): map<string, Window> {
    if calls == [] then map[]
    else
      var front, c := calls[..|calls| - 1], calls[|calls| - 1];
      if Admits(calls) then LastWindows(front)[c.key := Counted(Current(TableAfter(front).entries, c.key, c.now))]
      else LastWindows(front)
  }

  ghost predicate InTable(slots: seq<Slot<Window>>, k: string, w: Window) {
    exists i :: 0 <= i < |slots| && slots[i] == Slot(k, w)
  }

  /** Every window of an admission that has not run out at `now` is in the table. */
  ghost predicate Remembers(slots: seq<Slot<Window>>, last: map<string, Window>, now: int) {
    forall k :: k in last && last[k].start > now - PERIOD ==> InTable(slots, k, last[k])
  }

  ghost predicate LiveInTable(calls: seq<Call>) {
    Remembers(TableAfter(calls).entries, LastWindows(calls), Clock(calls))
  }

  /** The call's key is not in a full table, and the oldest slot, which it takes
      over, holds admissions of a window that has not run out. */
  predicate Forgets(t: Table, c: Call) {
    && Rolled(t.all, c.now, PERIOD).count < GLOBAL
    && FreeOf(t.entries, c.key) && |t.entries| >= SLOTS
    && var oldest := t.entries[Oldest(t.entries, Start)].row; oldest.start > c.now - PERIOD && oldest.count > 0
  }

  /** No call of the run forgets. */
  predicate NeverForgets(calls: seq<Call>) {
    calls == [] ||
    (NeverForgets(calls[..|calls| - 1]) && !Forgets(TableAfter(calls[..|calls| - 1]), calls[|calls| - 1]))
  }

  // --- Every run -------------------------------------------------------------------------------

  /** A slot that counts admissions is the key's last window. */
  ghost predicate Counts(slots: seq<Slot<Window>>, last: map<string, Window>) {
    && |slots| <= SLOTS && Distinct(slots)
    && forall i :: 0 <= i < |slots| && slots[i].row.count > 0 ==>
         slots[i].key in last && last[slots[i].key] == slots[i].row
  }

  /** The window the call's entry gets: counted if the call is admitted. */
  function Given(t: Table, c: Call): Window {
    var entry := Current(t.entries, c.key, c.now);
    if TableAllow(t, c.key, c.actor, c.now).1 then Counted(entry) else entry
  }

  lemma EntryStep(t: Table, c: Call)
    ensures TableAllow(t, c.key, c.actor, c.now).0.entries ==
            if Rolled(t.all, c.now, PERIOD).count >= GLOBAL then t.entries else Set(t.entries, c.key, Given(t, c))
    ensures TableAllow(t, c.key, c.actor, c.now).1 ==>
              Rolled(t.all, c.now, PERIOD).count < GLOBAL && Current(t.entries, c.key, c.now).count < PER_KEY
  {
  }

  /** Writing one key's window changes one place, which was the key's, new or the oldest. */
  lemma SetAt(slots: seq<Slot<Window>>, key: string, w: Window) returns (at: nat)
    requires |slots| <= SLOTS && Distinct(slots)
    ensures at == Place(slots, key, SLOTS, Start) && at < SLOTS
    ensures var after := Set(slots, key, w);
            && |after| <= SLOTS && Distinct(after) && at < |after| && after[at] == Slot(key, w)
            && |after| == (if at < |slots| then |slots| else |slots| + 1)
            && forall i :: 0 <= i < |slots| && i != at ==> after[i] == slots[i] && slots[i].key != key
    ensures at == |slots| ==> FreeOf(slots, key) && |slots| < SLOTS
    ensures at < |slots| ==> slots[at].key == key || (FreeOf(slots, key) && |slots| == SLOTS && at == Oldest(slots, Start))
  {
    at := Place(slots, key, SLOTS, Start);
    if !FreeOf(slots, key) {
      assert slots[at].key == key;
    }
  }

  lemma CurrentCounts(slots: seq<Slot<Window>>, last: map<string, Window>, key: string, now: int)
    requires Counts(slots, last) && Current(slots, key, now).count > 0
    ensures key in last && last[key] == Current(slots, key, now)
  {
    assert slots[IndexOf(slots, key)].key == key;
  }

  lemma StepCounts(t: Table, last: map<string, Window>, c: Call)
    requires Counts(t.entries, last)
    ensures var (after, ok) := TableAllow(t, c.key, c.actor, c.now);
            Counts(after.entries, if ok then last[c.key := Given(t, c)] else last)
  {
    EntryStep(t, c);
    var at := SetAt(t.entries, c.key, Given(t, c));
    if Given(t, c).count > 0 && !TableAllow(t, c.key, c.actor, c.now).1 {
      CurrentCounts(t.entries, last, c.key, c.now);
    }
  }

  lemma {:induction false} RunCounts(calls: seq<Call>)
    ensures Counts(TableAfter(calls).entries, LastWindows(calls))
  {
    if calls != [] {
      var front := calls[..|calls| - 1];
      RunCounts(front);
      StepCounts(TableAfter(front), LastWindows(front), calls[|calls| - 1]);
    }
  }

  // --- A call forgets, or the live windows stay --------------------------------------------------

  lemma StillInTable(slots: seq<Slot<Window>>, k: string, w: Window, key: string, v: Window)
    requires |slots| <= SLOTS && Distinct(slots) && InTable(slots, k, w) && k != key
    requires FreeOf(slots, key) && |slots| == SLOTS ==> slots[Oldest(slots, Start)].key != k
    ensures InTable(Set(slots, key, v), k, w)
  {
    var at := SetAt(slots, key, v);
    var i :| 0 <= i < |slots| && slots[i] == Slot(k, w);
    assert Set(slots, key, v)[i] == Slot(k, w);
  }

  /** The live window of the call's own key is the one the call finds. */
  lemma OwnInForce(slots: seq<Slot<Window>>, last: map<string, Window>, key: string, clock: int, now: int)
    requires Counts(slots, last) && Remembers(slots, last, clock) && clock <= now
    requires key in last && now - PERIOD < last[key].start <= now
    ensures Current(slots, key, now) == last[key]
  {
    assert InTable(slots, key, last[key]);
    var i :| 0 <= i < |slots| && slots[i] == Slot(key, last[key]);
    assert slots[IndexOf(slots, key)].key == key;
  }

  lemma NotForgotten(t: Table, last: map<string, Window>, clock: int, c: Call, k: string)
    requires Counts(t.entries, last) && Remembers(t.entries, last, clock) && clock <= c.now && !Forgets(t, c)
    requires Rolled(t.all, c.now, PERIOD).count < GLOBAL
    requires k in last && last[k].start > c.now - PERIOD && k != c.key && last[k].count > 0
    ensures InTable(Set(t.entries, c.key, Given(t, c)), k, last[k])
  {
    assert InTable(t.entries, k, last[k]);
    StillInTable(t.entries, k, last[k], c.key, Given(t, c));
  }

  /** Windows of admissions count at least one and began no later than now. */
  ghost predicate Dated(last: map<string, Window>, clock: int) {
    forall k :: k in last ==> last[k].count > 0 && last[k].start <= clock
  }

  lemma KeepsLive(t: Table, last: map<string, Window>, clock: int, c: Call)
    requires Counts(t.entries, last) && Remembers(t.entries, last, clock) && Dated(last, clock) && clock <= c.now
    requires !Forgets(t, c)
    ensures var (after, ok) := TableAllow(t, c.key, c.actor, c.now);
            Remembers(after.entries, if ok then last[c.key := Given(t, c)] else last, c.now)
  {
    EntryStep(t, c);
    var (after, ok) := TableAllow(t, c.key, c.actor, c.now);
    var later := if ok then last[c.key := Given(t, c)] else last;
    forall k | k in later && later[k].start > c.now - PERIOD
      ensures InTable(after.entries, k, later[k])
    {
      if Rolled(t.all, c.now, PERIOD).count < GLOBAL {
        if k == c.key {
          var at := SetAt(t.entries, c.key, Given(t, c));
          if !ok {
            OwnInForce(t.entries, last, k, clock, c.now);
          }
          assert after.entries[at] == Slot(k, later[k]);
        } else {
          NotForgotten(t, last, clock, c, k);
        }
      } else {
        assert InTable(t.entries, k, last[k]);
      }
    }
  }

  /** The slot taken over is gone. */
  lemma TakenOver(slots: seq<Slot<Window>>, key: string, w: Window)
    requires Distinct(slots) && FreeOf(slots, key) && |slots| == SLOTS
    ensures var victim := slots[Oldest(slots, Start)];
            victim.key != key && !InTable(Set(slots, key, w), victim.key, victim.row)
  {
    var at := SetAt(slots, key, w);
    var after := Set(slots, key, w);
    forall i | 0 <= i < |after| ensures after[i].key != slots[at].key {
    }
  }

  lemma ForgetsLive(t: Table, last: map<string, Window>, c: Call)
    requires Counts(t.entries, last) && Forgets(t, c)
    ensures var (after, ok) := TableAllow(t, c.key, c.actor, c.now);
            !Remembers(after.entries, if ok then last[c.key := Given(t, c)] else last, c.now)
  {
    EntryStep(t, c);
    TakenOver(t.entries, c.key, Given(t, c));
    var victim := t.entries[Oldest(t.entries, Start)];
    var (after, ok) := TableAllow(t, c.key, c.actor, c.now);
    var later := if ok then last[c.key := Given(t, c)] else last;
    assert victim.key in later && later[victim.key] == victim.row;
    assert !InTable(after.entries, victim.key, later[victim.key]);
  }

  lemma StepDated(t: Table, last: map<string, Window>, clock: int, c: Call)
    requires Counts(t.entries, last) && Dated(last, clock) && clock <= c.now
    ensures TableAllow(t, c.key, c.actor, c.now).1 ==> Dated(last[c.key := Given(t, c)], c.now)
  {
  }

  lemma {:induction false} RunDated(calls: seq<Call>)
    requires Orderly(calls)
    ensures Dated(LastWindows(calls), Clock(calls))
  {
    if calls != [] {
      var front := calls[..|calls| - 1];
      RunCounts(front);
      RunDated(front);
      StepDated(TableAfter(front), LastWindows(front), Clock(front), calls[|calls| - 1]);
    }
  }

  /** The exact condition: in every orderly run whose live windows are all in the
      table, they still are after one more call if and only if it does not forget. */
  lemma LiveStaysIff(calls: seq<Call>, c: Call)
    requires Orderly(calls + [c]) && LiveInTable(calls)
    ensures LiveInTable(calls + [c]) <==> !Forgets(TableAfter(calls), c)
  {
    assert (calls + [c])[..|calls|] == calls;
    RunCounts(calls);
    RunDated(calls);
    if Forgets(TableAfter(calls), c) {
      ForgetsLive(TableAfter(calls), LastWindows(calls), c);
    } else {
      KeepsLive(TableAfter(calls), LastWindows(calls), Clock(calls), c);
    }
  }

  /** All along the run the live windows are in the table. */
  ghost predicate LiveThroughout(calls: seq<Call>) {
    LiveInTable(calls) && (calls == [] || LiveThroughout(calls[..|calls| - 1]))
  }

  lemma {:induction false} LiveThroughoutIff(calls: seq<Call>)
    requires Orderly(calls)
    ensures LiveThroughout(calls) <==> NeverForgets(calls)
  {
    if calls != [] {
      var front, c := calls[..|calls| - 1], calls[|calls| - 1];
      assert calls == front + [c];
      LiveThroughoutIff(front);
      if LiveInTable(front) {
        LiveStaysIff(front, c);
      }
    }
  }

  // --- The limit -----------------------------------------------------------------------------------

  ghost predicate LastOk(log: seq<Admission>, last: map<string, Window>, k: string) {
    if k in last then Exact(OfKey(log, k), last[k], PERIOD, PER_KEY) else OfKey(log, k) == []
  }

  ghost predicate LastsOk(log: seq<Admission>, last: map<string, Window>) { forall k :: LastOk(log, last, k) }

  ghost predicate KeysThin(log: seq<Admission>) { forall k :: Sparse(OfKey(log, k), PERIOD, 2 * PER_KEY) }

  ghost predicate RowOk(log: seq<Admission>, s: Slot<Window>, clock: int) {
    Exact(OfKey(log, s.key), s.row, PERIOD, PER_KEY) && s.row.start <= clock
  }

  /** What the log says of every window, in the table or not. */
  ghost predicate Told(log: seq<Admission>, slots: seq<Slot<Window>>, last: map<string, Window>, clock: int) {
    && LastsOk(log, last) && KeysThin(log)
    && (forall i :: 0 <= i < |slots| ==> RowOk(log, slots[i], clock))
    && Dated(last, clock) && Counts(slots, last) && Remembers(slots, last, clock)
  }

  /** The window a call finds or opens is the one its key's admissions call for. */
  lemma CurrentExact(log: seq<Admission>, slots: seq<Slot<Window>>, last: map<string, Window>, clock: int,
                     key: string, now: int)
    requires Told(log, slots, last, clock) && clock <= now
    ensures var w := Current(slots, key, now);
            Exact(OfKey(log, key), w, PERIOD, PER_KEY) && now - PERIOD < w.start <= now
  {
    assert LastOk(log, last, key);
    if !FreeOf(slots, key) {
      var i := IndexOf(slots, key);
      assert slots[i].key == key && RowOk(log, slots[i], clock);
      RollKeeps(OfKey(log, key), slots[i].row, now, PERIOD, PER_KEY);
    } else if key in last {
      assert !InTable(slots, key, last[key]);
      assert last[key].start <= clock - PERIOD;
      RollKeeps(OfKey(log, key), last[key], now, PERIOD, PER_KEY);
    }
  }

  /** The windows after a call: those of other keys are told as before. */
  lemma RowsTold(log: seq<Admission>, longer: seq<Admission>, slots: seq<Slot<Window>>, clock: int, now: int,
                 key: string, w: Window)
    requires |slots| <= SLOTS && Distinct(slots) && clock <= now
    requires forall i :: 0 <= i < |slots| ==> RowOk(log, slots[i], clock)
    requires forall k :: k != key ==> OfKey(longer, k) == OfKey(log, k)
    requires RowOk(longer, Slot(key, w), now)
    ensures var after := Set(slots, key, w); forall i :: 0 <= i < |after| ==> RowOk(longer, after[i], now)
  {
    var at := SetAt(slots, key, w);
    var after := Set(slots, key, w);
    forall i | 0 <= i < |after| ensures RowOk(longer, after[i], now) {
      if i != at {
        assert after[i] == slots[i] && RowOk(log, slots[i], clock);
      }
    }
  }

  lemma DeniedTold(log: seq<Admission>, t: Table, last: map<string, Window>, clock: int, c: Call)
    requires Told(log, t.entries, last, clock) && clock <= c.now && !Forgets(t, c)
    requires !TableAllow(t, c.key, c.actor, c.now).1
    ensures Told(log, TableAllow(t, c.key, c.actor, c.now).0.entries, last, c.now)
  {
    EntryStep(t, c);
    StepCounts(t, last, c);
    KeepsLive(t, last, clock, c);
    CurrentExact(log, t.entries, last, clock, c.key, c.now);
    RowsTold(log, log, t.entries, clock, c.now, c.key, Given(t, c));
    forall i | 0 <= i < |t.entries| ensures RowOk(log, t.entries[i], c.now) {
      assert RowOk(log, t.entries[i], clock);
    }
  }

  /** The log after an admission: the key's own part grows, the others' stay. */
  lemma AdmissionTold(log: seq<Admission>, last: map<string, Window>, w: Window, a: Admission)
    requires LastsOk(log, last) && KeysThin(log)
    requires Exact(OfKey(log, a.key), w, PERIOD, PER_KEY) && w.count < PER_KEY && w.start <= a.time < w.start + PERIOD
    ensures var longer := log + [a];
            && Exact(OfKey(longer, a.key), Counted(w), PERIOD, PER_KEY)
            && (forall k :: k != a.key ==> OfKey(longer, k) == OfKey(log, k))
            && LastsOk(longer, last[a.key := Counted(w)]) && KeysThin(longer)
  {
    assert LastOk(log, last, a.key) && Sparse(OfKey(log, a.key), PERIOD, 2 * PER_KEY);
    AdmitKeeps(OfKey(log, a.key), w, a, PERIOD, PER_KEY);
    AdmitSparse(OfKey(log, a.key), w, a, PERIOD, PER_KEY);
    OfKeySnoc(log, a, a.key);
    forall k
      ensures k != a.key ==> OfKey(log + [a], k) == OfKey(log, k)
      ensures LastOk(log + [a], last[a.key := Counted(w)], k) && Sparse(OfKey(log + [a], k), PERIOD, 2 * PER_KEY)
    {
      OfKeySnoc(log, a, k);
      assert LastOk(log, last, k) && Sparse(OfKey(log, k), PERIOD, 2 * PER_KEY);
    }
  }

  lemma AdmittedTold(log: seq<Admission>, t: Table, last: map<string, Window>, clock: int, c: Call)
    requires Told(log, t.entries, last, clock) && clock <= c.now && !Forgets(t, c)
    requires TableAllow(t, c.key, c.actor, c.now).1
    ensures Told(log + [Admission(c.now, c.key)], TableAllow(t, c.key, c.actor, c.now).0.entries,
                 last[c.key := Given(t, c)], c.now)
  {
    EntryStep(t, c);
    StepCounts(t, last, c);
    StepDated(t, last, clock, c);
    KeepsLive(t, last, clock, c);
    CurrentExact(log, t.entries, last, clock, c.key, c.now);
    AdmissionTold(log, last, Current(t.entries, c.key, c.now), Admission(c.now, c.key));
    RowsTold(log, log + [Admission(c.now, c.key)], t.entries, clock, c.now, c.key, Given(t, c));
  }

  lemma {:induction false} RunTold(calls: seq<Call>)
    requires Orderly(calls) && NeverForgets(calls)
    ensures Told(KeyLog(calls), TableAfter(calls).entries, LastWindows(calls), Clock(calls))
  {
    if calls != [] {
      var front, c := calls[..|calls| - 1], calls[|calls| - 1];
      RunTold(front);
      if Admits(calls) {
        AdmittedTold(KeyLog(front), TableAfter(front), LastWindows(front), Clock(front), c);
      } else {
        DeniedTold(KeyLog(front), TableAfter(front), LastWindows(front), Clock(front), c);
      }
    }
  }

  /** As long as no call forgets, an actor's offers to one group keep their limit. */
  lemma KeyLimitHolds(calls: seq<Call>, key: string, lo: int)
    requires Orderly(calls) && NeverForgets(calls)
    ensures Within(OfKey(KeyLog(calls), key), lo, PERIOD) <= 10
  {
    RunTold(calls);
    assert Sparse(OfKey(KeyLog(calls), key), PERIOD, 2 * PER_KEY);
  }
}
