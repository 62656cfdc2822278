/** The table of 320 slots never forgets a key that still matters: for every clock
    that does not run backwards it decides exactly like the unbounded limiter. */
module MessageRateSafety {
  import opened Slots
  import opened Windows
  import opened MessageRate

  // --- Runs --------------------------------------------------------------------------------

  datatype Call = Call(key: string, now: int)

  function Clock(calls: seq<Call>): int {
    if calls == [] then 0 else calls[|calls| - 1].now
  }

  predicate Monotone(calls: seq<Call>) {
    calls == [] || (Monotone(calls[..|calls| - 1]) && Clock(calls[..|calls| - 1]) <= Clock(calls))
  }

  function TableAfter(calls: seq<Call>): Table {
    if calls == [] then Table(NewRow(0), [])
    else
      var c := calls[|calls| - 1];
      TableAllow(TableAfter(calls[..|calls| - 1]), c.key, c.now).0
  }

  function IdealAfter(calls: seq<Call>): Ideal {
    if calls == [] then Ideal(NewRow(0), map[])
    else
      var c := calls[|calls| - 1];
      IdealAllow(IdealAfter(calls[..|calls| - 1]), c.key, c.now).0
  }

  /** Does the table admit the last call? */
  predicate Admits(calls: seq<Call>)
    requires calls != []
  {
    var c := calls[|calls| - 1];
    TableAllow(TableAfter(calls[..|calls| - 1]), c.key, c.now).1
  }

  /** The calls the table admitted. */
  function Log(calls: seq<Call>): seq<Admission> {
    if calls == [] then []
    else
      var c := calls[|calls| - 1];
      if Admits(calls) then Log(calls[..|calls| - 1]) + [Admission(c.now, c.key)] else Log(calls[..|calls| - 1])
  }

  // --- The invariant of the unbounded limiter ---------------------------------------------------

  ghost predicate RowOk(own: seq<Admission>, row: Row, burstLimit: nat, minuteLimit: nat, clock: int) {
    && Exact(own, row.burst, BURST_SECONDS, burstLimit)
    && Exact(own, row.minute, MINUTE_SECONDS, minuteLimit)
    && row.burst.start <= clock && row.minute.start <= clock
  }

  ghost predicate Thin(own: seq<Admission>, burstLimit: nat, minuteLimit: nat) {
    Sparse(own, BURST_SECONDS, 2 * burstLimit) && Sparse(own, MINUTE_SECONDS, 2 * minuteLimit)
  }

  /** Where a key's minute window comes from: an admission, or a call that found
      the burst window full. */
  predicate Origin(own: seq<Admission>, row: Row) {
    && row.burst.start < row.minute.start + MINUTE_SECONDS
    && (Since(own, row.minute.start) >= 1 || Since(own, row.minute.start - BURST_SECONDS + 1) >= BURST_PER_KEY)
  }

  ghost predicate KeyOk(log: seq<Admission>, rows: map<string, Row>, k: string, clock: int) {
    if k in rows then
      RowOk(OfKey(log, k), rows[k], BURST_PER_KEY, MINUTE_PER_KEY, clock) && Origin(OfKey(log, k), rows[k])
    else OfKey(log, k) == []
  }

  ghost predicate KeysOk(log: seq<Admission>, rows: map<string, Row>, clock: int) {
    forall k :: KeyOk(log, rows, k, clock)
  }

  ghost predicate KeysThin(log: seq<Admission>) {
    forall k :: Thin(OfKey(log, k), BURST_PER_KEY, MINUTE_PER_KEY)
  }

  ghost predicate Inv(log: seq<Admission>, s: Ideal, clock: int) {
    && RowOk(log, s.all, BURST_GLOBAL, MINUTE_GLOBAL, clock) && Thin(log, BURST_GLOBAL, MINUTE_GLOBAL)
    && KeysOk(log, s.rows, clock) && KeysThin(log)
    && Since(log, clock + 1) == 0
  }

  lemma RowRolls(own: seq<Admission>, row: Row, bl: nat, ml: nat, clock: int, now: int)
    requires RowOk(own, row, bl, ml, clock) && clock <= now
    ensures RowOk(own, row.Rolled(now), bl, ml, now)
    ensures var r := row.Rolled(now);
            now - BURST_SECONDS < r.burst.start <= now && now - MINUTE_SECONDS < r.minute.start <= now
  {
    RollKeeps(own, row.burst, now, BURST_SECONDS, bl);
    RollKeeps(own, row.minute, now, MINUTE_SECONDS, ml);
  }

  lemma RowCounts(own: seq<Admission>, row: Row, bl: nat, ml: nat, a: Admission)
    requires RowOk(own, row, bl, ml, a.time) && Thin(own, bl, ml) && !row.Full(bl, ml)
    requires a.time - BURST_SECONDS < row.burst.start && a.time - MINUTE_SECONDS < row.minute.start
    ensures RowOk(own + [a], row.Counted(), bl, ml, a.time) && Thin(own + [a], bl, ml)
  {
    AdmitKeeps(own, row.burst, a, BURST_SECONDS, bl);
    AdmitKeeps(own, row.minute, a, MINUTE_SECONDS, ml);
    AdmitSparse(own, row.burst, a, BURST_SECONDS, bl);
    AdmitSparse(own, row.minute, a, MINUTE_SECONDS, ml);
  }

  /** The row a key has before the admission is decided. */
  function Current(rows: map<string, Row>, key: string, now: int): Row {
    if key in rows then rows[key].Rolled(now) else NewRow(now)
  }

  lemma CurrentOk(log: seq<Admission>, rows: map<string, Row>, key: string, clock: int, now: int)
    requires KeyOk(log, rows, key, clock) && clock <= now
    ensures var row := Current(rows, key, now);
            && RowOk(OfKey(log, key), row, BURST_PER_KEY, MINUTE_PER_KEY, now)
            && now - BURST_SECONDS < row.burst.start <= now && now - MINUTE_SECONDS < row.minute.start <= now
  {
    if key in rows {
      RowRolls(OfKey(log, key), rows[key], BURST_PER_KEY, MINUTE_PER_KEY, clock, now);
    }
  }

  /** A denied key keeps an origin: its minute window is the old one, or it starts
      now because the burst window is full. */
  lemma DeniedOrigin(log: seq<Admission>, rows: map<string, Row>, key: string, clock: int, now: int)
    requires KeyOk(log, rows, key, clock) && clock <= now
    requires Current(rows, key, now).Full(BURST_PER_KEY, MINUTE_PER_KEY)
    ensures Origin(OfKey(log, key), Current(rows, key, now))
  {
    var own, row := OfKey(log, key), Current(rows, key, now);
    CurrentOk(log, rows, key, clock, now);
    assert key in rows;
    if row.minute.start != rows[key].minute.start {
      SinceMono(own, row.minute.start - BURST_SECONDS + 1, row.burst.start);
    }
  }

  lemma DeniedKeeps(log: seq<Admission>, rows: map<string, Row>, key: string, clock: int, now: int)
    requires KeysOk(log, rows, clock) && clock <= now
    requires Current(rows, key, now).Full(BURST_PER_KEY, MINUTE_PER_KEY)
    ensures KeysOk(log, rows[key := Current(rows, key, now)], now)
  {
    var after := rows[key := Current(rows, key, now)];
    forall k ensures KeyOk(log, after, k, now) {
      assert KeyOk(log, rows, k, clock);
      if k == key {
        CurrentOk(log, rows, key, clock, now);
        DeniedOrigin(log, rows, key, clock, now);
      }
    }
  }

  lemma AdmittedKeeps(log: seq<Admission>, rows: map<string, Row>, key: string, clock: int, now: int)
    requires KeysOk(log, rows, clock) && KeysThin(log) && clock <= now
    requires !Current(rows, key, now).Full(BURST_PER_KEY, MINUTE_PER_KEY)
    ensures var longer := log + [Admission(now, key)];
            && KeysOk(longer, rows[key := Current(rows, key, now).Counted()], now)
            && KeysThin(longer)
  {
    var a := Admission(now, key);
    var row := Current(rows, key, now);
    var after := rows[key := row.Counted()];
    assert KeyOk(log, rows, key, clock) && Thin(OfKey(log, key), BURST_PER_KEY, MINUTE_PER_KEY);
    CurrentOk(log, rows, key, clock, now);
    RowCounts(OfKey(log, key), row, BURST_PER_KEY, MINUTE_PER_KEY, a);
    SinceSnoc(OfKey(log, key), a, row.minute.start);
    forall k
      ensures KeyOk(log + [a], after, k, now) && Thin(OfKey(log + [a], k), BURST_PER_KEY, MINUTE_PER_KEY)
    {
      OfKeySnoc(log, a, k);
      assert KeyOk(log, rows, k, clock) && Thin(OfKey(log, k), BURST_PER_KEY, MINUTE_PER_KEY);
    }
  }

  lemma IdealKeeps(log: seq<Admission>, s: Ideal, clock: int, key: string, now: int)
    requires Inv(log, s, clock) && clock <= now
    ensures var (after, ok) := IdealAllow(s, key, now);
            Inv(if ok then log + [Admission(now, key)] else log, after, now)
  {
    var all := s.all.Rolled(now);
    RowRolls(log, s.all, BURST_GLOBAL, MINUTE_GLOBAL, clock, now);
    SinceMono(log, clock + 1, now + 1);
    if all.Full(BURST_GLOBAL, MINUTE_GLOBAL) {
      forall k ensures KeyOk(log, s.rows, k, now) { assert KeyOk(log, s.rows, k, clock); }
    } else if Current(s.rows, key, now).Full(BURST_PER_KEY, MINUTE_PER_KEY) {
      DeniedKeeps(log, s.rows, key, clock, now);
    } else {
      var a := Admission(now, key);
      RowCounts(log, all, BURST_GLOBAL, MINUTE_GLOBAL, a);
      AdmittedKeeps(log, s.rows, key, clock, now);
      SinceSnoc(log, a, now + 1);
    }
  }

  // --- How many keys can matter at once -----------------------------------------------------

  /** At most 280 admissions in any 70 s that end now. */
  lemma RecentAdmissions(log: seq<Admission>, all: Row, now: int)
    requires RowOk(log, all, BURST_GLOBAL, MINUTE_GLOBAL, now) && Thin(log, BURST_GLOBAL, MINUTE_GLOBAL)
    requires now < all.minute.start + MINUTE_SECONDS && Since(log, now + 1) == 0
    ensures Since(log, now - 69) <= 280
  {
    var m := all.minute.start;
    if now >= m + BURST_SECONDS {
      SinceMono(log, m - 59, now - 69);
    } else {
      SinceMono(log, m - 69, now - 69);
      SinceMono(log, now + 1, m + BURST_SECONDS);
      assert Within(log, m - 69, BURST_SECONDS) <= 80;
      assert Within(log, m, BURST_SECONDS) <= 80;
    }
  }

  /** A key whose minute window began in the last 70 s has an admission in that
      time, or ten in the 10 s before. */
  lemma RecentKey(log: seq<Admission>, rows: map<string, Row>, k: string, now: int)
    requires k in rows && KeyOk(log, rows, k, now) && Since(log, now + 1) == 0
    requires rows[k].minute.start >= now - 69
    ensures Within(OfKey(log, k), now - 69, 70) >= 1
         || Within(OfKey(log, k), now - 79, BURST_SECONDS) >= BURST_PER_KEY
  {
    var own, m := OfKey(log, k), rows[k].minute.start;
    OwnSince(log, k, now + 1);
    SinceMono(own, now - 69, m);
    SinceMono(own, now - 79, m - BURST_SECONDS + 1);
  }

  /** At most 288 keys have a minute window that began in the last 70 s: 280 by
      their admissions, 8 more that a full burst window denied. */
  lemma LiveKeys(log: seq<Admission>, s: Ideal, keys: set<string>, now: int)
    requires Inv(log, s, now) && now < s.all.minute.start + MINUTE_SECONDS
    requires forall k :: k in keys ==> k in s.rows && s.rows[k].minute.start >= now - 69
    ensures |keys| <= 288
  {
    var admitted := set k | k in keys && Within(OfKey(log, k), now - 69, 70) >= 1;
    var blocked := keys - admitted;
    RecentAdmissions(log, s.all, now);
    KeysShare(log, admitted, now - 69, 70, 1);
    forall k | k in blocked ensures Within(OfKey(log, k), now - 79, BURST_SECONDS) >= BURST_PER_KEY {
      assert KeyOk(log, s.rows, k, now);
      RecentKey(log, s.rows, k, now);
    }
    KeysShare(log, blocked, now - 79, BURST_SECONDS, BURST_PER_KEY);
    assert Within(log, now - 79, BURST_SECONDS) <= 80;
    assert keys == admitted + blocked;
  }

  // --- The table against the unbounded limiter --------------------------------------------------

  predicate Expired(row: Row, clock: int) {
    row.minute.start <= clock - MINUTE_SECONDS && row.burst.start <= clock - BURST_SECONDS
  }

  function ExpiredAt(clock: int): Row -> bool { row => Expired(row, clock) }

  ghost predicate Agree(t: Table, s: Ideal, clock: int) {
    t.all == s.all && Mirrors(t.slots, s.rows, SLOTS, ExpiredAt(clock))
  }

  /** The slot a full table gives away is one whose windows have both run out. */
  lemma VictimExpired(log: seq<Admission>, t: Table, s: Ideal, now: int)
    requires Inv(log, s, now) && now < s.all.minute.start + MINUTE_SECONDS
    requires |t.slots| == SLOTS && Distinct(t.slots) && SlotsAgree(t.slots, s.rows)
    ensures Expired(t.slots[Oldest(t.slots, Age)].row, now)
  {
    var v := t.slots[Oldest(t.slots, Age)];
    assert KeyOk(log, s.rows, v.key, now);
    if v.row.minute.start >= now - 69 {
      KeysAre(t.slots);
      forall k | k in Keys(t.slots) ensures k in s.rows && s.rows[k].minute.start >= now - 69 {
        var i :| 0 <= i < |t.slots| && t.slots[i].key == k;
      }
      LiveKeys(log, s, Keys(t.slots), now);
    }
  }

  lemma VictimExpiredNow(log: seq<Admission>, t: Table, s: Ideal, clock: int, now: int)
    requires Inv(log, s, clock) && Agree(t, s, clock) && clock <= now && |t.slots| == SLOTS
    ensures Expired(t.slots[Oldest(t.slots, Age)].row, now)
  {
    RowRolls(log, s.all, BURST_GLOBAL, MINUTE_GLOBAL, clock, now);
    SinceMono(log, clock + 1, now + 1);
    forall k ensures KeyOk(log, s.rows, k, now) { assert KeyOk(log, s.rows, k, clock); }
    VictimExpired(log, t, s.(all := s.all.Rolled(now)), now);
  }

  lemma SameRow(t: Table, s: Ideal, clock: int, key: string, now: int)
    requires Agree(t, s, clock) && clock <= now
    ensures Current(s.rows, key, now)
         == if FreeOf(t.slots, key) then NewRow(now) else t.slots[Place(t.slots, key, SLOTS, Age)].row.Rolled(now)
  {
  }

  /** One call: same decision, and the table still agrees. */
  lemma CallAgrees(log: seq<Admission>, t: Table, s: Ideal, clock: int, key: string, now: int)
    requires Inv(log, s, clock) && Agree(t, s, clock) && clock <= now
    ensures TableAllow(t, key, now).1 == IdealAllow(s, key, now).1
    ensures Agree(TableAllow(t, key, now).0, IdealAllow(s, key, now).0, now)
  {
    assert Mirrors(t.slots, s.rows, SLOTS, ExpiredAt(now));
    if |t.slots| == SLOTS {
      VictimExpiredNow(log, t, s, clock, now);
    }
    SameRow(t, s, clock, key, now);
    var row := Current(s.rows, key, now);
    PutMirrors(t.slots, s.rows, SLOTS, Age, ExpiredAt(now), key, row);
    PutMirrors(t.slots, s.rows, SLOTS, Age, ExpiredAt(now), key, row.Counted());
  }

  // --- The theorems ------------------------------------------------------------------------------

  lemma {:induction false} RunAgrees(calls: seq<Call>)
    requires Monotone(calls)
    ensures Inv(Log(calls), IdealAfter(calls), Clock(calls))
    ensures Agree(TableAfter(calls), IdealAfter(calls), Clock(calls))
  {
    if calls == [] {
      forall k ensures Thin(OfKey([], k), BURST_PER_KEY, MINUTE_PER_KEY) { }
    } else {
      var front, c := calls[..|calls| - 1], calls[|calls| - 1];
      RunAgrees(front);
      CallAgrees(Log(front), TableAfter(front), IdealAfter(front), Clock(front), c.key, c.now);
      IdealKeeps(Log(front), IdealAfter(front), Clock(front), c.key, c.now);
    }
  }

  /** The bounded table decides like the unbounded one, for every run of calls. */
  lemma BoundedTableIsExact(calls: seq<Call>, key: string, now: int)
    requires Monotone(calls) && Clock(calls) <= now
    ensures TableAllow(TableAfter(calls), key, now).1 == IdealAllow(IdealAfter(calls), key, now).1
  {
    RunAgrees(calls);
    CallAgrees(Log(calls), TableAfter(calls), IdealAfter(calls), Clock(calls), key, now);
  }

  /** A full table never gives away a slot with a live window. */
  lemma NoLiveKeyIsEvicted(calls: seq<Call>, key: string, now: int)
    requires Monotone(calls) && Clock(calls) <= now
    requires var slots := TableAfter(calls).slots; |slots| == SLOTS && FreeOf(slots, key)
    ensures var slots := TableAfter(calls).slots; Expired(slots[Place(slots, key, SLOTS, Age)].row, now)
  {
    RunAgrees(calls);
    VictimExpiredNow(Log(calls), TableAfter(calls), IdealAfter(calls), Clock(calls), now);
  }

  /** What the limits mean for every interval of every run. */
  lemma LimitsHold(calls: seq<Call>, key: string, lo: int)
    requires Monotone(calls)
    ensures Within(OfKey(Log(calls), key), lo, BURST_SECONDS) <= 20
    ensures Within(OfKey(Log(calls), key), lo, MINUTE_SECONDS) <= 60
    ensures Within(Log(calls), lo, BURST_SECONDS) <= 80
    ensures Within(Log(calls), lo, MINUTE_SECONDS) <= 240
  {
    RunAgrees(calls);
    assert Thin(OfKey(Log(calls), key), BURST_PER_KEY, MINUTE_PER_KEY);
  }
}
