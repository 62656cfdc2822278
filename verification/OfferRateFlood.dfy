/** The limit per group and actor can be exceeded: calls that are denied because
    their actor has used up its own limit still take over the entries of others. */
module OfferRateFlood {
  import opened Slots
  import opened Windows
  import opened OfferRate
  import opened OfferRateSafety
  import opened OfferRateKeys

  // --- The actors of the run -----------------------------------------------------------------

  const VICTIM := "g:b"
  const OWNER := "b"
  const FLOODER := "a"

  /** A key no call has used before. */
  function FreshKey(n: nat): string { seq(n + 1, i => 'x') + ":a" }

  function Entry(n: nat): Slot<Window> { Slot(FreshKey(n), Window(58, 0)) }

  function Entries(n: nat): (es: seq<Slot<Window>>)
    ensures |es| == n && forall i :: 0 <= i < n ==> es[i] == Entry(i)
  {
    seq(n, i requires 0 <= i < n => Entry(i))
  }

  lemma FreshKeysDiffer(m: nat, n: nat)
    requires m != n
    ensures FreshKey(m) != FreshKey(n)
  {
    assert |FreshKey(m)| != |FreshKey(n)|;
  }

  lemma FreshIsOther(n: nat)
    ensures FreshKey(n) != VICTIM && FreshKey(n) != "p:a" && FreshKey(n) != "q:a"
  {
    assert FreshKey(n)[0] == 'x';
  }

  // --- Repeated calls ------------------------------------------------------------------------

  predicate InForce(w: Window, now: int) { w.start <= now < w.start + PERIOD }

  function Adding(w: Window, n: nat): Window { w.(count := w.count + n) }

  lemma SetIsSet(slots: seq<Slot<Window>>, key: string, w: Window, v: Window, now: int)
    requires |slots| <= SLOTS && InForce(w, now)
    ensures Current(Set(slots, key, w), key, now) == w && Set(Set(slots, key, w), key, v) == Set(slots, key, v)
    ensures |Set(slots, key, w)| <= SLOTS
  {
    var at := Place(slots, key, SLOTS, Start);
    var after := Set(slots, key, w);
    assert FreeOf(slots[..IndexOf(slots, key)], key);
    assert after[..at] == slots[..at];
    assert FreeOf(after[..at], key) by {
      if !FreeOf(slots, key) {
        assert at == IndexOf(slots, key);
      } else {
        assert forall i :: 0 <= i < at ==> slots[..at][i] == slots[i];
      }
    }
    FirstAt(after, key, at);
  }

  /** What `n` admitted calls of one kind leave. */
  function Taken(t: Table, c: Call, n: nat): Table {
    Table(Adding(Rolled(t.all, c.now, PERIOD), n),
          Set(t.entries, c.key, Adding(Current(t.entries, c.key, c.now), n)),
          Set(t.actors, c.actor, Adding(Current(t.actors, c.actor, c.now), n)))
  }

  predicate Fits(t: Table) { |t.entries| <= SLOTS && |t.actors| <= SLOTS }

  predicate Room(t: Table, c: Call, n: nat) {
    && Fits(t) && |c.actor| <= ACTOR_LENGTH
    && Rolled(t.all, c.now, PERIOD).count + n <= GLOBAL
    && Current(t.entries, c.key, c.now).count + n <= PER_KEY
    && Current(t.actors, c.actor, c.now).count + n <= PER_ACTOR
  }

  /** Once the windows are in force, an admitted call counts in each of them. */
  lemma AllowCounts(t: Table, c: Call, all: Window, entry: Window, own: Window)
    requires |c.actor| <= ACTOR_LENGTH && Rolled(t.all, c.now, PERIOD) == all && all.count < GLOBAL
    requires Current(t.entries, c.key, c.now) == entry && entry.count < PER_KEY
    requires Current(t.actors, c.actor, c.now) == own && own.count < PER_ACTOR
    ensures TableAllow(t, c.key, c.actor, c.now) ==
            (Table(Counted(all), Set(t.entries, c.key, Counted(entry)), Set(t.actors, c.actor, Counted(own))), true)
  {
  }

  lemma AllAfter(w: Window, now: int, n: nat)
    ensures var r := Adding(Rolled(w, now, PERIOD), n); Rolled(r, now, PERIOD) == r
  {
  }

  lemma CurrentAfter(slots: seq<Slot<Window>>, key: string, now: int, n: nat)
    requires |slots| <= SLOTS
    ensures var w := Adding(Current(slots, key, now), n);
            var after := Set(slots, key, w);
            && Current(after, key, now) == w
            && Set(after, key, Counted(w)) == Set(slots, key, Adding(Current(slots, key, now), n + 1))
  {
    var w := Adding(Current(slots, key, now), n);
    SetIsSet(slots, key, w, Counted(w), now);
  }

  lemma TakeOne(t: Table, c: Call, n: nat)
    requires Room(t, c, n + 1)
    ensures TableAllow(Taken(t, c, n), c.key, c.actor, c.now) == (Taken(t, c, n + 1), true)
  {
    AllAfter(t.all, c.now, n);
    CurrentAfter(t.entries, c.key, c.now, n);
    CurrentAfter(t.actors, c.actor, c.now, n);
    AllowCounts(Taken(t, c, n), c, Adding(Rolled(t.all, c.now, PERIOD), n),
                Adding(Current(t.entries, c.key, c.now), n), Adding(Current(t.actors, c.actor, c.now), n));
  }

  /** How many offers of the victim's key were admitted in the minute from second 1 on. */
  function Score(calls: seq<Call>): int { Within(OfKey(KeyLog(calls), VICTIM), 1, PERIOD) }

  predicate Scores(c: Call) { c.key == VICTIM && 1 <= c.now < 1 + PERIOD }

  /** An orderly run up to `now` leaves the table `t` and this score. */
  ghost predicate Reaches(calls: seq<Call>, now: int, t: Table, score: int) {
    Orderly(calls) && Clock(calls) == now && TableAfter(calls) == t && Score(calls) == score
  }

  lemma ScoreExtends(calls: seq<Call>, c: Call)
    ensures Score(calls + [c]) == Score(calls) + if Admits(calls + [c]) && Scores(c) then 1 else 0
  {
    assert (calls + [c])[..|calls|] == calls;
    if Admits(calls + [c]) {
      var log, a := KeyLog(calls), Admission(c.now, c.key);
      OfKeySnoc(log, a, VICTIM);
      SinceSnoc(OfKey(log, VICTIM), a, 1);
      SinceSnoc(OfKey(log, VICTIM), a, 1 + PERIOD);
    }
  }

  lemma RunExtends(calls: seq<Call>, c: Call)
    requires Orderly(calls) && Clock(calls) <= c.now && |c.actor| <= ACTOR_LENGTH
    ensures Orderly(calls + [c]) && Clock(calls + [c]) == c.now
    ensures TableAfter(calls + [c]) == TableAllow(TableAfter(calls), c.key, c.actor, c.now).0
    ensures Admits(calls + [c]) == TableAllow(TableAfter(calls), c.key, c.actor, c.now).1
  {
    assert (calls + [c])[..|calls|] == calls;
  }

  function Raised(score: int, c: Call, n: nat): int { if Scores(c) then score + n else score }

  lemma Extends(calls: seq<Call>, clock: int, t: Table, score: int, c: Call, after: Table, ok: bool)
    requires Reaches(calls, clock, t, score) && clock <= c.now && |c.actor| <= ACTOR_LENGTH
    requires TableAllow(t, c.key, c.actor, c.now) == (after, ok)
    ensures Reaches(calls + [c], c.now, after, if ok then Raised(score, c, 1) else score)
  {
    ScoreExtends(calls, c);
    RunExtends(calls, c);
  }

  lemma TakeFirst(t: Table, c: Call)
    requires Room(t, c, 1)
    ensures TableAllow(t, c.key, c.actor, c.now) == (Taken(t, c, 1), true)
  {
    AllowCounts(t, c, Rolled(t.all, c.now, PERIOD), Current(t.entries, c.key, c.now), Current(t.actors, c.actor, c.now));
  }

  /** Each table leads to the next by one admitted call. */
  ghost predicate Ladder(tables: seq<Table>, c: Call) {
    forall i :: 0 <= i < |tables| - 1 ==> TableAllow(tables[i], c.key, c.actor, c.now) == (tables[i + 1], true)
  }

  lemma {:induction false} Climbs(calls: seq<Call>, clock: int, tables: seq<Table>, score: int, c: Call, n: nat)
    returns (after: seq<Call>)
    requires n < |tables| && Ladder(tables, c) && Reaches(calls, clock, tables[0], score)
    requires clock <= c.now && |c.actor| <= ACTOR_LENGTH
    ensures Reaches(after, if n == 0 then clock else c.now, tables[n], Raised(score, c, n))
    decreases n
  {
    if n == 0 {
      after := calls;
    } else {
      var before := Climbs(calls, clock, tables, score, c, n - 1);
      Extends(before, if n == 1 then clock else c.now, tables[n - 1], Raised(score, c, n - 1), c, tables[n], true);
      after := before + [c];
    }
  }

  function Rung(t: Table, c: Call, n: nat): Table { if n == 0 then t else Taken(t, c, n) }

  lemma RungStep(t: Table, c: Call, i: nat, n: nat)
    requires Room(t, c, n) && i < n
    ensures TableAllow(Rung(t, c, i), c.key, c.actor, c.now) == (Rung(t, c, i + 1), true)
  {
    if i == 0 { TakeFirst(t, c); } else { TakeOne(t, c, i); }
  }

  lemma LadderGrows(tables: seq<Table>, c: Call, next: Table)
    requires tables != [] && Ladder(tables, c)
    requires TableAllow(tables[|tables| - 1], c.key, c.actor, c.now) == (next, true)
    ensures Ladder(tables + [next], c)
  {
  }

  lemma {:induction false} Rungs(t: Table, c: Call, i: nat, n: nat) returns (tables: seq<Table>)
    requires Room(t, c, n) && i <= n
    ensures |tables| == i + 1 && tables[0] == t && tables[i] == Rung(t, c, i) && Ladder(tables, c)
    decreases i
  {
    if i == 0 {
      tables := [t];
    } else {
      tables := Rungs(t, c, i - 1, n);
      RungStep(t, c, i - 1, n);
      LadderGrows(tables, c, Rung(t, c, i));
      tables := tables + [Rung(t, c, i)];
    }
  }

  /** Calls of one kind are admitted as long as there is room. */
  lemma Takes(calls: seq<Call>, clock: int, t: Table, score: int, c: Call, n: nat) returns (after: seq<Call>)
    requires Reaches(calls, clock, t, score) && clock <= c.now && n > 0 && Room(t, c, n)
    ensures Reaches(after, c.now, Taken(t, c, n), Raised(score, c, n))
  {
    var tables := Rungs(t, c, n, n);
    after := Climbs(calls, clock, tables, score, c, n);
  }

  // --- The flood -------------------------------------------------------------------------------

  /** The flooder has used up its limit, and all calls together have not. */
  predicate Exhausted(t: Table, now: int) {
    && Fits(t) && Rolled(t.all, now, PERIOD).count < GLOBAL
    && !FreeOf(t.actors, FLOODER) && Current(t.actors, FLOODER, now).count >= PER_ACTOR
    && t.actors[IndexOf(t.actors, FLOODER)].row == Current(t.actors, FLOODER, now)
  }

  /** What a denied call with a new key leaves. */
  function Flooded(t: Table, key: string, now: int): Table {
    Table(Rolled(t.all, now, PERIOD), Set(t.entries, key, Window(now, 0)), t.actors)
  }

  lemma FloodsTable(t: Table, key: string, now: int)
    requires Exhausted(t, now) && FreeOf(t.entries, key)
    ensures TableAllow(t, key, FLOODER, now) == (Flooded(t, key, now), false)
  {
    var own := Current(t.actors, FLOODER, now);
    assert t.actors[IndexOf(t.actors, FLOODER)] == Slot(FLOODER, own);
    assert Set(t.actors, FLOODER, own) == t.actors;
  }

  /** A denied call with a new key: an entry is opened all the same. */
  lemma Floods(calls: seq<Call>, clock: int, t: Table, score: int, key: string, now: int)
    requires Reaches(calls, clock, t, score) && clock <= now && Exhausted(t, now) && FreeOf(t.entries, key)
    ensures Reaches(calls + [Call(key, FLOODER, now)], now, Flooded(t, key, now), score)
  {
    FloodsTable(t, key, now);
    Extends(calls, clock, t, score, Call(key, FLOODER, now), Flooded(t, key, now), false);
  }

  lemma FreshIsFree(es: seq<Slot<Window>>, n: nat)
    requires FreeOf(es, FreshKey(n))
    ensures FreeOf(es + Entries(n), FreshKey(n))
    ensures |es + Entries(n)| < SLOTS ==>
              Set(es + Entries(n), FreshKey(n), Window(58, 0)) == es + Entries(n + 1)
  {
    var all := es + Entries(n);
    forall i | 0 <= i < |all| ensures all[i].key != FreshKey(n) {
      if i >= |es| {
        FreshKeysDiffer(i - |es|, n);
      }
    }
    assert Entries(n + 1) == Entries(n) + [Entry(n)];
  }

  /** New keys fill the free slots one after the other. */
  lemma {:induction false} FloodFills(calls: seq<Call>, t: Table, score: int, n: nat) returns (after: seq<Call>)
    requires Reaches(calls, 58, t, score) && Exhausted(t, 58) && Rolled(t.all, 58, PERIOD) == t.all
    requires |t.entries| + n <= SLOTS && forall i: nat :: FreeOf(t.entries, FreshKey(i))
    ensures Reaches(after, 58, t.(entries := t.entries + Entries(n)), score)
    decreases n
  {
    if n == 0 {
      after := calls;
      assert t.entries + Entries(0) == t.entries;
    } else {
      var before := FloodFills(calls, t, score, n - 1);
      var filled := t.(entries := t.entries + Entries(n - 1));
      FreshIsFree(t.entries, n - 1);
      Floods(before, 58, filled, score, FreshKey(n - 1), 58);
      after := before + [Call(FreshKey(n - 1), FLOODER, 58)];
    }
  }

  lemma OldestIs(slots: seq<Slot<Window>>, i: nat)
    requires i < |slots|
    requires forall j :: 0 <= j < |slots| ==> slots[i].row.start <= slots[j].row.start
    requires forall j :: 0 <= j < i ==> slots[i].row.start < slots[j].row.start
    ensures Oldest(slots, Start) == i
  {
  }

  // --- The run -----------------------------------------------------------------------------------

  function Held(key: string, start: int, count: nat): Slot<Window> { Slot(key, Window(start, count)) }

  /** The victim's entry before it is taken over, and the two that the flooder's own
      offers opened. */
  const BEFORE: seq<Slot<Window>> := [Held(VICTIM, 0, 5), Held("p:a", 58, 5), Held("q:a", 58, 5)]
  const ACTORS: seq<Slot<Window>> := [Held(OWNER, 0, 5), Held(FLOODER, 58, 10)]

  /** The tables of the run, one per burst of calls. */
  const T0 := Table(Window(0, 0), [], [])
  const T1 := Table(Window(0, 1), [Held(VICTIM, 0, 1)], [Held(OWNER, 0, 1)])
  const T2 := Table(Window(0, 5), [Held(VICTIM, 0, 5)], [Held(OWNER, 0, 5)])
  const T3 := Table(Window(0, 10), BEFORE[..2], [Held(OWNER, 0, 5), Held(FLOODER, 58, 5)])
  const T4 := Table(Window(0, 15), BEFORE, ACTORS)

  lemma First()
    ensures var c := Call(VICTIM, OWNER, 0); Room(T0, c, 1) && Taken(T0, c, 1) == T1
  {
    assert Set([], VICTIM, Window(0, 1)) == [Held(VICTIM, 0, 1)];
    assert Set([], OWNER, Window(0, 1)) == [Held(OWNER, 0, 1)];
  }

  lemma Second()
    ensures var c := Call(VICTIM, OWNER, 58); Room(T1, c, 4) && Taken(T1, c, 4) == T2
  {
    SetHeld(T1.entries, 0, VICTIM, Window(0, 5));
    SetHeld(T1.actors, 0, OWNER, Window(0, 5));
  }

  lemma Third()
    ensures var c := Call("p:a", FLOODER, 58); Room(T2, c, 5) && Taken(T2, c, 5) == T3
  {
    assert FreeOf(T2.entries, "p:a") && FreeOf(T2.actors, FLOODER);
    assert BEFORE[..2] == T2.entries + [Held("p:a", 58, 5)];
  }

  lemma Fourth()
    ensures var c := Call("q:a", FLOODER, 58); Room(T3, c, 5) && Taken(T3, c, 5) == T4
  {
    SetHeld(T3.actors, 1, FLOODER, Window(58, 10));
    assert FreeOf(T3.entries, "q:a");
    assert BEFORE == BEFORE[..2] + [Held("q:a", 58, 5)];
  }

  /** Writing a key that is in its place. */
  lemma SetHeld(slots: seq<Slot<Window>>, i: nat, key: string, w: Window)
    requires i < |slots| && slots[i].key == key && FreeOf(slots[..i], key)
    ensures IndexOf(slots, key) == i && Set(slots, key, w) == slots[i := Slot(key, w)]
  {
    FirstAt(slots, key, i);
  }

  lemma Nothing() returns (calls: seq<Call>)
    ensures Reaches(calls, 0, T0, 0)
  {
    calls := [];
  }

  lemma ReachesFirst() returns (calls: seq<Call>)
    ensures Reaches(calls, 0, T1, 0)
  {
    calls := Nothing();
    First();
    calls := Takes(calls, 0, T0, 0, Call(VICTIM, OWNER, 0), 1);
  }

  lemma ReachesSecond() returns (calls: seq<Call>)
    ensures Reaches(calls, 58, T2, 4)
  {
    calls := ReachesFirst();
    Second();
    calls := Takes(calls, 0, T1, 0, Call(VICTIM, OWNER, 58), 4);
  }

  lemma ReachesThird() returns (calls: seq<Call>)
    ensures Reaches(calls, 58, T3, 4)
  {
    calls := ReachesSecond();
    Third();
    calls := Takes(calls, 58, T2, 4, Call("p:a", FLOODER, 58), 5);
  }

  lemma ReachesFourth() returns (calls: seq<Call>)
    ensures Reaches(calls, 58, T4, 4)
  {
    calls := ReachesThird();
    Fourth();
    calls := Takes(calls, 58, T3, 4, Call("q:a", FLOODER, 58), 5);
  }

  /** The full table: `first`, the flooder's own two entries and 61 new keys. */
  function Full(first: Slot<Window>): seq<Slot<Window>> { [first] + BEFORE[1..] + Entries(61) }

  lemma FullIs(first: Slot<Window>, key: string)
    requires key == VICTIM || exists m: nat :: m >= 61 && key == FreshKey(m)
    ensures |Full(first)| == SLOTS
    ensures first.key != key ==> FreeOf(Full(first), key)
    ensures forall j :: 1 <= j < SLOTS ==> Full(first)[j].row.start == 58
  {
    var es := Full(first);
    forall j | 1 <= j < SLOTS ensures es[j].key != key && es[j].row.start == 58 {
      if j < 3 {
        assert es[j] == BEFORE[j];
      } else {
        assert es[j] == Entry(j - 3);
      }
      if key == VICTIM {
        if j >= 3 {
          FreshIsOther(j - 3);
        }
      } else {
        var m: nat :| m >= 61 && key == FreshKey(m);
        FreshIsOther(m);
        if j >= 3 {
          FreshKeysDiffer(j - 3, m);
        }
      }
    }
  }

  /** A new key takes over the first place. */
  lemma FullSet(first: Slot<Window>, key: string, w: Window)
    requires key == VICTIM || exists m: nat :: m >= 61 && key == FreshKey(m)
    requires first.key != key && first.row.start <= 58
    ensures FreeOf(Full(first), key) && Set(Full(first), key, w) == Full(Slot(key, w))
  {
    FullIs(first, key);
    OldestIs(Full(first), 0);
  }

  lemma NamesAreFree()
    ensures forall i: nat :: FreeOf(BEFORE, FreshKey(i))
  {
    forall i: nat ensures FreeOf(BEFORE, FreshKey(i)) {
      FreshIsOther(i);
    }
  }

  const T5 := Table(Window(0, 15), Full(BEFORE[0]), ACTORS)
  const T6 := Table(Window(0, 15), Full(Entry(61)), ACTORS)
  const T7 := Table(Window(0, 20), Full(Held(VICTIM, 58, 5)), [Held(OWNER, 0, 10), Held(FLOODER, 58, 10)])
  const T8 := Table(Window(60, 0), Full(Held(FreshKey(62), 60, 0)), [Held(OWNER, 0, 10), Held(FLOODER, 58, 10)])

  lemma FlooderExhausted(t: Table, now: int)
    requires Fits(t) && Rolled(t.all, now, PERIOD).count < GLOBAL && now < 58 + PERIOD && now >= 58
    requires |t.actors| == 2 && t.actors[0].key == OWNER && t.actors[1] == Held(FLOODER, 58, 10)
    ensures Exhausted(t, now)
  {
    assert FreeOf(t.actors[..1], FLOODER);
    FirstAt(t.actors, FLOODER, 1);
  }

  lemma Fills()
    ensures Exhausted(T4, 58) && T4.(entries := T4.entries + Entries(61)) == T5
    ensures forall i: nat :: FreeOf(T4.entries, FreshKey(i))
  {
    FlooderExhausted(T4, 58);
    NamesAreFree();
    assert BEFORE + Entries(61) == Full(BEFORE[0]);
  }

  lemma ReachesFull() returns (calls: seq<Call>)
    ensures Reaches(calls, 58, T5, 4)
  {
    calls := ReachesFourth();
    Fills();
    calls := FloodFills(calls, T4, 4, 61);
  }

  lemma TakesOver()
    ensures Exhausted(T5, 58) && FreeOf(T5.entries, FreshKey(61)) && Flooded(T5, FreshKey(61), 58) == T6
  {
    FreshIsOther(61);
    FullIs(BEFORE[0], FreshKey(61));
    FullSet(BEFORE[0], FreshKey(61), Window(58, 0));
    FlooderExhausted(T5, 58);
  }

  lemma ReachesOver() returns (calls: seq<Call>)
    ensures Reaches(calls, 58, T6, 4)
  {
    calls := ReachesFull();
    TakesOver();
    Floods(calls, 58, T5, 4, FreshKey(61), 58);
    calls := calls + [Call(FreshKey(61), FLOODER, 58)];
  }

  /** The owner's window is as its first five calls left it. */
  lemma OwnerHeld()
    ensures Current(ACTORS, OWNER, 58) == Window(0, 5)
    ensures Set(ACTORS, OWNER, Window(0, 10)) == T7.actors
  {
    SetHeld(ACTORS, 0, OWNER, Window(0, 10));
  }

  /** Nothing is left of the victim's own. */
  lemma VictimGone()
    ensures Current(T6.entries, VICTIM, 58) == Window(58, 0)
    ensures Set(T6.entries, VICTIM, Window(58, 5)) == T7.entries && |T6.entries| == SLOTS
  {
    FreshIsOther(61);
    FullIs(Entry(61), VICTIM);
    FullSet(Entry(61), VICTIM, Window(58, 5));
  }

  lemma Again()
    ensures var c := Call(VICTIM, OWNER, 58); Room(T6, c, 5) && Taken(T6, c, 5) == T7
  {
    OwnerHeld();
    VictimGone();
  }

  lemma ReachesAgain() returns (calls: seq<Call>)
    ensures Reaches(calls, 58, T7, 9)
  {
    calls := ReachesOver();
    Again();
    calls := Takes(calls, 58, T6, 4, Call(VICTIM, OWNER, 58), 5);
  }

  lemma TakesOverAgain()
    ensures Exhausted(T7, 60) && FreeOf(T7.entries, FreshKey(62)) && Flooded(T7, FreshKey(62), 60) == T8
  {
    FreshIsOther(62);
    FullIs(Held(VICTIM, 58, 5), FreshKey(62));
    FullSet(Held(VICTIM, 58, 5), FreshKey(62), Window(60, 0));
    FlooderExhausted(T7, 60);
  }

  lemma Last()
    ensures Room(T8, Call(VICTIM, OWNER, 60), 5)
  {
    FreshIsOther(62);
    FullIs(Held(FreshKey(62), 60, 0), VICTIM);
  }

  /** An orderly run in which one actor gets 14 offers to one group
      admitted within a minute. */
  lemma KeyLimitExceeded() returns (calls: seq<Call>)
    ensures Orderly(calls) && Within(OfKey(KeyLog(calls), VICTIM), 1, PERIOD) == 14
  {
    calls := ReachesAgain();
    TakesOverAgain();
    Floods(calls, 58, T7, 9, FreshKey(62), 60);
    calls := calls + [Call(FreshKey(62), FLOODER, 60)];
    Last();
    calls := Takes(calls, 60, T8, 9, Call(VICTIM, OWNER, 60), 5);
  }
}
