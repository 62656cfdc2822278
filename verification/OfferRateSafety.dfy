/** With 64 actor slots and at most 30 offers a minute no live actor is ever
    forgotten: the table decides like one that remembers every actor. */
module OfferRateSafety {
  import opened Slots
  import opened Windows
  import opened OfferRate

  datatype Call = Call(key: string, actor: string, now: int)

  function Clock(calls: seq<Call>): int {
    if calls == [] then 0 else calls[|calls| - 1].now
  }

  /** The clock does not run backwards and the caller hands over whole actor keys. */
  predicate Orderly(calls: seq<Call>) {
    calls == [] || (
      && Orderly(calls[..|calls| - 1]) && Clock(calls[..|calls| - 1]) <= Clock(calls)
      && |calls[|calls| - 1].actor| <= ACTOR_LENGTH)
  }

  function TableAfter(calls: seq<Call>): Table {
    if calls == [] then Table(Window(0, 0), [], [])
    else
      var c := calls[|calls| - 1];
      TableAllow(TableAfter(calls[..|calls| - 1]), c.key, c.actor, c.now).0
  }

  function IdealAfter(calls: seq<Call>): Ideal {
    if calls == [] then Ideal(Window(0, 0), [], map[])
    else
      var c := calls[|calls| - 1];
      IdealAllow(IdealAfter(calls[..|calls| - 1]), c.key, c.actor, c.now).0
  }

  predicate Admits(calls: seq<Call>)
    requires calls != []
  {
    var c := calls[|calls| - 1];
    TableAllow(TableAfter(calls[..|calls| - 1]), c.key, c.actor, c.now).1
  }

  /** The offers the table admitted, by actor. */
  function Log(calls: seq<Call>): seq<Admission> {
    if calls == [] then []
    else
      var c := calls[|calls| - 1];
      if Admits(calls) then Log(calls[..|calls| - 1]) + [Admission(c.now, c.actor)] else Log(calls[..|calls| - 1])
  }

  // --- The invariant ------------------------------------------------------------------------

  /** An actor's window starts with an admission. */
  ghost predicate ActorOk(log: seq<Admission>, actors: map<string, Window>, k: string, clock: int) {
    var own := OfKey(log, k);
    if k in actors then
      && Exact(own, actors[k], PERIOD, PER_ACTOR) && actors[k].start <= clock
      && Since(own, actors[k].start) >= 1
    else own == []
  }

  ghost predicate ActorsOk(log: seq<Admission>, actors: map<string, Window>, clock: int) {
    forall k :: ActorOk(log, actors, k, clock)
  }

  ghost predicate ActorsThin(log: seq<Admission>) {
    forall k :: Sparse(OfKey(log, k), PERIOD, 2 * PER_ACTOR)
  }

  ghost predicate Inv(log: seq<Admission>, s: Ideal, clock: int) {
    && Exact(log, s.all, PERIOD, GLOBAL) && s.all.start <= clock && Sparse(log, PERIOD, 2 * GLOBAL)
    && ActorsOk(log, s.actors, clock) && ActorsThin(log) && Since(log, clock + 1) == 0
  }

  lemma CurrentOk(log: seq<Admission>, actors: map<string, Window>, k: string, clock: int, now: int)
    requires ActorOk(log, actors, k, clock) && clock <= now
    ensures var w := CurrentActor(actors, k, now);
            && Exact(OfKey(log, k), w, PERIOD, PER_ACTOR) && now - PERIOD < w.start <= now
            && (w.count > 0 ==> ActorOk(log, actors[k := w], k, now))
  {
    if k in actors {
      RollKeeps(OfKey(log, k), actors[k], now, PERIOD, PER_ACTOR);
    }
  }

  lemma DeniedKeeps(log: seq<Admission>, actors: map<string, Window>, k: string, clock: int, now: int)
    requires ActorsOk(log, actors, clock) && clock <= now && CurrentActor(actors, k, now).count >= PER_ACTOR
    ensures ActorsOk(log, actors[k := CurrentActor(actors, k, now)], now)
  {
    var after := actors[k := CurrentActor(actors, k, now)];
    forall j ensures ActorOk(log, after, j, now) {
      assert ActorOk(log, actors, j, clock);
      if j == k {
        CurrentOk(log, actors, k, clock, now);
      }
    }
  }

  lemma AdmittedKeeps(log: seq<Admission>, actors: map<string, Window>, k: string, clock: int, now: int)
    requires ActorsOk(log, actors, clock) && ActorsThin(log) && clock <= now
    requires CurrentActor(actors, k, now).count < PER_ACTOR
    ensures var longer := log + [Admission(now, k)];
            ActorsOk(longer, actors[k := Counted(CurrentActor(actors, k, now))], now) && ActorsThin(longer)
  {
    var a, w := Admission(now, k), CurrentActor(actors, k, now);
    assert ActorOk(log, actors, k, clock) && Sparse(OfKey(log, k), PERIOD, 2 * PER_ACTOR);
    CurrentOk(log, actors, k, clock, now);
    AdmitKeeps(OfKey(log, k), w, a, PERIOD, PER_ACTOR);
    AdmitSparse(OfKey(log, k), w, a, PERIOD, PER_ACTOR);
    SinceSnoc(OfKey(log, k), a, w.start);
    forall j
      ensures ActorOk(log + [a], actors[k := Counted(w)], j, now)
      ensures Sparse(OfKey(log + [a], j), PERIOD, 2 * PER_ACTOR)
    {
      OfKeySnoc(log, a, j);
      assert ActorOk(log, actors, j, clock) && Sparse(OfKey(log, j), PERIOD, 2 * PER_ACTOR);
    }
  }

  lemma Later(log: seq<Admission>, actors: map<string, Window>, clock: int, now: int)
    requires ActorsOk(log, actors, clock) && clock <= now
    ensures ActorsOk(log, actors, now)
  {
    forall k ensures ActorOk(log, actors, k, now) { assert ActorOk(log, actors, k, clock); }
  }

  lemma IdealKeeps(log: seq<Admission>, s: Ideal, clock: int, key: string, actor: string, now: int)
    requires Inv(log, s, clock) && clock <= now
    ensures var (after, ok) := IdealAllow(s, key, actor, now);
            Inv(if ok then log + [Admission(now, actor)] else log, after, now)
  {
    RollKeeps(log, s.all, now, PERIOD, GLOBAL);
    SinceMono(log, clock + 1, now + 1);
    Later(log, s.actors, clock, now);
    if IdealAllow(s, key, actor, now).1 {
      var a, all := Admission(now, actor), Rolled(s.all, now, PERIOD);
      AdmitKeeps(log, all, a, PERIOD, GLOBAL);
      AdmitSparse(log, all, a, PERIOD, GLOBAL);
      AdmittedKeeps(log, s.actors, actor, clock, now);
      SinceSnoc(log, a, now + 1);
    } else if CurrentActor(s.actors, actor, now).count >= PER_ACTOR {
      DeniedKeeps(log, s.actors, actor, clock, now);
    }
  }

  // --- How many actors can be live -------------------------------------------------------------

  /** At most 60 actors have a window that began in the last minute. */
  lemma LiveActors(log: seq<Admission>, s: Ideal, live: set<string>, now: int)
    requires Inv(log, s, now)
    requires forall k :: k in live ==> k in s.actors && s.actors[k].start > now - PERIOD
    ensures |live| <= 60
  {
    forall k | k in live ensures Within(OfKey(log, k), now - PERIOD + 1, PERIOD) >= 1 {
      assert ActorOk(log, s.actors, k, now);
      OwnSince(log, k, now + 1);
      SinceMono(OfKey(log, k), now - PERIOD + 1, s.actors[k].start);
    }
    KeysShare(log, live, now - PERIOD + 1, PERIOD, 1);
    assert Within(log, now - PERIOD + 1, PERIOD) <= 2 * GLOBAL;
  }

  // --- The table against the unbounded limiter --------------------------------------------------

  function ExpiredAt(clock: int): Window -> bool { (w: Window) => w.start <= clock - PERIOD }

  ghost predicate Agree(t: Table, s: Ideal, clock: int) {
    t.all == s.all && t.entries == s.entries && Mirrors(t.actors, s.actors, SLOTS, ExpiredAt(clock))
  }

  lemma RolledInv(log: seq<Admission>, s: Ideal, clock: int, now: int)
    requires Inv(log, s, clock) && clock <= now
    ensures Inv(log, s.(all := Rolled(s.all, now, PERIOD)), now)
  {
    RollKeeps(log, s.all, now, PERIOD, GLOBAL);
    SinceMono(log, clock + 1, now + 1);
    Later(log, s.actors, clock, now);
  }

  lemma LiveKeys(slots: seq<Slot<Window>>, actors: map<string, Window>, now: int)
    requires slots != [] && SlotsAgree(slots, actors) && Distinct(slots)
    requires slots[Oldest(slots, Start)].row.start > now - PERIOD
    ensures forall k :: k in Keys(slots) ==> k in actors && actors[k].start > now - PERIOD
  {
    KeysAre(slots);
    forall k | k in Keys(slots) ensures k in actors && actors[k].start > now - PERIOD {
      var i :| 0 <= i < |slots| && slots[i].key == k;
      assert Start(slots[Oldest(slots, Start)].row) <= Start(slots[i].row);
    }
  }

  lemma VictimExpired(log: seq<Admission>, t: Table, s: Ideal, clock: int, now: int)
    requires Inv(log, s, clock) && Agree(t, s, clock) && clock <= now && |t.actors| == SLOTS
    ensures ExpiredAt(now)(t.actors[Oldest(t.actors, Start)].row)
  {
    if t.actors[Oldest(t.actors, Start)].row.start > now - PERIOD {
      KeysAre(t.actors);
      LiveKeys(t.actors, s.actors, now);
      RolledInv(log, s, clock, now);
      LiveActors(log, s.(all := Rolled(s.all, now, PERIOD)), Keys(t.actors), now);
    }
  }

  /** Time passes and one actor's window is written. */
  lemma SetAgrees(log: seq<Admission>, t: Table, s: Ideal, clock: int, actor: string, w: Window, now: int)
    requires Inv(log, s, clock) && Agree(t, s, clock) && clock <= now
    ensures Mirrors(t.actors, s.actors, SLOTS, ExpiredAt(now))
    ensures Mirrors(Set(t.actors, actor, w), s.actors[actor := w], SLOTS, ExpiredAt(now))
  {
    assert Mirrors(t.actors, s.actors, SLOTS, ExpiredAt(now));
    if |t.actors| == SLOTS {
      VictimExpired(log, t, s, clock, now);
    }
    PutMirrors(t.actors, s.actors, SLOTS, Start, ExpiredAt(now), actor, w);
  }

  lemma SameWindow(t: Table, s: Ideal, clock: int, actor: string, now: int)
    requires Agree(t, s, clock) && clock <= now
    ensures CurrentActor(s.actors, actor, now) == Current(t.actors, actor, now)
  {
    if !FreeOf(t.actors, actor) {
      assert t.actors[IndexOf(t.actors, actor)].key == actor;
    } else if actor in s.actors {
      assert ExpiredAt(clock)(s.actors[actor]);
    }
  }

  lemma CallAgrees(log: seq<Admission>, t: Table, s: Ideal, clock: int, key: string, actor: string, now: int)
    requires Inv(log, s, clock) && Agree(t, s, clock) && clock <= now && |actor| <= ACTOR_LENGTH
    ensures TableAllow(t, key, actor, now).1 == IdealAllow(s, key, actor, now).1
    ensures Agree(TableAllow(t, key, actor, now).0, IdealAllow(s, key, actor, now).0, now)
  {
    var w := CurrentActor(s.actors, actor, now);
    SameWindow(t, s, clock, actor, now);
    SetAgrees(log, t, s, clock, actor, w, now);
    SetAgrees(log, t, s, clock, actor, Counted(w), now);
  }

  lemma {:induction false} RunAgrees(calls: seq<Call>)
    requires Orderly(calls)
    ensures Inv(Log(calls), IdealAfter(calls), Clock(calls))
    ensures Agree(TableAfter(calls), IdealAfter(calls), Clock(calls))
  {
    if calls != [] {
      var front, c := calls[..|calls| - 1], calls[|calls| - 1];
      RunAgrees(front);
      CallAgrees(Log(front), TableAfter(front), IdealAfter(front), Clock(front), c.key, c.actor, c.now);
      IdealKeeps(Log(front), IdealAfter(front), Clock(front), c.key, c.actor, c.now);
    }
  }

  // --- The theorems ------------------------------------------------------------------------------

  /** Remembering 64 actors decides like remembering all of them. */
  lemma ActorTableIsExact(calls: seq<Call>, key: string, actor: string, now: int)
    requires Orderly(calls) && Clock(calls) <= now && |actor| <= ACTOR_LENGTH
    ensures TableAllow(TableAfter(calls), key, actor, now).1 == IdealAllow(IdealAfter(calls), key, actor, now).1
  {
    RunAgrees(calls);
    CallAgrees(Log(calls), TableAfter(calls), IdealAfter(calls), Clock(calls), key, actor, now);
  }

  lemma NoLiveActorIsEvicted(calls: seq<Call>, actor: string, now: int)
    requires Orderly(calls) && Clock(calls) <= now
    requires var actors := TableAfter(calls).actors; |actors| == SLOTS && FreeOf(actors, actor)
    ensures var actors := TableAfter(calls).actors;
            actors[Place(actors, actor, SLOTS, Start)].row.start <= now - PERIOD
  {
    RunAgrees(calls);
    VictimExpired(Log(calls), TableAfter(calls), IdealAfter(calls), Clock(calls), now);
  }

  lemma LimitsHold(calls: seq<Call>, actor: string, lo: int)
    requires Orderly(calls)
    ensures Within(OfKey(Log(calls), actor), lo, PERIOD) <= 20
    ensures Within(Log(calls), lo, PERIOD) <= 60
  {
    RunAgrees(calls);
    assert Sparse(OfKey(Log(calls), actor), PERIOD, 2 * PER_ACTOR);
  }
}
