/** The limiter of incoming file offers (helper/rate.c): a window per group and
    actor, one per actor and one for all, the first two in tables of 64 slots. */
module OfferRate {
  import opened Slots
  import opened Windows

  const SLOTS: nat := 64
  const KEY_LENGTH: nat := 136
  const ACTOR_LENGTH: nat := 64
  const PERIOD: nat := 60
  const PER_KEY: nat := 5
  const PER_ACTOR: nat := 10
  const GLOBAL: nat := 30

  datatype Table = Table(all: Window, entries: seq<Slot<Window>>, actors: seq<Slot<Window>>)

  function Start(w: Window): int { w.start }

  /** The window a key has before the call is decided. */
  function Current(slots: seq<Slot<Window>>, key: string, now: int): Window {
    if FreeOf(slots, key) then Window(now, 0)
    else Rolled(slots[IndexOf(slots, key)].row, now, PERIOD)
  }

  function Set(slots: seq<Slot<Window>>, key: string, w: Window): seq<Slot<Window>> {
    Put(slots, Place(slots, key, SLOTS, Start), Slot(key, w))
  }

  /** A new actor whose name does not fit is cut off, takes a slot over with the
      window it finds there, and is denied. */
  function Overwritten(slots: seq<Slot<Window>>, actor: string): seq<Slot<Window>>
    requires |actor| > ACTOR_LENGTH
  {
    var at := Place(slots, actor, SLOTS, Start);
    Put(slots, at, Slot(actor[..ACTOR_LENGTH], if at < |slots| then slots[at].row else Window(0, 0)))
  }

  function TableAllow(t: Table, key: string, actor: string, now: int): (Table, bool) {
    var all := Rolled(t.all, now, PERIOD);
    var entry := Current(t.entries, key, now);
    var own := Current(t.actors, actor, now);
    if all.count >= GLOBAL then (t.(all := all), false)
    else if entry.count >= PER_KEY then (t.(all := all, entries := Set(t.entries, key, entry)), false)
    else if FreeOf(t.actors, actor) && |actor| > ACTOR_LENGTH then
      (Table(all, Set(t.entries, key, entry), Overwritten(t.actors, actor)), false)
    else if own.count >= PER_ACTOR then
      (Table(all, Set(t.entries, key, entry), Set(t.actors, actor, own)), false)
    else
      (Table(Counted(all), Set(t.entries, key, Counted(entry)), Set(t.actors, actor, Counted(own))), true)
  }

  lemma SetTwice(slots: seq<Slot<Window>>, key: string, w: Window)
    requires |slots| <= SLOTS
    ensures var at := Place(slots, key, SLOTS, Start);
            && at < |Set(slots, key, w)| && Set(slots, key, w)[at] == Slot(key, w)
            && Set(slots, key, w)[at := Slot(key, Counted(w))] == Set(slots, key, Counted(w))
  {
  }

  // --- The tables in place -----------------------------------------------------------------

  class Limiter {
    var all: Window
    const entries: array<Slot<Window>>
    const actors: array<Slot<Window>>
    ghost var usedEntries: nat
    ghost var usedActors: nat

    ghost predicate Valid()
      reads this, entries, actors
    {
      && entries != actors && entries.Length == actors.Length == SLOTS
      && Prefix(entries, usedEntries) && Prefix(actors, usedActors)
      && forall i :: usedActors <= i < SLOTS ==> actors[i].row == Window(0, 0)
    }

    ghost function Value(): Table
      reads this, entries, actors
      requires Valid()
    {
      Table(all, entries[..usedEntries], actors[..usedActors])
    }

    constructor ()
      ensures Valid() && Value() == Table(Window(0, 0), [], [])
    {
      all := Window(0, 0);
      entries := new Slot<Window>[SLOTS](_ => Slot("", Window(0, 0)));
      actors := new Slot<Window>[SLOTS](_ => Slot("", Window(0, 0)));
      usedEntries, usedActors := 0, 0;
    }

    method Allow(group: string, actor: string, now: int) returns (rc: int)
      requires Valid()
      modifies this, entries, actors
      ensures Valid() && (rc == 0 || rc == -1)
      ensures var key := group + ":" + actor;
              if group == "" || actor == "" || now < 0 || |key| >= KEY_LENGTH
              then rc == -1 && Value() == old(Value())
              else (Value(), rc == 0) == TableAllow(old(Value()), key, actor, now)
    {
      var key := group + ":" + actor;
      if group == "" || actor == "" || now < 0 || |key| >= KEY_LENGTH {
        return -1;
      }
      ghost var was := Value();
      var slot := Enter(key, now);
      if slot < 0 {
        return -1;
      }
      rc := AllowActor(slot, actor, now);
      SetTwice(was.entries, key, Current(was.entries, key, now));
    }

    /** The first half: the slot of the entry, or -1 when all or this key ran out. */
    method Enter(key: string, now: int) returns (slot: int)
      requires Valid() && key != ""
      modifies this`all, this`usedEntries, entries
      ensures Valid() && -1 <= slot < usedEntries
      ensures var t := old(Value());
              var all := Rolled(t.all, now, PERIOD);
              var entry := Current(t.entries, key, now);
              if all.count >= GLOBAL then slot == -1 && Value() == t.(all := all)
              else
                && Value() == t.(all := all, entries := Set(t.entries, key, entry))
                && (slot < 0 <==> entry.count >= PER_KEY)
                && (slot >= 0 ==> slot == Place(t.entries, key, SLOTS, Start))
    {
      all := Rolled(all, now, PERIOD);
      if all.count >= GLOBAL {
        return -1;
      }
      slot, usedEntries := Claim(entries, usedEntries, key, now);
      if entries[slot].row.count >= PER_KEY {
        slot := -1;
      }
    }

    /** The second half, once the entry in `slot` has room. */
    method AllowActor(slot: nat, actor: string, now: int) returns (rc: int)
      requires Valid() && slot < usedEntries && actor != ""
      modifies this`all, this`usedActors, entries, actors
      ensures Valid() && (rc == 0 || rc == -1)
      ensures var t := old(Value());
              var own := Current(t.actors, actor, now);
              if FreeOf(t.actors, actor) && |actor| > ACTOR_LENGTH then
                rc == -1 && Value() == t.(actors := Overwritten(t.actors, actor))
              else if own.count >= PER_ACTOR then
                rc == -1 && Value() == t.(actors := Set(t.actors, actor, own))
              else
                rc == 0 && Value() == Table(Counted(t.all),
                                            t.entries[slot := Slot(t.entries[slot].key, Counted(t.entries[slot].row))],
                                            Set(t.actors, actor, Counted(own)))
    {
      ghost var t := Value();
      var actorSlot := ClaimActor(actor, now);
      if actorSlot < 0 || actors[actorSlot].row.count >= PER_ACTOR {
        return -1;
      }
      Admit(slot, actorSlot);
      assert Value().actors == Set(t.actors, actor, Counted(Current(t.actors, actor, now)));
      return 0;
    }

    method Admit(slot: nat, actorSlot: nat)
      requires Valid() && slot < usedEntries && actorSlot < usedActors
      modifies this`all, entries, actors
      ensures Valid()
      ensures var t := old(Value());
              Value() == Table(Counted(t.all),
                               t.entries[slot := Slot(t.entries[slot].key, Counted(t.entries[slot].row))],
                               t.actors[actorSlot := Slot(t.actors[actorSlot].key, Counted(t.actors[actorSlot].row))])
    {
      Count(entries, usedEntries, slot);
      Count(actors, usedActors, actorSlot);
      all := Counted(all);
    }

    /** The actor's slot, or -1 when a new actor's name does not fit. */
    method ClaimActor(actor: string, now: int) returns (slot: int)
      requires Valid() && actor != ""
      modifies this`usedActors, actors
      ensures Valid() && -1 <= slot < usedActors
      ensures slot < 0 <==> FreeOf(old(Value().actors), actor) && |actor| > ACTOR_LENGTH
      ensures slot < 0 ==> Value().actors == Overwritten(old(Value().actors), actor)
      ensures slot >= 0 ==>
                && slot == Place(old(Value().actors), actor, SLOTS, Start)
                && actors[slot] == Slot(actor, Current(old(Value().actors), actor, now))
                && Value().actors == Set(old(Value().actors), actor, actors[slot].row)
    {
      var at, free, oldest := Find(actors, usedActors, actor, Start);
      if at < 0 && |actor| > ACTOR_LENGTH {
        usedActors := Overwrite(actors, usedActors, actor, if free >= 0 then free else oldest);
        return -1;
      }
      slot, usedActors := Claim(actors, usedActors, actor, now);
    }

    /** The key's slot with the window in force, a slot taken over if need be. */
    static method Claim(a: array<Slot<Window>>, ghost used: nat, key: string, now: int)
      returns (slot: nat, ghost nowUsed: nat)
      requires Prefix(a, used) && a.Length == SLOTS && key != ""
      modifies a
      ensures Prefix(a, nowUsed) && slot < nowUsed
      ensures a[slot] == Slot(key, old(Current(a[..used], key, now)))
      ensures a[..nowUsed] == Set(old(a[..used]), key, a[slot].row)
      ensures slot == old(Place(a[..used], key, SLOTS, Start))
      ensures nowUsed >= used && forall i :: nowUsed <= i < SLOTS ==> a[i] == old(a[i])
    {
      nowUsed := used;
      var at, free, oldest := Find(a, used, key, Start);
      if at < 0 {
        slot := if free >= 0 then free else oldest;
        a[slot] := Slot(key, Window(now, 0));
        if slot == used {
          nowUsed := used + 1;
        }
      } else {
        slot := at;
        a[slot] := Slot(key, Rolled(a[slot].row, now, PERIOD));
      }
    }

    /** Cuts the overlong name off and keeps the window that is there. */
    static method Overwrite(a: array<Slot<Window>>, ghost used: nat, actor: string, slot: nat) returns (ghost nowUsed: nat)
      requires Prefix(a, used) && a.Length == SLOTS && |actor| > ACTOR_LENGTH
      requires slot < SLOTS && slot == Place(a[..used], actor, SLOTS, Start)
      requires slot == used ==> a[slot].row == Window(0, 0)
      modifies a
      ensures Prefix(a, nowUsed) && a[..nowUsed] == Overwritten(old(a[..used]), actor)
      ensures nowUsed >= used && forall i :: nowUsed <= i < SLOTS ==> a[i] == old(a[i])
    {
      nowUsed := if slot == used then used + 1 else used;
      a[slot] := a[slot].(key := actor[..ACTOR_LENGTH]);
    }

    static method Count(a: array<Slot<Window>>, ghost used: nat, slot: nat)
      requires Prefix(a, used) && slot < used
      modifies a
      ensures Prefix(a, used) && a[..used] == old(a[..used])[slot := Slot(old(a[slot].key), Counted(old(a[slot].row)))]
      ensures forall i :: used <= i < a.Length ==> a[i] == old(a[i])
    {
      a[slot] := a[slot].(row := Counted(a[slot].row));
    }
  }

  // --- The limiter as one would like it: every actor ever seen keeps its window -------------

  datatype Ideal = Ideal(all: Window, entries: seq<Slot<Window>>, actors: map<string, Window>)

  function CurrentActor(actors: map<string, Window>, actor: string, now: int): Window {
    if actor in actors then Rolled(actors[actor], now, PERIOD) else Window(now, 0)
  }

  function IdealAllow(s: Ideal, key: string, actor: string, now: int): (Ideal, bool) {
    var all := Rolled(s.all, now, PERIOD);
    var entry := Current(s.entries, key, now);
    var own := CurrentActor(s.actors, actor, now);
    if all.count >= GLOBAL then (s.(all := all), false)
    else if entry.count >= PER_KEY then (s.(all := all, entries := Set(s.entries, key, entry)), false)
    else if own.count >= PER_ACTOR then
      (Ideal(all, Set(s.entries, key, entry), s.actors[actor := own]), false)
    else
      (Ideal(Counted(all), Set(s.entries, key, Counted(entry)), s.actors[actor := Counted(own)]), true)
  }
}
