/** The limiter of incoming messages (helper/rate.c): two fixed windows per key and
    two for all keys, the keys kept in a table of 320 slots. */
module MessageRate {
  import opened Slots
  import opened Windows

  const SLOTS: nat := 320
  const KEY_LENGTH: nat := 136
  const BURST_SECONDS: nat := 10
  const MINUTE_SECONDS: nat := 60
  const BURST_PER_KEY: nat := 10
  const MINUTE_PER_KEY: nat := 30
  const BURST_GLOBAL: nat := 40
  const MINUTE_GLOBAL: nat := 120

  datatype Row = Row(burst: Window, minute: Window) {
    predicate Full(burstLimit: nat, minuteLimit: nat) {
      burst.count >= burstLimit || minute.count >= minuteLimit
    }

    function Rolled(now: int): Row {
      Row(Windows.Rolled(burst, now, BURST_SECONDS), Windows.Rolled(minute, now, MINUTE_SECONDS))
    }

    function Counted(): Row { Row(Windows.Counted(burst), Windows.Counted(minute)) }
  }

  function NewRow(now: int): Row { Row(Window(now, 0), Window(now, 0)) }

  /** The used slots, which are the first ones. */
  datatype Table = Table(all: Row, slots: seq<Slot<Row>>)

  function Age(row: Row): int { row.minute.start }

  /** One call on the table. */
  function TableAllow(t: Table, key: string, now: int): (Table, bool) {
    var all := t.all.Rolled(now);
    if all.Full(BURST_GLOBAL, MINUTE_GLOBAL) then (t.(all := all), false)
    else
      var i := Place(t.slots, key, SLOTS, Age);
      var row := if FreeOf(t.slots, key) then NewRow(now) else t.slots[i].row.Rolled(now);
      if row.Full(BURST_PER_KEY, MINUTE_PER_KEY) then (Table(all, Put(t.slots, i, Slot(key, row))), false)
      else (Table(all.Counted(), Put(t.slots, i, Slot(key, row.Counted()))), true)
  }

  /** The limiter as one would like it: every key ever seen keeps its windows. */
  datatype Ideal = Ideal(all: Row, rows: map<string, Row>)

  function IdealAllow(s: Ideal, key: string, now: int): (Ideal, bool) {
    var all := s.all.Rolled(now);
    if all.Full(BURST_GLOBAL, MINUTE_GLOBAL) then (s.(all := all), false)
    else
      var row := if key in s.rows then s.rows[key].Rolled(now) else NewRow(now);
      if row.Full(BURST_PER_KEY, MINUTE_PER_KEY) then (Ideal(all, s.rows[key := row]), false)
      else (Ideal(all.Counted(), s.rows[key := row.Counted()]), true)
  }

  // --- The table in place -----------------------------------------------------------------

  class Limiter {
    var all: Row
    const entries: array<Slot<Row>>
    ghost var used: nat

    ghost predicate Valid()
      reads this, entries
    {
      entries.Length == SLOTS && Prefix(entries, used)
    }

    ghost function Value(): Table
      reads this, entries
      requires Valid()
    {
      Table(all, entries[..used])
    }

    constructor ()
      ensures Valid() && Value() == Table(NewRow(0), [])
    {
      all := NewRow(0);
      entries := new Slot<Row>[SLOTS](_ => Slot("", NewRow(0)));
      used := 0;
    }

    method Allow(conversation: string, actor: string, now: int) returns (rc: int)
      requires Valid()
      modifies this, entries
      ensures Valid() && (rc == 0 || rc == -1)
      ensures var key := conversation + ":" + actor;
              if conversation == "" || actor == "" || now < 0 || |key| >= KEY_LENGTH
              then rc == -1 && Value() == old(Value())
              else (Value(), rc == 0) == TableAllow(old(Value()), key, now)
    {
      var key := conversation + ":" + actor;
      if conversation == "" || actor == "" || now < 0 || |key| >= KEY_LENGTH {
        return -1;
      }
      all := all.Rolled(now);
      if all.Full(BURST_GLOBAL, MINUTE_GLOBAL) {
        return -1;
      }
      var slot := Claim(key, now);
      if entries[slot].row.Full(BURST_PER_KEY, MINUTE_PER_KEY) {
        return -1;
      }
      Count(slot);
      assert Value().slots == Put(old(Value().slots), slot, Value().slots[slot]);
      all := all.Counted();
      return 0;
    }

    /** The key's slot with the windows in force, a slot taken over if need be. */
    method Claim(key: string, now: int) returns (slot: nat)
      requires Valid() && key != ""
      modifies this`used, entries
      ensures Valid() && slot < used && slot == Place(old(Value().slots), key, SLOTS, Age)
      ensures var slots := old(Value().slots);
              entries[slot] == Slot(key, if FreeOf(slots, key) then NewRow(now) else slots[slot].row.Rolled(now))
              && Value().slots == Put(slots, slot, entries[slot])
    {
      var at, free, oldest := Find(entries, used, key, Age);
      if at < 0 {
        slot := if free >= 0 then free else oldest;
        entries[slot] := Slot(key, NewRow(now));
        if slot == used {
          used := used + 1;
        }
      } else {
        slot := at;
        entries[slot] := Slot(key, entries[slot].row.Rolled(now));
      }
    }

    method Count(slot: nat)
      requires Valid() && slot < used
      modifies entries
      ensures Valid()
      ensures var was := old(Value().slots)[slot];
              Value().slots == old(Value().slots)[slot := was.(row := was.row.Counted())]
    {
      entries[slot] := entries[slot].(row := entries[slot].row.Counted());
    }
  }
}
