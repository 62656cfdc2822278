/** The sending half of `group_file_pump` (helper/omaq.c): one call of the pump
    for one outgoing transfer, working in place on its recipient table. */
module GroupFilePump {
  import opened Basics
  import opened GroupTransfer

  const BUDGET: nat := 32
  const PATIENCE: int := 30000
  const CURSOR_END: nat := 0x1_0000_0000

  // --- The recipient search --------------------------------------------------------

  /** The 32-bit cursor after `k` increments; it wraps at 2^32. */
  function Moved(cursor: nat, k: nat): nat {
    if cursor + k < CURSOR_END then cursor + k else cursor + k - CURSOR_END
  }

  function Pos(cursor: nat): (r: nat)
    ensures r < RECIPIENT_MAX
  {
    cursor % RECIPIENT_MAX
  }

  /** The recipient looked at `k` increments after the cursor stood at `cursor`. */
  function Candidate(cursor: nat, k: nat): nat {
    Pos(Moved(cursor, k))
  }

  /** Nine tries from `cursor` on come to look at recipient `r`. */
  predicate LooksAt(cursor: nat, r: nat) {
    exists k :: 0 <= k < RECIPIENT_MAX && Candidate(cursor, k) == r
  }

  predicate Covers(cursor: nat) {
    forall r :: 0 <= r < RECIPIENT_MAX ==> LooksAt(cursor, r)
  }

  lemma CoversBeforeTheWrap(cursor: nat)
    requires cursor + RECIPIENT_MAX <= CURSOR_END
    ensures Covers(cursor)
  {
    forall r | 0 <= r < RECIPIENT_MAX
      ensures LooksAt(cursor, r)
    {
      var k := (r + RECIPIENT_MAX - cursor % RECIPIENT_MAX) % RECIPIENT_MAX;
      assert Moved(cursor, k) == cursor + k;
      assert Candidate(cursor, k) == r;
    }
  }

  /** The cursor wraps at 2^32, which 9 does not divide: the nine tries that
      straddle the wrap leave a recipient out. */
  lemma MissesAcrossTheWrap(cursor: nat)
    requires cursor < CURSOR_END < cursor + RECIPIENT_MAX
    ensures !Covers(cursor)
  {
    var j := CURSOR_END - cursor;
    var missed := if j <= 4 then 9 - j else 12 - j;
    forall k | 0 <= k < RECIPIENT_MAX
      ensures Candidate(cursor, k) != missed
    {
      if k < j {
        assert Moved(cursor, k) == CURSOR_END - (j - k);
      } else {
        assert Moved(cursor, k) == k - j;
      }
    }
    assert !LooksAt(cursor, missed);
  }

  /** Nine tries look at every recipient exactly when they do not straddle the wrap. */
  lemma SearchIsComplete(cursor: nat)
    requires cursor < CURSOR_END
    ensures Covers(cursor) <==> cursor + RECIPIENT_MAX <= CURSOR_END
  {
    if cursor + RECIPIENT_MAX <= CURSOR_END {
      CoversBeforeTheWrap(cursor);
    } else {
      MissesAcrossTheWrap(cursor);
    }
  }

  // --- The pump's steps, as events of the protocol --------------------------------------

  predicate OfPump(e: Event, n: nat) { (e.Pump? || e.Expire?) && e.i < n }

  predicate AllOfPump(steps: seq<Event>, n: nat) {
    forall k :: 0 <= k < |steps| ==> OfPump(steps[k], n)
  }

  function Replay(size: nat, rs: seq<Recipient>, steps: seq<Event>): (r: seq<Recipient>)
    requires AllOfPump(steps, |rs|)
    ensures |r| == |rs|
  {
    if steps == [] then rs
    else
      var e := steps[|steps| - 1];
      var before := Replay(size, rs, steps[..|steps| - 1]);
      before[e.i := NextOut(size, before[e.i], e)]
  }

  lemma ReplayStep(size: nat, rs: seq<Recipient>, steps: seq<Event>, e: Event)
    requires AllOfPump(steps, |rs|) && OfPump(e, |rs|)
    ensures AllOfPump(steps + [e], |rs|)
    ensures var before := Replay(size, rs, steps);
            Replay(size, rs, steps + [e]) == before[e.i := NextOut(size, before[e.i], e)]
  {
    assert (steps + [e])[..|steps|] == steps;
  }

  function Eligibles(rs: seq<Recipient>): (n: nat)
    ensures n <= |rs|
  {
    if rs == [] then 0
    else Eligibles(rs[..|rs| - 1]) + if rs[|rs| - 1].Eligible() then 1 else 0
  }

  lemma {:induction false} NoEligibles(rs: seq<Recipient>)
    ensures Eligibles(rs) == 0 <==> Nobody(rs)
  {
    if rs != [] {
      NoEligibles(rs[..|rs| - 1]);
    }
  }

  lemma {:induction false} EligiblesDrop(rs: seq<Recipient>, i: nat, r: Recipient)
    requires i < |rs| && rs[i].Eligible() && !r.Eligible()
    ensures Eligibles(rs[i := r]) == Eligibles(rs) - 1
    decreases |rs|
  {
    var last := |rs| - 1;
    if i == last {
      assert rs[i := r][..last] == rs[..last];
    } else {
      EligiblesDrop(rs[..last], i, r);
      assert rs[i := r][..last] == rs[..last][i := r];
    }
  }

  /** Nobody is left to send to. */
  ghost predicate Nobody(rs: seq<Recipient>) {
    forall i :: 0 <= i < |rs| ==> !rs[i].Eligible()
  }

  ghost predicate Waiting(rs: seq<Recipient>, i: nat) {
    i < |rs| && rs[i].Eligible()
  }

  /** The `k`-th try is the first that meets somebody to send to. */
  ghost predicate FirstHit(rs: seq<Recipient>, cursor: nat, k: nat) {
    Waiting(rs, Candidate(cursor, k)) && forall i :: 0 <= i < k ==> !Waiting(rs, Candidate(cursor, i))
  }

  /** What nine tries from the cursor on find. */
  ghost function Found(rs: seq<Recipient>, cursor: nat): (j: Option<nat>)
    ensures j.Some? ==> j.value < RECIPIENT_MAX && FirstHit(rs, cursor, j.value)
    ensures j.None? ==> forall i :: 0 <= i < RECIPIENT_MAX ==> !Waiting(rs, Candidate(cursor, i))
  {
    if exists k :: 0 <= k < RECIPIENT_MAX && FirstHit(rs, cursor, k) then
      var k :| 0 <= k < RECIPIENT_MAX && FirstHit(rs, cursor, k);
      Some(k)
    else
      NoFirst(rs, cursor, RECIPIENT_MAX);
      None
  }

  lemma {:induction false} NoFirst(rs: seq<Recipient>, cursor: nat, n: nat)
    requires forall k :: 0 <= k < n ==> !FirstHit(rs, cursor, k)
    ensures forall k :: 0 <= k < n ==> !Waiting(rs, Candidate(cursor, k))
  {
    if n > 0 {
      NoFirst(rs, cursor, n - 1);
      assert !FirstHit(rs, cursor, n - 1);
    }
  }

  function Dropped(size: nat, rs: seq<Recipient>, i: nat): seq<Recipient>
    requires i < |rs|
  {
    rs[i := Pumped(size, rs[i], Gone)]
  }

  /** The table and the cursor once a burst has given up on whom it finds. */
  ghost function GivenUp(size: nat, rs: seq<Recipient>, cursor: nat, budget: nat): (r: (seq<Recipient>, nat))
    ensures |r.0| == |rs|
    decreases budget
  {
    if budget == 0 then (rs, cursor)
    else
      match Found(rs, cursor)
      case None => (rs, Moved(cursor, RECIPIENT_MAX))
      case Some(k) =>
        GivenUp(size, Dropped(size, rs, Candidate(cursor, k)), Moved(cursor, k + 1), budget - 1)
  }

  ghost function Burst(size: nat, rs: seq<Recipient>, cursor: nat): (r: (seq<Recipient>, nat))
    ensures |r.0| == |rs|
  {
    GivenUp(size, rs, cursor, BUDGET)
  }

  lemma NobodyLeft(rs: seq<Recipient>, start: nat)
    requires |rs| <= RECIPIENT_MAX && start + RECIPIENT_MAX <= CURSOR_END
    requires forall k :: 0 <= k < RECIPIENT_MAX ==> !Waiting(rs, Candidate(start, k))
    ensures Nobody(rs)
  {
    CoversBeforeTheWrap(start);
    forall i | 0 <= i < |rs| ensures !rs[i].Eligible() {
      assert LooksAt(start, i);
      var k :| 0 <= k < RECIPIENT_MAX && Candidate(start, k) == i;
      assert !Waiting(rs, Candidate(start, k));
    }
  }

  lemma NobodyHit(size: nat, rs: seq<Recipient>, cursor: nat, budget: nat)
    requires Nobody(rs)
    ensures GivenUp(size, rs, cursor, budget).0 == rs
  {
  }

  /** The positions from `start` up to `cursor` meet nobody any more. */
  ghost predicate Scanned(rs: seq<Recipient>, start: nat, cursor: nat) {
    forall p :: start <= p < cursor ==> !Waiting(rs, Pos(p))
  }

  lemma DroppedScanned(size: nat, rs: seq<Recipient>, start: nat, cursor: nat)
    requires Scanned(rs, start, cursor) && Waiting(rs, Pos(cursor))
    ensures Scanned(Dropped(size, rs, Pos(cursor)), start, cursor + 1)
  {
    var after := Dropped(size, rs, Pos(cursor));
    forall p | start <= p < cursor + 1 ensures !Waiting(after, Pos(p)) {
      if p < cursor {
        assert !Waiting(rs, Pos(p));
      }
    }
  }

  lemma ScannedAll(rs: seq<Recipient>, start: nat, end: nat)
    requires |rs| <= RECIPIENT_MAX && start + RECIPIENT_MAX <= CURSOR_END
    requires start + RECIPIENT_MAX <= end && Scanned(rs, start, end)
    ensures Nobody(rs)
  {
    forall k | 0 <= k < RECIPIENT_MAX ensures !Waiting(rs, Candidate(start, k)) {
      assert Candidate(start, k) == Pos(start + k);
    }
    NobodyLeft(rs, start);
  }

  lemma ScanGoesOn(rs: seq<Recipient>, start: nat, cursor: nat, tries: nat)
    requires start <= cursor && tries <= RECIPIENT_MAX && start + RECIPIENT_MAX <= CURSOR_END
    requires Scanned(rs, start, cursor) && forall k :: 0 <= k < tries ==> !Waiting(rs, Candidate(cursor, k))
    requires cursor < CURSOR_END
    ensures Scanned(rs, start, if cursor + tries <= CURSOR_END then cursor + tries else CURSOR_END)
  {
    forall p | start <= p < cursor + tries && p < CURSOR_END ensures !Waiting(rs, Pos(p)) {
      if p >= cursor {
        assert Candidate(cursor, p - cursor) == Pos(p);
      }
    }
  }

  /** A burst has come to `cursor` and will end with `given`. */
  ghost predicate Bursting(size: nat, rs: seq<Recipient>, cursor: nat, budget: nat, given: (seq<Recipient>, nat)) {
    && |rs| <= RECIPIENT_MAX && cursor < CURSOR_END && Eligibles(rs) <= budget
    && given == GivenUp(size, rs, cursor, budget)
  }

  /** It started at `start` and has left nobody behind. */
  ghost predicate Scanning(size: nat, rs: seq<Recipient>, start: nat, cursor: nat, budget: nat,
                           given: (seq<Recipient>, nat))
  {
    && Bursting(size, rs, cursor, budget, given)
    && start + RECIPIENT_MAX <= CURSOR_END && start <= cursor && Scanned(rs, start, cursor)
  }

  lemma ScanStep(size: nat, rs: seq<Recipient>, start: nat, cursor: nat, budget: nat, given: (seq<Recipient>, nat))
    returns (after: seq<Recipient>, next: nat)
    requires Scanning(size, rs, start, cursor, budget, given) && !Nobody(rs)
    ensures budget > 0 && (Nobody(given.0) || Scanning(size, after, start, next, budget - 1, given))
  {
    NoEligibles(rs);
    var k := FoundInTime(rs, start, cursor);
    after, next := Dropped(size, rs, Candidate(cursor, k)), cursor + k + 1;
    FoundBeforeTheWrap(size, rs, start, cursor, k);
    OneGivenUp(size, rs, cursor, k, budget);
    if next == CURSOR_END {
      ScannedAll(after, start, CURSOR_END);
      NobodyHit(size, after, 0, budget - 1);
    }
  }

  /** Every position is looked at once, so that nine of them before the wrap give
      up on everybody. */
  lemma {:induction false} ScanLeavesNone(size: nat, rs: seq<Recipient>, start: nat, cursor: nat, budget: nat,
                                          given: (seq<Recipient>, nat))
    requires Scanning(size, rs, start, cursor, budget, given)
    ensures Nobody(given.0)
    decreases budget
  {
    if Nobody(rs) {
      NobodyHit(size, rs, cursor, budget);
    } else {
      var after, next := ScanStep(size, rs, start, cursor, budget, given);
      if !Nobody(given.0) {
        ScanLeavesNone(size, after, start, next, budget - 1, given);
      }
    }
  }

  lemma OneGivenUp(size: nat, rs: seq<Recipient>, cursor: nat, k: nat, budget: nat)
    requires budget > 0 && Found(rs, cursor) == Some(k) && cursor + k < CURSOR_END
    ensures var next := if cursor + k + 1 < CURSOR_END then cursor + k + 1 else 0;
            GivenUp(size, rs, cursor, budget) == GivenUp(size, Dropped(size, rs, Candidate(cursor, k)), next, budget - 1)
  {
  }

  /** While somebody is left, somebody is found before the wrap. */
  lemma FoundInTime(rs: seq<Recipient>, start: nat, cursor: nat) returns (k: nat)
    requires |rs| <= RECIPIENT_MAX && start + RECIPIENT_MAX <= CURSOR_END && start <= cursor < CURSOR_END
    requires Scanned(rs, start, cursor) && !Nobody(rs)
    ensures Found(rs, cursor) == Some(k) && k < RECIPIENT_MAX && cursor + k < CURSOR_END
    ensures Scanned(rs, start, cursor + k)
  {
    k := if Found(rs, cursor).Some? then Found(rs, cursor).value else RECIPIENT_MAX;
    ScanGoesOn(rs, start, cursor, k);
    var end := if cursor + k <= CURSOR_END then cursor + k else CURSOR_END;
    if end >= start + RECIPIENT_MAX {
      ScannedAll(rs, start, end);
    }
  }

  lemma FoundBeforeTheWrap(size: nat, rs: seq<Recipient>, start: nat, cursor: nat, k: nat)
    requires Waiting(rs, Candidate(cursor, k)) && cursor + k < CURSOR_END && Scanned(rs, start, cursor + k)
    ensures var after := Dropped(size, rs, Candidate(cursor, k));
            Scanned(after, start, cursor + k + 1) && Eligibles(after) == Eligibles(rs) - 1
  {
    assert Candidate(cursor, k) == Pos(cursor + k);
    DroppedScanned(size, rs, start, cursor + k);
    EligiblesDrop(rs, Candidate(cursor, k), Pumped(size, rs[Candidate(cursor, k)], Gone));
  }

  lemma BurstStops(size: nat, rs: seq<Recipient>, cursor: nat, budget: nat, given: (seq<Recipient>, nat))
    requires Bursting(size, rs, cursor, budget, given) && (budget == 0 || Found(rs, cursor).None?)
    ensures Nobody(given.0) || given.1 < RECIPIENT_MAX
  {
    if budget == 0 {
      NoEligibles(rs);
    } else if cursor + RECIPIENT_MAX <= CURSOR_END {
      NobodyLeft(rs, cursor);
    }
  }

  lemma BurstStep(size: nat, rs: seq<Recipient>, cursor: nat, budget: nat, given: (seq<Recipient>, nat))
    returns (after: seq<Recipient>, next: nat)
    requires Bursting(size, rs, cursor, budget, given) && budget > 0 && Found(rs, cursor).Some?
    ensures Bursting(size, after, next, budget - 1, given)
  {
    var k := Found(rs, cursor).value;
    var i := Candidate(cursor, k);
    after, next := Dropped(size, rs, i), Moved(cursor, k + 1);
    EligiblesDrop(rs, i, Pumped(size, rs[i], Gone));
  }

  /** A burst that leaves somebody has just searched across the wrap. */
  lemma {:induction false} LeavesSmallCursor(size: nat, rs: seq<Recipient>, cursor: nat, budget: nat,
                                             given: (seq<Recipient>, nat))
    requires Bursting(size, rs, cursor, budget, given)
    ensures Nobody(given.0) || given.1 < RECIPIENT_MAX
    decreases budget
  {
    if budget == 0 || Found(rs, cursor).None? {
      BurstStops(size, rs, cursor, budget, given);
    } else {
      var after, next := BurstStep(size, rs, cursor, budget, given);
      LeavesSmallCursor(size, after, next, budget - 1, given);
    }
  }

  lemma BurstEnds(size: nat, rs: seq<Recipient>, cursor: nat)
    requires |rs| <= RECIPIENT_MAX && cursor < CURSOR_END
    ensures cursor + RECIPIENT_MAX <= CURSOR_END ==> Nobody(Burst(size, rs, cursor).0)
    ensures Nobody(Burst(size, rs, cursor).0) || Burst(size, rs, cursor).1 < RECIPIENT_MAX
  {
    if cursor + RECIPIENT_MAX <= CURSOR_END {
      ScanLeavesNone(size, rs, cursor, cursor, BUDGET, Burst(size, rs, cursor));
    } else {
      LeavesSmallCursor(size, rs, cursor, BUDGET, Burst(size, rs, cursor));
    }
  }

  /** A burst gives up on everybody, whatever the table, exactly when its first
      nine tries do not straddle the wrap. */
  lemma BurstIsComplete(size: nat, cursor: nat)
    requires cursor < CURSOR_END
    ensures (forall rs :: |rs| <= RECIPIENT_MAX ==> Nobody(Burst(size, rs, cursor).0))
       <==> cursor + RECIPIENT_MAX <= CURSOR_END
  {
    if cursor + RECIPIENT_MAX <= CURSOR_END {
      forall rs: seq<Recipient> | |rs| <= RECIPIENT_MAX ensures Nobody(Burst(size, rs, cursor).0) {
        BurstEnds(size, rs, cursor);
      }
    } else {
      var rs := BurstMisses(size, cursor);
      assert !Nobody(Burst(size, rs, cursor).0);
    }
  }

  /** The only recipient to send to is the one that the wrap leaves out. */
  lemma BurstMisses(size: nat, cursor: nat) returns (rs: seq<Recipient>)
    requires cursor < CURSOR_END < cursor + RECIPIENT_MAX
    ensures |rs| == RECIPIENT_MAX && !Nobody(Burst(size, rs, cursor).0)
  {
    MissesAcrossTheWrap(cursor);
    var missed :| 0 <= missed < RECIPIENT_MAX && !LooksAt(cursor, missed);
    rs := seq(RECIPIENT_MAX, i => if i == missed then INVITED.(accepted := true) else INVITED);
    assert rs[missed].Eligible();
    forall k | 0 <= k < RECIPIENT_MAX ensures !Waiting(rs, Candidate(cursor, k)) {
      assert Candidate(cursor, k) != missed;
    }
    assert Found(rs, cursor).None?;
  }

  /** Everybody the sender still waits for has been silent for more than 30 s. */
  ghost predicate Silent(rs: seq<Recipient>, progress: seq<int>, now: int)
    requires |progress| >= |rs|
  {
    forall i :: 0 <= i < |rs| && Counted(rs[i]).Active? ==> now - progress[i] > PATIENCE
  }

  lemma GoneKeepsSilent(size: nat, rs: seq<Recipient>, progress: seq<int>, now: int, i: nat)
    requires |progress| >= |rs| && Silent(rs, progress, now) && i < |rs| && rs[i].Eligible()
    ensures var after := rs[i := Pumped(size, rs[i], Gone)];
            Silent(after, progress, now) && Eligibles(after) == Eligibles(rs) - 1
  {
    var after := rs[i := Pumped(size, rs[i], Gone)];
    EligiblesDrop(rs, i, Pumped(size, rs[i], Gone));
    forall k | 0 <= k < |after| && Counted(after[k]).Active? ensures now - progress[k] > PATIENCE {
      assert k != i && Counted(rs[k]).Active?;
    }
  }

  /** Nothing that is heard once the window has closed starts a new wait, whatever
      progress it notes: two overdue calls in a row end a transfer all the same. */
  lemma HeardKeepsSilent(rs: seq<Recipient>, progress: seq<int>, now: int, i: nat, reply: Reply, at: int)
    requires |progress| >= |rs| && Silent(rs, progress, now) && i < |rs|
    requires Heard(rs[i], reply, true) == rs[i] ==> at == progress[i]
    ensures Silent(rs[i := Heard(rs[i], reply, true)], progress[i := at], now)
    ensures Silent(rs[i := Left(rs[i])], progress, now)
  {
    forall k | 0 <= k < |rs|
      ensures k != i ==> Counted(rs[k]).Active? ==> now - progress[k] > PATIENCE
    {
    }
  }

  ghost function Overdue(rs: seq<Recipient>, progress: seq<int>, now: int): (r: seq<Recipient>)
    requires |progress| >= |rs|
    ensures |r| == |rs|
  {
    if rs == [] then []
    else
      var last := |rs| - 1;
      Overdue(rs[..last], progress, now) + [if now - progress[last] > PATIENCE then Expired(rs[last]) else rs[last]]
  }

  lemma OverdueStep(rs: seq<Recipient>, progress: seq<int>, now: int, i: nat)
    requires i < |rs| <= |progress|
    ensures Overdue(rs[..i + 1], progress, now)
         == Overdue(rs[..i], progress, now) + [if now - progress[i] > PATIENCE then Expired(rs[i]) else rs[i]]
  {
    assert rs[..i + 1][..i] == rs[..i];
  }

  lemma {:induction false} OverdueAt(rs: seq<Recipient>, progress: seq<int>, now: int, i: nat)
    requires i < |rs| <= |progress|
    ensures Overdue(rs, progress, now)[i] == if now - progress[i] > PATIENCE then Expired(rs[i]) else rs[i]
    decreases |rs|
  {
    if i < |rs| - 1 {
      OverdueAt(rs[..|rs| - 1], progress, now, i);
    }
  }

  lemma MarkedRow(marked: seq<Recipient>, rs: seq<Recipient>, r: nat, row: Recipient)
    requires r < |rs| && |marked| == r
    ensures (marked + rs[r..])[r := row] == (marked + [row]) + rs[r + 1..]
    ensures row == rs[r] ==> marked + rs[r..] == (marked + [row]) + rs[r + 1..]
  {
  }

  /** When everybody is silent, those count as active whom the burst has left. */
  lemma SilentIsNotActive(rs: seq<Recipient>, progress: seq<int>, now: int)
    requires |rs| <= |progress| && Silent(rs, progress, now)
    ensures AnyCounted(Overdue(rs, progress, now), Active) <==> !Nobody(rs)
    ensures Silent(Overdue(rs, progress, now), progress, now)
  {
    var after := Overdue(rs, progress, now);
    forall i | 0 <= i < |after|
      ensures Counted(after[i]).Active? <==> rs[i].Eligible()
      ensures Counted(after[i]).Active? ==> now - progress[i] > PATIENCE
    {
      OverdueAt(rs, progress, now, i);
    }
    if !Nobody(rs) {
      var i :| 0 <= i < |rs| && rs[i].Eligible();
      assert Counted(after[i]).Active?;
    }
  }

  datatype Tallies = Tallies(active: nat, pending: nat, done: nat, unknown: nat, failed: nat, canceled: nat)

  ghost predicate Counters(rs: seq<Recipient>, t: Tallies) {
    && (t.active > 0 <==> AnyCounted(rs, Active)) && (t.pending > 0 <==> AnyCounted(rs, Pending))
    && (t.done > 0 <==> AnyCounted(rs, Stored)) && (t.unknown > 0 <==> AnyCounted(rs, Unknown))
    && (t.failed > 0 <==> AnyCounted(rs, Failed)) && (t.canceled > 0 <==> AnyCounted(rs, Canceled))
  }

  lemma CountOne(rs: seq<Recipient>, r: Recipient)
    ensures forall c :: AnyCounted(rs + [r], c) <==> AnyCounted(rs, c) || Counted(r) == c
  {
    var all := rs + [r];
    assert all[|rs|] == r;
    forall c | AnyCounted(rs, c) ensures AnyCounted(all, c) {
      var i :| 0 <= i < |rs| && Counted(rs[i]) == c;
      assert all[i] == rs[i];
    }
  }

  lemma SomebodyCounts(rs: seq<Recipient>)
    requires |rs| > 0 && Started(rs)
    ensures AnyCounted(rs, Active) || AnyCounted(rs, Stored) || AnyCounted(rs, Unknown) || AnyCounted(rs, Failed)
         || AnyCounted(rs, Canceled)
  {
    var i := if exists i :: 0 <= i < |rs| && rs[i].accepted then var i :| 0 <= i < |rs| && rs[i].accepted; i else 0;
    assert AnyCounted(rs, Counted(rs[i]));
  }

  class Outgoing {
    const size: nat
    const used: nat
    const acceptUntil: int
    const recipients: array<Recipient>
    const progress: array<int>
    var cursor: nat
    var started: bool
    var verdict: Option<Verdict>

    ghost predicate Valid()
      reads this, recipients
    {
      && recipients.Length == progress.Length == RECIPIENT_MAX
      && 0 < used <= RECIPIENT_MAX
      && cursor < CURSOR_END
      && (started ==> Started(Table()))
    }

    ghost function Table(): (rs: seq<Recipient>)
      reads recipients
      requires used <= recipients.Length
      ensures |rs| == used && forall i :: 0 <= i < used ==> rs[i] == recipients[i]
    {
      recipients[..used]
    }

    constructor (size: nat, used: nat, acceptUntil: int, now: int)
      requires 0 < used <= RECIPIENT_MAX
      ensures Valid() && Table() == seq(used, i => INVITED)
      ensures this.size == size && this.used == used && this.acceptUntil == acceptUntil
      ensures verdict.None? && cursor == 0 && fresh(recipients) && fresh(progress)
      ensures forall i :: 0 <= i < used ==> progress[i] == now
    {
      this.size, this.used, this.acceptUntil := size, used, acceptUntil;
      recipients := new Recipient[RECIPIENT_MAX](i => INVITED);
      progress := new int[RECIPIENT_MAX](i => now);
      cursor, started, verdict := 0, false, None;
    }

    /** Any recipient that accepted, or an answer from every one of them. */
    method Ready() returns (ready: bool)
      requires Valid()
      ensures ready <==> Started(Table())
    {
      var pending := false;
      for i := 0 to used
        invariant forall j :: 0 <= j < i ==> !recipients[j].accepted
        invariant pending <==> exists j :: 0 <= j < i && Counted(recipients[j]).Pending?
      {
        if recipients[i].accepted {
          assert Table()[i].accepted;
          return true;
        }
        pending := pending || Counted(recipients[i]).Pending?;
      }
      ready := !pending;
    }

    /** Nine tries from the cursor on. */
    method Search() returns (found: Option<nat>)
      requires Valid()
      modifies this`cursor
      ensures Valid()
      ensures found.Some? ==> found.value < used && recipients[found.value].Eligible()
      ensures match Found(Table(), old(cursor))
              case None => found.None? && cursor == Moved(old(cursor), RECIPIENT_MAX)
              case Some(k) => found == Some(Candidate(old(cursor), k)) && cursor == Moved(old(cursor), k + 1)
    {
      for k := 0 to RECIPIENT_MAX
        invariant Valid()
        invariant cursor == Moved(old(cursor), k)
        invariant forall j :: 0 <= j < k ==> !Waiting(Table(), Candidate(old(cursor), j))
      {
        var candidate := cursor % RECIPIENT_MAX;
        assert candidate == Candidate(old(cursor), k);
        cursor := (cursor + 1) % CURSOR_END;
        assert cursor == Moved(old(cursor), k + 1);
        if candidate < used && recipients[candidate].Eligible() {
          assert FirstHit(Table(), old(cursor), k);
          return Some(candidate);
        }
      }
      return None;
    }

    /** One turn of the budget loop for the recipient found.  Whether its identity
        still matches, its chunk reads and its packet goes out is decided outside. */
    method Serve(i: nat, now: int) returns (blocked: bool, ghost attempt: Attempt)
      requires Valid() && started && i < used && recipients[i].Eligible()
      modifies recipients, progress
      ensures Valid()
      ensures Table() == old(Table())[i := Pumped(size, old(recipients[i]), attempt)]
      ensures progress[..] == if attempt.Sent? then old(progress[..])[i := now] else old(progress[..])
      ensures now - old(progress[i]) > PATIENCE ==> attempt.Gone?
      ensures blocked <==> attempt.WouldBlock?
    {
      var identityOk: bool := *;
      var readOk: bool := *;
      var sent: int := *;
      blocked := false;
      if !identityOk || now - progress[i] > PATIENCE {
        recipients[i] := recipients[i].(failed := true);
        attempt := Gone;
      } else if recipients[i].offset < size {
        var wanted := size - recipients[i].offset;
        if wanted > DATA_MAX {
          wanted := DATA_MAX;
        }
        if !readOk {
          recipients[i] := recipients[i].(failed := true);
          attempt := ReadFailed;
        } else if sent == 0 {
          recipients[i] := recipients[i].(offset := recipients[i].offset + wanted);
          progress[i] := now;
          attempt := Sent;
        } else if sent < 0 {
          recipients[i] := recipients[i].(failed := true);
          attempt := Refused;
        } else {
          blocked, attempt := true, WouldBlock;
        }
      } else if sent == 0 {
        recipients[i] := recipients[i].(doneSent := true);
        progress[i] := now;
        attempt := Sent;
      } else if sent < 0 {
        recipients[i] := recipients[i].(failed := true);
        attempt := Refused;
      } else {
        blocked, attempt := true, WouldBlock;
      }
      KeepsStarted(old(Table()), i, Pumped(size, old(recipients[i]), attempt));
    }

    /** One turn of the budget loop; with nobody found or the channel full, the last. */
    method Turn(now: int) returns (last: bool, ghost steps: seq<Event>)
      requires Valid() && started
      modifies this`cursor, recipients, progress
      ensures Valid() && started && AllOfPump(steps, used) && |steps| <= 1
      ensures Table() == Replay(size, old(Table()), steps)
      ensures old(Silent(Table(), progress[..], now)) ==>
                && progress[..] == old(progress[..]) && Silent(Table(), progress[..], now)
                && TurnIs(size, old(Table()), old(cursor), last, Table(), cursor)
    {
      ghost var rs := Table();
      var found := Search();
      if found.None? {
        return true, [];
      }
      ghost var attempt;
      last, attempt := Serve(found.value, now);
      steps := [Event.Pump(found.value, attempt)];
      ReplayStep(size, rs, [], steps[0]);
      assert [] + steps == steps;
      if Silent(rs, old(progress[..]), now) {
        assert now - old(progress[..])[found.value] > PATIENCE;
        GoneKeepsSilent(size, rs, old(progress[..]), now, found.value);
      }
    }

    /** Everybody is silent and `left` more turns lead to `all`. */
    ghost predicate Leads(all: (seq<Recipient>, nat), now: int, left: nat)
      reads this, recipients, progress
      requires Valid()
    {
      Silent(Table(), progress[..], now) && all == GivenUp(size, Table(), cursor, left)
    }

    /** One turn towards what a silent burst ends with. */
    method Turns(now: int, ghost rs: seq<Recipient>, ghost before: seq<Event>,
                 ghost all: (seq<Recipient>, nat), ghost left: nat)
      returns (last: bool, ghost steps: seq<Event>)
      requires Valid() && started && left > 0
      requires |rs| == used && AllOfPump(before, used) && Table() == Replay(size, rs, before)
      modifies this`cursor, recipients, progress
      ensures Valid() && started && AllOfPump(steps, used) && Table() == Replay(size, rs, steps)
      ensures old(Leads(all, now, left)) ==>
                progress[..] == old(progress[..]) && Leads(all, now, if last then 0 else left - 1)
    {
      ghost var was, from := Table(), cursor;
      ghost var more;
      last, more := Turn(now);
      ReplayMore(size, rs, before, more);
      steps := before + more;
      if old(Leads(all, now, left)) {
        TurnOfBurst(size, was, from, last, Table(), cursor, left);
      }
    }

    /** The budget loop: at most 32 turns; `all` is what a silent burst ends with. */
    method SendBurst(now: int, ghost all: (seq<Recipient>, nat)) returns (ghost steps: seq<Event>)
      requires Valid() && started
      modifies this`cursor, recipients, progress
      ensures Valid() && started && AllOfPump(steps, used)
      ensures Table() == Replay(size, old(Table()), steps)
      ensures old(Leads(all, now, BUDGET)) ==> progress[..] == old(progress[..]) && Leads(all, now, 0)
    {
      ghost var silent, rs := Leads(all, now, BUDGET), Table();
      steps := [];
      ghost var left: nat := BUDGET;
      for budget := 0 to BUDGET
        invariant Valid() && started && AllOfPump(steps, used) && left == BUDGET - budget
        invariant Table() == Replay(size, rs, steps)
        invariant silent ==> progress[..] == old(progress[..]) && Leads(all, now, left)
      {
        var last;
        last, steps := Turns(now, rs, steps, all, left);
        left := left - 1;
        if last {
          return;
        }
      }
    }

    /** Gives up on a receipt that is overdue. */
    method Mark(r: nat, now: int, ghost rs: seq<Recipient>) returns (ghost steps: seq<Event>)
      requires Valid() && started && r < used && |rs| == used
      requires Table() == Overdue(rs[..r], progress[..], now) + rs[r..]
      modifies recipients
      ensures Valid() && AllOfPump(steps, used) && Table() == Replay(size, old(Table()), steps)
      ensures Table() == Overdue(rs[..r + 1], progress[..], now) + rs[r + 1..]
      ensures Table()[..r] == old(Table())[..r]
    {
      steps := [];
      assert recipients[r] == rs[r];
      OverdueStep(rs, progress[..], now, r);
      if recipients[r].accepted && recipients[r].doneSent && now - progress[r] > PATIENCE {
        recipients[r] := recipients[r].(unknown := true);
        KeepsStarted(old(Table()), r, recipients[r]);
        steps := [Event.Expire(r)];
        ReplayStep(size, old(Table()), [], Event.Expire(r));
        assert [] + steps == steps;
        assert Table() == old(Table())[r := Expired(rs[r])];
      }
      MarkedRow(Overdue(rs[..r], progress[..], now), rs, r,
                if now - progress[r] > PATIENCE then Expired(rs[r]) else rs[r]);
    }

    /** Counts one recipient. */
    method CountRow(r: nat, t: Tallies) returns (n: Tallies)
      requires Valid() && r < used && Counters(Table()[..r], t)
      ensures Counters(Table()[..r + 1], n)
    {
      assert Table()[..r + 1] == Table()[..r] + [recipients[r]];
      CountOne(Table()[..r], recipients[r]);
      if !recipients[r].accepted {
        if recipients[r].failed {
          n := t.(failed := t.failed + 1);
        } else if recipients[r].canceled {
          n := t.(canceled := t.canceled + 1);
        } else {
          n := t.(pending := t.pending + 1);
        }
      } else if recipients[r].done {
        n := t.(done := t.done + 1);
      } else if recipients[r].unknown {
        n := t.(unknown := t.unknown + 1);
      } else if recipients[r].failed {
        n := t.(failed := t.failed + 1);
      } else if recipients[r].canceled {
        n := t.(canceled := t.canceled + 1);
      } else {
        n := t.(active := t.active + 1);
      }
    }

    method Count(now: int) returns (t: Tallies, ghost steps: seq<Event>)
      requires Valid() && started
      modifies recipients
      ensures Valid() && AllOfPump(steps, used) && Table() == Replay(size, old(Table()), steps)
      ensures Table() == Overdue(old(Table()), progress[..], now)
      ensures Counters(Table(), t)
    {
      t, steps := Tallies(0, 0, 0, 0, 0, 0), [];
      ghost var rs := Table();
      for r := 0 to used
        invariant Valid() && AllOfPump(steps, used) && Table() == Replay(size, rs, steps)
        invariant Table() == Overdue(rs[..r], progress[..], now) + rs[r..]
        invariant Counters(Table()[..r], t)
      {
        ghost var more := Mark(r, now, rs);
        ReplayMore(size, rs, steps, more);
        steps := steps + more;
        t := CountRow(r, t);
      }
      assert rs[..used] == rs && Table()[..used] == Table();
    }

    /** The verdict, when nobody is left to wait for. */
    method Decide(now: int, trouble: bool, t: Tallies)
      requires Valid() && started && verdict.None? && Counters(Table(), t)
      modifies this`verdict
      ensures Valid() && verdict == PumpVerdict(Table(), now >= acceptUntil, trouble)
      ensures now >= acceptUntil ==> (verdict.Some? <==> t.active == 0)
    {
      SomebodyCounts(Table());
      if t.active == 0 && (t.pending == 0 || now >= acceptUntil)
          && t.done + t.canceled + t.failed + t.unknown > 0 {
        if t.done > 0 {
          verdict := Some(Verdict(Final, if trouble then LocalTrouble
                                         else if t.unknown > 0 then PartialUnknown
                                         else if t.failed > 0 then PartialFailed else NoCode, false));
        } else if t.unknown > 0 {
          verdict := Some(Verdict(Failure, Undelivered, false));
        } else if t.failed > 0 {
          verdict := Some(Verdict(Failure, AllFailed, false));
        } else {
          verdict := Some(Verdict(Withdrawn, NoCode, false));
        }
      }
    }

    /** The acceptance window has closed and everybody the sender still waits for has
        been silent for more than 30 s. */
    ghost predicate Overdone(now: int)
      reads this, recipients, progress
      requires Valid()
    {
      now >= acceptUntil && Silent(Table(), progress[..], now)
    }

    /** One call of the pump.  The sending it did is a run of protocol events, its
        verdict the protocol's.  An overdue call ends the transfer exactly when its
        burst gives up on everybody, which it does unless it straddles the cursor's
        wrap; the next overdue call then ends it.  `trouble` is a history write that
        fails. */
    method Pump(now: int, trouble: bool) returns (ghost steps: seq<Event>)
      requires Valid() && verdict.None?
      modifies this`cursor, this`started, this`verdict, recipients, progress
      ensures Valid() && AllOfPump(steps, used)
      ensures Table() == Replay(size, old(Table()), steps)
      ensures verdict == PumpVerdict(Table(), now >= acceptUntil, trouble)
      ensures old(Overdone(now)) ==>
                && (verdict.Some? <==> Nobody(Burst(size, old(Table()), old(cursor)).0))
                && (old(cursor) + RECIPIENT_MAX <= CURSOR_END ==> verdict.Some?)
                && (verdict.None? ==> cursor < RECIPIENT_MAX && forall later :: now <= later ==> Overdone(later))
    {
      steps := [];
      ghost var overdone := Overdone(now);
      BurstEnds(size, Table(), cursor);
      if !started {
        var ready := Ready();
        if !ready {
          NotStarted(size, Table(), cursor);
          if now >= acceptUntil {
            verdict := Some(Verdict(Failure, NoRecipient, false));
          }
          return;
        }
        started := true;
      }
      steps := SendBurst(now, Burst(size, Table(), cursor));
      if overdone {
        SilentIsNotActive(Table(), progress[..], now);
      }
      var t;
      ghost var marks;
      t, marks := Count(now);
      ReplayMore(size, old(Table()), steps, marks);
      steps := steps + marks;
      Decide(now, trouble, t);
    }
  }

  /** A turn that gives up on whom it finds. */
  ghost predicate TurnIs(size: nat, rs: seq<Recipient>, cursor: nat, last: bool, after: seq<Recipient>, next: nat) {
    match Found(rs, cursor)
    case None => last && after == rs && next == Moved(cursor, RECIPIENT_MAX)
    case Some(k) =>
      !last && after == Dropped(size, rs, Candidate(cursor, k)) && next == Moved(cursor, k + 1)
  }

  lemma TurnOfBurst(size: nat, rs: seq<Recipient>, cursor: nat, last: bool, after: seq<Recipient>, next: nat, left: nat)
    requires TurnIs(size, rs, cursor, last, after, next) && left > 0
    ensures GivenUp(size, rs, cursor, left) == if last then (after, next) else GivenUp(size, after, next, left - 1)
  {
  }

  lemma NotStarted(size: nat, rs: seq<Recipient>, cursor: nat)
    requires !Started(rs)
    ensures Nobody(Burst(size, rs, cursor).0)
  {
    NobodyHit(size, rs, cursor, BUDGET);
  }

  lemma {:induction false} ReplayMore(size: nat, rs: seq<Recipient>, a: seq<Event>, b: seq<Event>)
    requires AllOfPump(a, |rs|) && AllOfPump(b, |rs|)
    ensures AllOfPump(a + b, |rs|)
    ensures Replay(size, rs, a + b) == Replay(size, Replay(size, rs, a), b)
    decreases |b|
  {
    if b == [] {
      assert a + b == a;
    } else {
      var e := b[|b| - 1];
      ReplayMore(size, rs, a, b[..|b| - 1]);
      assert a + b == (a + b[..|b| - 1]) + [e];
      ReplayStep(size, rs, a + b[..|b| - 1], e);
    }
  }

  lemma KeepsStarted(rs: seq<Recipient>, i: nat, r: Recipient)
    requires Started(rs) && i < |rs| && rs[i].accepted && r.accepted
    ensures Started(rs[i := r])
  {
    assert rs[i := r][i].accepted;
  }
}
