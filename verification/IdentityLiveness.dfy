/** What runs of the identity replacement without failing operations reach, and
    the runs in which a failure leaves neither identity or loses a file. */
module IdentityLiveness {
  import opened Basics
  import opened IdentityReplacement
  import opened IdentitySafety
  import opened IdentityUnmarked

  /** No restart, no failing operation, and the old identity needs no passphrase;
      what the loaded identity writes and whether it has friends is open. */
  predicate Faultless(e: Event) { e.Go? && e.fate.Done? && !e.locked }

  predicate AllFaultless(events: seq<Event>) {
    forall i :: 0 <= i < |events| ==> Faultless(events[i])
  }

  /** How often the loaded identity goes on writing. */
  function Writes(events: seq<Event>): nat {
    if events == [] then 0 else (if events[0].Go? && events[0].more then 1 else 0) + Writes(events[1..])
  }

  lemma {:induction false} RunAppend(t: Txn, s: State, a: seq<Event>, b: seq<Event>)
    ensures Run(t, s, a + b) == Run(t, Run(t, s, a), b)
    decreases |a|
  {
    if a == [] {
      assert a + b == b;
    } else {
      assert (a + b)[1..] == a[1..] + b;
      RunAppend(t, Next(t, s, a[0]), a[1..], b);
    }
  }

  // --- No path is ever displaced twice --------------------------------------------

  /** A path never has all three files, so that moving the newer one out of the
      way never meets an `.aborted-identity` file already there. */
  ghost predicate Clear(d: Disk) {
    forall i :: 0 <= i < PATHS ==> d.archived[i].None? || d.aborted[i].None? || d.source[i].None?
  }

  predicate NothingAborted(d: Disk) {
    forall i :: 0 <= i < PATHS ==> d.aborted[i].None?
  }

  predicate Restarted(pc: Pc) {
    pc.Restore? || RollingBack(pc) || Recovering(pc) || pc.Halt? || pc.Finished? || pc.DropBackup?
  }

  ghost predicate Displaceable(s: State) {
    && Clear(s.disk)
    && (!Restarted(s.pc) ==> NothingAborted(s.disk))
  }

  lemma ForwardDisplaceable(t: Txn, s: State, e: Event)
    requires Displaceable(s) && !Restarted(s.pc)
    ensures Displaceable(Next(t, s, e))
  {
  }

  lemma RestoreDisplaceable(t: Txn, s: State, e: Event)
    requires Displaceable(s) && s.pc.Restore?
    ensures Displaceable(Next(t, s, e))
  {
    if e.Go? {
      RestoreClear(s, e);
    }
  }

  lemma RestoreClear(s: State, e: Event)
    requires Clear(s.disk) && s.pc.Restore? && e.Go?
    ensures Clear(RestoreStep(s, e).disk) && Restarted(RestoreStep(s, e).pc)
  {
    var k := s.pc.left - 1;
    if 0 < s.pc.left <= PATHS && s.mem.moved[k] {
      RenamesClear(s, k);
      RestoreIsRename(s, e, k);
    }
  }

  /** A step for a path still archived is one rename, or none. */
  lemma RestoreIsRename(s: State, e: Event, k: nat)
    requires s.pc.Restore? && e.Go? && s.pc.left == k + 1 <= PATHS && s.mem.moved[k]
    ensures var d := RestoreStep(s, e).disk;
            || d == s.disk || d == Return(s, k).disk || d == Undisplace(s, k).disk
            || (s.disk.aborted[k].None? && d == Displace(s, k).disk)
    ensures RestoreStep(s, e).pc.Restore?
  {
  }

  lemma RenamesClear(s: State, k: nat)
    requires Clear(s.disk) && s.pc.Restore? && k < PATHS
    ensures Clear(Return(s, k).disk)
    ensures s.disk.aborted[k].None? ==> Clear(Displace(s, k).disk)
    ensures Clear(Undisplace(s, k).disk)
  {
  }

  lemma RollbackDisplaceable(t: Txn, s: State, e: Event)
    requires Clear(s.disk) && RollingBack(s.pc) && e.Go?
    ensures var r := RollbackStep(t, s, e); Clear(r.disk) && Restarted(r.pc)
  {
  }

  lemma RecoveryDisplaceable(t: Txn, s: State, e: Event)
    requires Clear(s.disk) && Recovering(s.pc) && e.Go?
    ensures var r := RecoveryStep(t, s, e); Clear(r.disk) && Restarted(r.pc)
  {
  }

  lemma BackwardDisplaceable(t: Txn, s: State, e: Event)
    requires Displaceable(s) && Restarted(s.pc) && !s.pc.Restore?
    ensures Displaceable(Next(t, s, e))
  {
    if e.Go? && RollingBack(s.pc) {
      RollbackDisplaceable(t, s, e);
    } else if e.Go? && Recovering(s.pc) {
      RecoveryDisplaceable(t, s, e);
    }
  }

  lemma StepDisplaceable(t: Txn, s: State, e: Event)
    requires Displaceable(s)
    ensures Displaceable(Next(t, s, e))
  {
    if s.pc.Restore? {
      RestoreDisplaceable(t, s, e);
    } else if Restarted(s.pc) {
      BackwardDisplaceable(t, s, e);
    } else {
      ForwardDisplaceable(t, s, e);
    }
  }

  lemma {:induction false} RunDisplaceable(t: Txn, s: State, events: seq<Event>)
    requires Displaceable(s)
    ensures Displaceable(Run(t, s, events))
    decreases |events|
  {
    if events != [] {
      StepDisplaceable(t, s, events[0]);
      RunDisplaceable(t, Next(t, s, events[0]), events[1..]);
    }
  }

  // --- The replacement ------------------------------------------------------------

  /** How many steps are left, the loaded identity's further writes not counted. */
  function Ahead(pc: Pc): nat {
    match pc
    case Export => 36 case WriteMarker => 35
    case Archive(i) => if i <= PATHS then 16 + PATHS - i else 0
    case ImportGroups => 15 case ImportBindings => 14 case ImportTox => 13 case SyncImport => 12
    case Load => 11 case SetPhase => 10 case PersistReinvite => 9 case SaveUnread => 8
    case ReplaceGuard => 7 case EnableStale => 6 case EnableTox => 5 case EnableRecovery => 4
    case EnableFresh => 3 case RemoveMarker => 2 case DropBackup => 1 case _ => 0
  }

  ghost predicate OnTrack(t: Txn, s: State) {
    && (Ahead(s.pc) > 0 || s.pc.Finished?)
    && (s.pc.DropBackup? || s.pc.Finished? ==> Replaced(t, s))
  }

  ghost predicate Replacing(t: Txn, s: State) { Inv(t, s) && OnTrack(t, s) }

  /** One step less, or one more write of the loaded identity. */
  ghost predicate Nears(t: Txn, s: State, e: Event, r: State) {
    && Ahead(r.pc) == Ahead(s.pc) - (if s.pc.Load? && e.Go? && e.more then 0 else 1)
    && OnTrack(t, r)
  }

  lemma OpenNears(t: Txn, s: State, e: Event)
    requires t.Valid() && Replacing(t, s) && Faultless(e) && (s.pc.Export? || s.pc.WriteMarker?)
    ensures Nears(t, s, e, OpenStep(t, s, e))
  {
  }

  lemma ArchiveNears(t: Txn, s: State, e: Event)
    requires t.Valid() && Replacing(t, s) && Faultless(e) && s.pc.Archive?
    ensures Nears(t, s, e, ArchiveStep(t, s, e))
  {
  }

  lemma ImportNears(t: Txn, s: State, e: Event)
    requires t.Valid() && Replacing(t, s) && Faultless(e) && 15 >= Ahead(s.pc) > 11
    ensures Nears(t, s, e, ImportStep(t, s, e))
  {
  }

  lemma LoadNears(t: Txn, s: State, e: Event)
    requires t.Valid() && Replacing(t, s) && Faultless(e) && (s.pc.Load? || s.pc.SetPhase?)
    ensures Nears(t, s, e, LoadStep(t, s, e))
  {
  }

  lemma PersistNears(t: Txn, s: State, e: Event)
    requires t.Valid() && Replacing(t, s) && Faultless(e) && (s.pc.PersistReinvite? || s.pc.SaveUnread?)
    ensures Nears(t, s, e, PersistStep(t, s, e))
  {
  }

  lemma GuardNears(t: Txn, s: State, e: Event)
    requires t.Valid() && Replacing(t, s) && Faultless(e) && (s.pc.ReplaceGuard? || s.pc.EnableStale?)
    ensures Nears(t, s, e, GuardStep(t, s, e))
  {
  }

  lemma EnableNears(t: Txn, s: State, e: Event)
    requires t.Valid() && Replacing(t, s) && Faultless(e) && 5 >= Ahead(s.pc) > 2
    ensures Nears(t, s, e, EnableStep(t, s, e))
  {
  }

  lemma CloseNears(t: Txn, s: State, e: Event)
    requires t.Valid() && Replacing(t, s) && Faultless(e) && 2 >= Ahead(s.pc) > 0
    ensures Nears(t, s, e, CloseStep(t, s, e))
  {
  }

  lemma ForwardNears(t: Txn, s: State, e: Event)
    requires t.Valid() && Replacing(t, s) && Faultless(e) && Ahead(s.pc) > 0
    ensures Nears(t, s, e, ForwardStep(t, s, e))
  {
    match s.pc
    case Export => OpenNears(t, s, e);
    case WriteMarker => OpenNears(t, s, e);
    case Archive(_) => ArchiveNears(t, s, e);
    case Load => LoadNears(t, s, e);
    case SetPhase => LoadNears(t, s, e);
    case PersistReinvite => PersistNears(t, s, e);
    case SaveUnread => PersistNears(t, s, e);
    case ReplaceGuard => GuardNears(t, s, e);
    case EnableStale => GuardNears(t, s, e);
    case EnableTox => EnableNears(t, s, e);
    case EnableRecovery => EnableNears(t, s, e);
    case EnableFresh => EnableNears(t, s, e);
    case RemoveMarker => CloseNears(t, s, e);
    case DropBackup => CloseNears(t, s, e);
    case _ => ImportNears(t, s, e);
  }

  lemma ForwardNext(t: Txn, s: State, e: Event)
    requires Ahead(s.pc) > 0 && e.Go?
    ensures Next(t, s, e) == ForwardStep(t, s, e)
  {
  }

  lemma StepReplaces(t: Txn, s: State, e: Event)
    requires t.Valid() && Replacing(t, s) && Faultless(e) && Ahead(s.pc) > 0
    ensures Replacing(t, Next(t, s, e)) && Nears(t, s, e, Next(t, s, e))
  {
    StepKeeps(t, s, e);
    ForwardNears(t, s, e);
    ForwardNext(t, s, e);
  }

  lemma {:induction false} RunReplaces(t: Txn, s: State, events: seq<Event>)
    requires t.Valid() && Replacing(t, s) && AllFaultless(events)
    ensures var r := Run(t, s, events);
            && Replacing(t, r) && (s.pc.Finished? ==> r.pc.Finished?)
            && Ahead(r.pc) + |events| >= Ahead(s.pc)
            && (Ahead(r.pc) == 0 || Ahead(r.pc) + |events| <= Ahead(s.pc) + Writes(events))
    decreases |events|
  {
    if events != [] {
      if Ahead(s.pc) > 0 {
        StepReplaces(t, s, events[0]);
      }
      RunReplaces(t, Next(t, s, events[0]), events[1..]);
    }
  }

  /** A replacement no operation of which fails replaces the identity, whatever
      the loaded identity writes, as soon as it is done writing. */
  lemma ReplacementSucceeds(t: Txn, events: seq<Event>)
    requires t.Valid() && AllFaultless(events) && |events| >= 36 + Writes(events)
    ensures var r := Run(t, Start(t), events); r.pc.Finished? && Replaced(t, r)
  {
    RunReplaces(t, Start(t), events);
  }

  // --- The recovery -----------------------------------------------------------------

  /** How many steps of the recovery are left at most. */
  function Behind(pc: Pc): nat {
    match pc
    case Boot => 44 case RecoverReinvite => 43 case RecoverTox => 42
    case Restore(left, displaced, _) => if left <= PATHS then 4 + 2 * left + if displaced then 0 else 1 else 0
    case RecoverGuard => 4 case RecoverStale => 3 case RecoverMarker => 2 case RecoverBackup => 1 case _ => 0
  }

  ghost predicate Back(t: Txn, s: State) {
    && (Behind(s.pc) > 0 || s.pc.Finished?)
    && (s.pc.Restore? ==> s.pc.caller.Recovery? && !s.mem.failed)
    && (if s.pc.RecoverBackup? || s.pc.Finished? then Restored(t, s) else s.disk.marker.Some?)
  }

  ghost predicate Undoing(t: Txn, s: State) {
    Inv(t, s) && Displaceable(s) && Back(t, s)
  }

  lemma PathRestored(t: Txn, s: State, e: Event)
    requires t.Valid() && Undoing(t, s) && Faultless(e) && s.pc.Restore?
    ensures var r := RestoreStep(s, e); Behind(r.pc) < Behind(s.pc) && Back(t, r) && (s.lost ==> r.lost)
  {
  }

  lemma OpeningRestores(t: Txn, s: State, e: Event)
    requires t.Valid() && Undoing(t, s) && Faultless(e) && (s.pc.Boot? || s.pc.RecoverReinvite? || s.pc.RecoverTox?)
    ensures var r := RecoveryStep(t, s, e); Behind(r.pc) < Behind(s.pc) && Back(t, r) && (s.lost ==> r.lost)
  {
  }

  lemma FlagsRestore(t: Txn, s: State, e: Event)
    requires t.Valid() && Undoing(t, s) && Faultless(e) && (s.pc.RecoverGuard? || s.pc.RecoverStale?)
    ensures var r := RecoverFlags(t, s, e); Behind(r.pc) < Behind(s.pc) && Back(t, r) && (s.lost ==> r.lost)
  {
  }

  lemma ClosingRestores(t: Txn, s: State, e: Event)
    requires t.Valid() && Undoing(t, s) && Faultless(e) && (s.pc.RecoverMarker? || s.pc.RecoverBackup?)
    ensures var r := RecoverClose(t, s, e); Behind(r.pc) < Behind(s.pc) && Back(t, r) && (s.lost ==> r.lost)
  {
  }

  lemma StepRestores(t: Txn, s: State, e: Event)
    requires t.Valid() && Undoing(t, s) && Faultless(e)
    ensures var r := Next(t, s, e);
            Undoing(t, r) && (r.pc.Finished? || Behind(r.pc) < Behind(s.pc)) && (s.lost ==> r.lost)
  {
    StepKeeps(t, s, e);
    StepDisplaceable(t, s, e);
    if s.pc.Restore? {
      PathRestored(t, s, e);
    } else if s.pc.Boot? || s.pc.RecoverReinvite? || s.pc.RecoverTox? {
      OpeningRestores(t, s, e);
    } else if s.pc.RecoverGuard? || s.pc.RecoverStale? {
      FlagsRestore(t, s, e);
    } else if !s.pc.Finished? {
      ClosingRestores(t, s, e);
    }
  }

  lemma {:induction false} RunRestores(t: Txn, s: State, events: seq<Event>)
    requires t.Valid() && Undoing(t, s) && AllFaultless(events)
    ensures var r := Run(t, s, events);
            Undoing(t, r) && (r.pc.Finished? || Behind(r.pc) + |events| <= Behind(s.pc)) && (s.lost ==> r.lost)
    decreases |events|
  {
    if events != [] {
      StepRestores(t, s, events[0]);
      RunRestores(t, Next(t, s, events[0]), events[1..]);
    }
  }

  /** Whatever failed before: a recovery that finds the marker and meets no failing
      operation restores the old identity and ends within 44 steps. */
  lemma RecoveryFinishes(t: Txn, before: seq<Event>, after: seq<Event>)
    requires t.Valid() && AllFaultless(after) && |after| >= 44
    requires var s := Run(t, Start(t), before); s.pc.Boot? && s.disk.marker.Some?
    ensures var r := Run(t, Run(t, Start(t), before), after); r.pc.Finished? && Restored(t, r)
  {
    AnyRun(t, before);
    RunDisplaceable(t, Start(t), before);
    RunRestores(t, Run(t, Start(t), before), after);
  }

  // --- Runs that end badly -------------------------------------------------------------

  /** A faultless step of an identity that has no friends and writes nothing. */
  const QUIET: Event := Go(Done, 0, None, 0, false, false, false)

  predicate AllQuiet(events: seq<Event>) { forall e :: e in events ==> e == QUIET }

  function Quiet(n: nat): (events: seq<Event>)
    ensures |events| == n && AllFaultless(events) && AllQuiet(events)
  {
    seq(n, i => QUIET)
  }

  lemma {:induction false} QuietWrites(n: nat)
    ensures Writes(Quiet(n)) == 0
  {
    if n > 0 {
      assert Quiet(n)[1..] == Quiet(n - 1);
      QuietWrites(n - 1);
    }
  }

  lemma OneEvent(t: Txn, s: State, e: Event)
    ensures Run(t, s, [e]) == Next(t, s, e)
  {
    assert [e][1..] == [];
  }

  lemma MoreEvents(t: Txn, s: State, e: Event, events: seq<Event>)
    ensures Run(t, s, [e] + events) == Run(t, Next(t, s, e), events)
  {
    assert ([e] + events)[1..] == events;
  }

  ghost predicate Removing(t: Txn, s: State) {
    s.pc.RemoveMarker? && Inv(t, s) && Displaceable(s)
  }

  lemma MarkerReached(t: Txn, n: nat)
    requires t.Valid() && n == Ahead(Export) - 2
    ensures Removing(t, Run(t, Start(t), Quiet(n)))
  {
    QuietWrites(n);
    RunReplaces(t, Start(t), Quiet(n));
    RunDisplaceable(t, Start(t), Quiet(n));
  }

  /** A run without restarts and failures that is about to remove the marker. */
  lemma MarkerAhead(t: Txn) returns (events: seq<Event>)
    requires t.Valid()
    ensures AllQuiet(events) && Removing(t, Run(t, Start(t), events))
  {
    var n := Ahead(Export) - 2;
    MarkerReached(t, n);
    events := Quiet(n);
  }

  const LOSING: Event := QUIET.(fate := FailedAfter)

  /** The marker is lost and a restart strikes the rollback after the save went
      back: the old save stays under the new guard. */
  lemma ExposedRollbackIsNeither(t: Txn) returns (events: seq<Event>)
    requires t.Valid() && Different(t)
    ensures var r := Run(t, Start(t), events);
            && r.pc.Finished? && r.disk.marker.None? && !AllOrNothing(t, r)
            && r.disk.tox == t.before.tox && r.disk.guard == t.incoming.owner
  {
    var before := MarkerAhead(t);
    var s := Run(t, Start(t), before);
    Strike(t, s);
    RunAppend(t, Start(t), before, STRIKE);
    events := before + STRIKE;
  }

  const STRIKE: seq<Event> := [LOSING] + ([QUIET] + ([Restart] + ([QUIET] + [QUIET])))

  lemma Strike(t: Txn, s: State)
    requires t.Valid() && Different(t) && Removing(t, s)
    ensures var r := Run(t, s, STRIKE);
            && r.pc.Finished? && r.disk.marker.None? && !AllOrNothing(t, r)
            && r.disk.tox == t.before.tox && r.disk.guard == t.incoming.owner
  {
    var first := Next(t, s, LOSING);
    var back := Next(t, first, QUIET);
    SaveAlone(t, s);
    MoreEvents(t, s, LOSING, [QUIET] + ([Restart] + ([QUIET] + [QUIET])));
    MoreEvents(t, first, QUIET, [Restart] + ([QUIET] + [QUIET]));
    UnmarkedRestart(t, back);
  }

  lemma SaveAlone(t: Txn, s: State)
    requires t.Valid() && Removing(t, s)
    ensures var back := Next(t, Next(t, s, LOSING), QUIET);
            && back.pc.RollbackReinvite? && back.disk.marker.None?
            && back.disk.tox == t.before.tox && back.disk.guard == t.incoming.owner
  {
  }

  lemma UnmarkedRestart(t: Txn, s: State)
    requires s.disk.marker.None? && !s.pc.Finished?
    ensures var r := Run(t, s, [Restart] + ([QUIET] + [QUIET]));
            r.pc.Finished? && r.disk == s.disk.(backup := None)
  {
    var boot := Next(t, s, Restart);
    MoreEvents(t, s, Restart, [QUIET] + [QUIET]);
    MoreEvents(t, boot, QUIET, [QUIET]);
    OneEvent(t, Next(t, boot, QUIET), QUIET);
  }

  /** How far the rollback is from its end. */
  function ToHalt(pc: Pc): nat {
    match pc
    case RollbackReinvite => 50
    case Restore(left, displaced, _) => if left <= PATHS then 7 + 2 * left + if displaced then 0 else 1 else 0
    case RollbackGuard => 6 case RollbackStale => 5 case RollbackReload => 4 case RollbackLoad => 3
    case RollbackRatchet => 2 case RollbackMarker => 1 case _ => 0
  }

  /** The save could not be put back; the guard is back or will be. */
  ghost predicate Doomed(t: Txn, s: State, u: Undo) {
    && Different(t) && Unmarked(t, s, u) && !u.save && (ToHalt(s.pc) > 0 || s.pc.Halt?)
    && (InRollback(s.pc) ==> !s.mem.ok)
    && (u.guard || ToHalt(s.pc) >= 6)
  }

  lemma DoomAdvances(t: Txn, s: State, u: Undo)
    requires t.Valid() && Doomed(t, s, u) && ToHalt(s.pc) > 0
    ensures DoomNears(t, s, u, if s.pc.Restore? then RestoreStep(s, QUIET) else RollbackStep(t, s, QUIET))
  {
    if s.pc.Restore? { DoomedPath(t, s, u); } else { DoomedStep(t, s, u); }
  }

  ghost predicate DoomNears(t: Txn, s: State, u: Undo, r: State) {
    && ToHalt(r.pc) < ToHalt(s.pc) && (ToHalt(r.pc) > 0 || r.pc.Halt?) && (InRollback(r.pc) ==> !r.mem.ok)
    && var v := UndoStep(t, s, QUIET, u); !v.save && (v.guard || ToHalt(r.pc) >= 6)
  }

  lemma DoomedPath(t: Txn, s: State, u: Undo)
    requires t.Valid() && Doomed(t, s, u) && s.pc.Restore?
    ensures DoomNears(t, s, u, RestoreStep(s, QUIET))
  {
  }

  lemma DoomedStep(t: Txn, s: State, u: Undo)
    requires t.Valid() && Doomed(t, s, u) && !s.pc.Restore? && ToHalt(s.pc) > 0
    ensures DoomNears(t, s, u, RollbackStep(t, s, QUIET))
  {
  }

  lemma {:induction false} DoomHalts(t: Txn, s: State, u: Undo) returns (n: nat, v: Undo)
    requires t.Valid() && Doomed(t, s, u)
    ensures var r := Run(t, s, Quiet(n)); r.pc.Halt? && Doomed(t, r, v)
    decreases ToHalt(s.pc)
  {
    n, v := 0, u;
    if ToHalt(s.pc) > 0 {
      StepUndone(t, s, QUIET, u);
      DoomAdvances(t, s, u);
      n, v := DoomHalts(t, Next(t, s, QUIET), UndoStep(t, s, QUIET, u));
      assert Quiet(n + 1)[1..] == Quiet(n);
      n := n + 1;
    }
  }

  /** The marker is lost, the backup cannot be put back and nothing else fails: the
      process halts by itself with the new save under the old guard, and the next
      start finds no marker.  No restart is needed. */
  lemma NeitherWithoutRestart(t: Txn) returns (events: seq<Event>)
    requires t.Valid() && Different(t)
    ensures forall e :: e in events ==> e.Go?
    ensures var r := Run(t, Start(t), events);
            && r.pc.Halt? && r.disk.marker.None? && !AllOrNothing(t, r)
            && r.disk.tox.owner == t.incoming.owner && r.disk.guard == t.before.tox.owner
  {
    var before := MarkerAhead(t);
    var s := Run(t, Start(t), before);
    var n, v := Dooms(t, s);
    RunAppend(t, Start(t), before, [LOSING] + ([FAILING] + Quiet(n)));
    events := before + ([LOSING] + ([FAILING] + Quiet(n)));
    UndoneMeans(t, Run(t, Start(t), events), v);
  }

  const FAILING: Event := QUIET.(fate := FailedBefore)

  lemma Dooms(t: Txn, s: State) returns (n: nat, v: Undo)
    requires t.Valid() && Different(t) && Removing(t, s)
    ensures var r := Run(t, s, [LOSING] + ([FAILING] + Quiet(n))); r.pc.Halt? && Doomed(t, r, v)
  {
    var first := Next(t, s, LOSING);
    var u := SaveFails(t, s);
    n, v := DoomHalts(t, Next(t, first, FAILING), u);
    MoreEvents(t, first, FAILING, Quiet(n));
    MoreEvents(t, s, LOSING, [FAILING] + Quiet(n));
  }

  lemma SaveFails(t: Txn, s: State) returns (u: Undo)
    requires t.Valid() && Different(t) && Removing(t, s)
    ensures Doomed(t, Next(t, Next(t, s, LOSING), FAILING), u)
  {
    u := NothingYet(t, s);
    LosingBegins(t, s, LOSING);
    SaveNotBack(t, Next(t, s, LOSING), u);
  }

  lemma SaveNotBack(t: Txn, s: State, u: Undo)
    requires t.Valid() && Different(t) && Unmarked(t, s, u) && s.pc.RollbackTox? && !u.save && !u.guard
    ensures Doomed(t, Next(t, s, FAILING), u)
  {
    StepUndone(t, s, FAILING, u);
  }

  lemma {:induction false} GuardReached(t: Txn, s: State) returns (n: nat)
    requires t.Valid() && Undoing(t, s) && Behind(s.pc) >= 4
    ensures var r := Run(t, s, Quiet(n)); Undoing(t, r) && r.pc.RecoverGuard?
    ensures s.pc.Boot? && s.disk.marker.Some? ==>
              Run(t, s, Quiet(n)).mem.phase == s.disk.marker.value.phase
    ensures !s.pc.Boot? ==> Run(t, s, Quiet(n)).mem.phase == s.mem.phase
    decreases Behind(s.pc)
  {
    n := 0;
    if !s.pc.RecoverGuard? {
      StepRestores(t, s, QUIET);
      GuardAhead(t, s);
      n := GuardReached(t, Next(t, s, QUIET));
      assert Quiet(n + 1)[1..] == Quiet(n);
      n := n + 1;
    }
  }

  lemma GuardAhead(t: Txn, s: State)
    requires Back(t, s) && Behind(s.pc) > 4 && Behind(Next(t, s, QUIET).pc) < Behind(s.pc)
    requires Back(t, Next(t, s, QUIET))
    ensures var r := Next(t, s, QUIET);
            && Behind(r.pc) >= 4 && !r.pc.Boot?
            && r.mem.phase == if s.pc.Boot? then s.disk.marker.value.phase else s.mem.phase
  {
  }

  /** The recovery stops at the guard after it put the paths back; the next one
      removes the reinvite marker just put back. */
  lemma SecondRecovery(t: Txn, s: State)
    requires t.Valid() && Undoing(t, s) && s.pc.RecoverGuard? && s.mem.phase.Replacement?
    requires t.before.source[REINVITE_MARKER].Some?
    ensures var r := Next(t, Next(t, Next(t, s, Restart), QUIET), QUIET); r.lost && Undoing(t, r)
  {
    var boot := Next(t, s, Restart);
    StepKeeps(t, s, Restart);
    StepDisplaceable(t, s, Restart);
    StepRestores(t, boot, QUIET);
    var again := Next(t, boot, QUIET);
    RemovesAgain(t, s, again);
    StepRestores(t, again, QUIET);
  }

  lemma RemovesAgain(t: Txn, s: State, again: State)
    requires t.Valid() && Inv(t, s) && s.pc.RecoverGuard? && s.mem.phase.Replacement?
    requires t.before.source[REINVITE_MARKER].Some?
    requires again == Next(t, Next(t, s, Restart), QUIET)
    ensures Next(t, again, QUIET).lost
  {
    assert again.pc.RecoverReinvite? && again.disk == s.disk;
    assert s.disk.archived[REINVITE_MARKER].None?;
  }

  /** The old reinvite marker can be lost for good: a restart before the marker of
      the replacement is removed, another one when the recovery is about to put the
      guard back, and a recovery that meets no failure. */
  lemma ReinviteMarkerLost(t: Txn) returns (events: seq<Event>)
    requires t.Valid() && t.before.source[REINVITE_MARKER].Some?
    ensures forall e :: e in events ==> e == QUIET || e == Restart
    ensures var r := Run(t, Start(t), events);
            && r.pc.Finished? && Restored(t, r) && r.lost
            && r.disk.source[REINVITE_MARKER].None? && r.disk.archived[REINVITE_MARKER].None?
  {
    var before := MarkerAhead(t);
    var s := Run(t, Start(t), before);
    var rest := LosesReinvite(t, s);
    RunAppend(t, Start(t), before, rest);
    events := before + rest;
    AnyRun(t, events);
  }

  lemma LosesReinvite(t: Txn, s: State) returns (events: seq<Event>)
    requires t.Valid() && Removing(t, s) && t.before.source[REINVITE_MARKER].Some?
    ensures forall e :: e in events ==> e == QUIET || e == Restart
    ensures var r := Run(t, s, events); r.pc.Finished? && Restored(t, r) && r.lost
  {
    var boot := Next(t, s, Restart);
    RestartsUndoing(t, s);
    var n := GuardReached(t, boot);
    var rest := RecoversAgain(t, Run(t, boot, Quiet(n)));
    RunAppend(t, boot, Quiet(n), rest);
    MoreEvents(t, s, Restart, Quiet(n) + rest);
    events := [Restart] + (Quiet(n) + rest);
  }

  lemma RestartsUndoing(t: Txn, s: State)
    requires t.Valid() && Removing(t, s)
    ensures var boot := Next(t, s, Restart);
            Undoing(t, boot) && boot.pc.Boot? && boot.disk.marker.Some? && boot.disk.marker.value.phase.Replacement?
  {
    StepKeeps(t, s, Restart);
    StepDisplaceable(t, s, Restart);
  }

  lemma RecoversAgain(t: Txn, s: State) returns (events: seq<Event>)
    requires t.Valid() && Undoing(t, s) && s.pc.RecoverGuard? && s.mem.phase.Replacement?
    requires t.before.source[REINVITE_MARKER].Some?
    ensures forall e :: e in events ==> e == QUIET || e == Restart
    ensures var r := Run(t, s, events); r.pc.Finished? && Restored(t, r) && r.lost
  {
    var first := RemovedAgain(t, s);
    var n: nat := Behind(Boot);
    RunRestores(t, Run(t, s, first), Quiet(n));
    RunAppend(t, s, first, Quiet(n));
    events := first + Quiet(n);
  }

  lemma RemovedAgain(t: Txn, s: State) returns (events: seq<Event>)
    requires t.Valid() && Undoing(t, s) && s.pc.RecoverGuard? && s.mem.phase.Replacement?
    requires t.before.source[REINVITE_MARKER].Some?
    ensures forall e :: e in events ==> e == QUIET || e == Restart
    ensures Undoing(t, Run(t, s, events)) && Run(t, s, events).lost
  {
    SecondRecovery(t, s);
    MoreEvents(t, s, Restart, [QUIET] + [QUIET]);
    MoreEvents(t, Next(t, s, Restart), QUIET, [QUIET]);
    OneEvent(t, Next(t, Next(t, s, Restart), QUIET), QUIET);
    events := [Restart] + ([QUIET] + [QUIET]);
  }
}
