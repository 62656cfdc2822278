/** All-or-nothing for the identity replacement, over every run. */
module IdentitySafety {
  import opened Basics
  import opened IdentityReplacement

  // --- What the transaction promises ----------------------------------------

  /** A file that existed is intact under its archived name or its own. */
  predicate Kept(was: Option<Blob>, archived: Option<Blob>, source: Option<Blob>) {
    was.Some? ==> archived == was || (archived.None? && source == was)
  }

  ghost predicate Restored(t: Txn, s: State) {
    var d := s.disk;
    && d.guard == t.before.guard
    && d.tox.owner == t.before.tox.owner
    && (s.resaved || d.tox == t.before.tox)
    && RecoveryBelongs(d, t.before.tox.owner)
    && PathsBack(t.before.source, d.source, d.archived, s.lost)
  }

  /** Every old path is under its own name again, and under no other. */
  predicate PathsBack(before: Paths, source: Paths, archived: Paths, lost: bool) {
    forall i :: 0 <= i < PATHS && before[i].Some? ==>
      archived[i].None? && ((i == REINVITE_MARKER ==> !lost) ==> source[i] == before[i])
  }

  ghost predicate Replaced(t: Txn, s: State) {
    var d := s.disk;
    && d.guard == t.incoming.owner
    && d.tox.owner == t.incoming.owner
    && RecoveryBelongs(d, t.incoming.owner)
    && AllArchived(t.before.source, d.archived)
  }

  predicate AllArchived(before: Paths, archived: Paths) {
    forall i :: 0 <= i < PATHS ==> archived[i] == before[i]
  }

  ghost predicate AllOrNothing(t: Txn, s: State) {
    Restored(t, s) || Replaced(t, s)
  }

  // --- Runs ------------------------------------------------------------------

  function Run(t: Txn, s: State, events: seq<Event>): State
    decreases |events|
  {
    if events == [] then s else Run(t, Next(t, s, events[0]), events[1..])
  }

  /** The marker's removal reports a failure although it removed the marker, so
      that a rollback begins that no restart would continue. */
  predicate LosesMarker(s: State, e: Event) {
    s.pc.RemoveMarker? && e.Go? && e.fate.FailedAfter?
  }

  /** That never happens. */
  ghost predicate Clean(t: Txn, s: State, events: seq<Event>)
    decreases |events|
  {
    events == [] || (!LosesMarker(s, events[0]) && Clean(t, Next(t, s, events[0]), events[1..]))
  }

  // --- The invariant -----------------------------------------------------------

  /** Nothing that existed before is gone. */
  ghost predicate Base(before: Paths, source: Paths, archived: Paths, lost: bool) {
    && (forall i :: 0 <= i < PATHS && before[i].None? ==> archived[i].None?)
    && (forall i :: 0 <= i < PATHS && i != REINVITE_MARKER ==> Kept(before[i], archived[i], source[i]))
    && (if lost then
          before[REINVITE_MARKER].Some? && archived[REINVITE_MARKER].None? && source[REINVITE_MARKER].None?
        else Kept(before[REINVITE_MARKER], archived[REINVITE_MARKER], source[REINVITE_MARKER]))
  }

  /** A startup recovery can undo everything from here. */
  ghost predicate Guarded(t: Txn, s: State) {
    var d := s.disk;
    && Base(t.before.source, d.source, d.archived, s.lost)
    && d.backup == Some(t.before.tox)
    && (d.marker.Some? ==>
          && d.marker.value.fingerprint == t.before.tox.owner
          && (d.marker.value.phase.Prepared? ==> RecoveryBelongs(d, t.before.tox.owner)))
  }

  predicate Tracks(moved: Flags, archived: Paths) {
    forall i :: 0 <= i < PATHS ==> (moved[i] <==> archived[i].Some?)
  }

  predicate NothingArchived(archived: Paths) {
    forall i :: 0 <= i < PATHS ==> archived[i].None?
  }

  predicate Untouched(t: Txn, d: Disk) {
    && d.tox == t.before.tox && d.guard == t.before.guard
    && d.recovery == t.before.recovery && d.stale == t.before.stale
  }

  predicate Opening(t: Txn, s: State) {
    && s.disk == (if s.pc.Export? then t.before else t.before.(backup := Some(t.before.tox)))
    && s.mem == Blank() && !s.lost && !s.resaved
  }

  /** The paths below `i` have been moved aside, the others not yet looked at. */
  predicate Archiving(before: Paths, source: Paths, archived: Paths, i: nat) {
    forall k :: 0 <= k < PATHS ==>
      if k < i then archived[k] == before[k] else archived[k].None? && source[k] == before[k]
  }

  ghost predicate AtArchive(t: Txn, s: State, i: nat) {
    && i <= PATHS
    && s.disk.marker == Some(Marker(t.before.tox.owner, Prepared))
    && Untouched(t, s.disk) && !s.lost && !s.resaved
    && s.mem.ok && !s.mem.guardSwapped && !s.mem.reinvite && !s.mem.failed && !s.mem.swapped && !s.mem.archived
    && Archiving(t.before.source, s.disk.source, s.disk.archived, i)
  }

  /** How far the forward path is past the archiving. */
  function Progress(pc: Pc): nat {
    if pc.ImportGroups? || pc.ImportBindings? || pc.ImportTox? then 0
    else if pc.SyncImport? || pc.Load? || pc.SetPhase? then 1
    else if pc.PersistReinvite? || pc.SaveUnread? || pc.ReplaceGuard? then 2
    else if pc.EnableStale? then 3
    else if pc.EnableTox? || pc.EnableRecovery? then 4
    else 5
  }

  ghost predicate AtForward(t: Txn, s: State) {
    var d, m, n := s.disk, s.mem, Progress(s.pc);
    && d.marker.Some? && !s.lost && !s.resaved
    && m.ok && !m.failed && m.archived
    && (m.swapped <==> n >= 1) && (m.guardSwapped <==> n >= 3) && (m.reinvite ==> n >= 2)
    && (d.marker.value.phase.Replacement? <==> n >= 2)
    && d.guard == (if n >= 3 then t.incoming.owner else t.before.guard)
    && (if n >= 1 then d.tox.owner == t.incoming.owner else d.tox == t.before.tox)
    && (n < 3 ==> d.recovery == t.before.recovery && d.stale == t.before.stale)
    && (n == 4 ==> d.stale)
    && (n == 5 ==> RecoveryBelongs(d, t.incoming.owner))
    && (s.pc.EnableFresh? ==> d.recovery == Some(d.tox))
    && AllArchived(t.before.source, d.archived)
  }

  /** How much of the rollback is behind. */
  function Stage(pc: Pc): nat {
    if pc.RollbackTox? then 0
    else if pc.RollbackReinvite? || pc.Restore? then 1
    else if pc.RollbackGuard? then 2
    else if pc.RollbackStale? then 3
    else 4
  }

  /** While rolling back, `ok` means that every step so far did its part. */
  ghost predicate AtRollback(t: Txn, s: State) {
    var d, m, n := s.disk, s.mem, Stage(s.pc);
    && (m.guardSwapped ==> m.swapped)
    && (d.marker.Some? && d.marker.value.phase.Prepared? ==> !m.guardSwapped)
    && (m.reinvite && (s.pc.RollbackTox? || s.pc.RollbackReinvite?) ==>
          !s.lost && d.archived[REINVITE_MARKER] == t.before.source[REINVITE_MARKER])
    && (if s.pc.Restore? && s.pc.caller.ArchiveFailure? then !m.reinvite && !m.swapped && m.ok
        else !m.archived ==> NothingArchived(d.archived))
    && (!m.guardSwapped ==> d.guard == t.before.guard)
    && (!m.swapped ==> d.tox == t.before.tox && RecoveryBelongs(d, t.before.tox.owner))
    && (m.ok && n >= 1 ==> d.tox.owner == t.before.tox.owner && (s.resaved || d.tox == t.before.tox))
    && (m.ok && n >= 2 ==> NothingArchived(d.archived))
    && (m.ok && n >= 3 ==> d.guard == t.before.guard)
    && (m.ok && n >= 4 ==> RecoveryBelongs(d, t.before.tox.owner))
  }

  /** The paths from `left` up have been dealt with. */
  predicate Restoring(s: State)
    requires s.pc.Restore?
  {
    && s.pc.left <= PATHS
    && (s.pc.displaced ==>
          && s.pc.left > 0 && s.mem.moved[s.pc.left - 1]
          && s.disk.source[s.pc.left - 1].None? && s.disk.aborted[s.pc.left - 1].Some?)
    && (!s.mem.failed ==> NoneFrom(s.mem.moved, s.pc.left))
  }

  predicate NoneFrom(moved: Flags, left: nat) {
    forall k :: left <= k < PATHS ==> !moved[k]
  }

  ghost predicate AtRecover(t: Txn, s: State) {
    var d, m := s.disk, s.mem;
    && d.marker == Some(Marker(t.before.tox.owner, m.phase))
    && (s.pc.RecoverReinvite? || s.pc.RecoverTox? ==> !m.failed)
    && (s.pc.RecoverReinvite? ==> m.phase.Replacement?)
    && (s.pc.Restore? || s.pc.RecoverGuard? || s.pc.RecoverStale? || s.pc.RecoverMarker? ==> d.tox == t.before.tox)
    && (s.pc.RecoverGuard? || s.pc.RecoverStale? || s.pc.RecoverMarker? ==> NothingArchived(d.archived))
    && (s.pc.RecoverStale? || s.pc.RecoverMarker? ==> d.guard == t.before.guard)
    && (s.pc.RecoverMarker? ==> RecoveryBelongs(d, t.before.tox.owner))
  }

  predicate InRollback(pc: Pc) {
    RollingBack(pc) || (pc.Restore? && !pc.caller.Recovery?)
  }

  predicate AtRest(pc: Pc) {
    pc.Boot? || pc.Halt? || pc.DropBackup? || pc.RecoverBackup? || pc.Finished?
  }

  /** The marker guards a transaction under way. */
  ghost predicate Open(t: Txn, s: State) {
    && Guarded(t, s) && s.disk.marker.Some? && Tracks(s.mem.moved, s.disk.archived)
    && (s.pc.Restore? ==> Restoring(s))
  }

  ghost predicate Aside(t: Txn, s: State) { Open(t, s) && s.pc.Archive? && AtArchive(t, s, s.pc.i) }
  ghost predicate Forward(t: Txn, s: State) { Open(t, s) && AtForward(t, s) }
  ghost predicate Backward(t: Txn, s: State) { Open(t, s) && AtRollback(t, s) }
  ghost predicate Recovers(t: Txn, s: State) { Open(t, s) && AtRecover(t, s) }

  ghost predicate StaysBackward(t: Txn, s: State) { Backward(t, s) && InRollback(s.pc) }

  ghost predicate PuttingBack(t: Txn, s: State) {
    s.pc.Restore? && if s.pc.caller.Recovery? then Recovers(t, s) else Backward(t, s)
  }

  /** No step of a transaction is under way. */
  ghost predicate Resting(t: Txn, s: State) {
    if s.disk.marker.Some? then (s.pc.Boot? || s.pc.Halt?) && Guarded(t, s)
    else Base(t.before.source, s.disk.source, s.disk.archived, s.lost) && AllOrNothing(t, s)
  }

  ghost predicate Inv(t: Txn, s: State) {
    if s.pc.Export? || s.pc.WriteMarker? then Opening(t, s)
    else if AtRest(s.pc) then Resting(t, s)
    else if s.pc.Archive? then Aside(t, s)
    else if InRollback(s.pc) then Backward(t, s)
    else if s.pc.Restore? || Recovering(s.pc) then Recovers(t, s)
    else Forward(t, s)
  }

  // --- What the renames do to the paths ------------------------------------------

  /** A name whose old file is archived may be overwritten. */
  lemma OverwrittenKeeps(before: Paths, source: Paths, archived: Paths, lost: bool, k: nat, b: Option<Blob>)
    requires k < PATHS && Base(before, source, archived, lost) && archived[k].Some?
    ensures Base(before, source[k := b], archived, lost)
  {
  }

  /** Renaming the archived file back is safe. */
  lemma ReturnedKeeps(before: Paths, source: Paths, archived: Paths, moved: Flags, lost: bool, k: nat)
    requires k < PATHS && Base(before, source, archived, lost) && Tracks(moved, archived)
    ensures archived[k].Some? ==> Base(before, source[k := archived[k]], archived[k := None], lost)
    ensures Tracks(moved[k := false], archived[k := None])
  {
  }

  /** Once every old path is aside, any name may be written. */
  lemma AsideKeeps(before: Paths, source: Paths, archived: Paths)
    requires AllArchived(before, archived)
    ensures Base(before, source, archived, false)
  {
  }

  /** One more path is moved aside. */
  lemma MovedKeeps(before: Paths, source: Paths, archived: Paths, moved: Flags, i: nat)
    requires i < PATHS && Archiving(before, source, archived, i) && Tracks(moved, archived)
    requires Base(before, source, archived, false)
    ensures var aside := archived[i := source[i]];
            && Archiving(before, source[i := None], aside, i + 1) && Base(before, source[i := None], aside, false)
            && (source[i].Some? ==> Tracks(moved[i := true], aside))
    ensures source[i].None? ==> Archiving(before, source, archived, i + 1)
  {
  }

  lemma ExportKeeps(t: Txn, s: State, e: Event)
    requires t.Valid() && Opening(t, s) && e.Go? && s.pc.Export?
    ensures Inv(t, OpenStep(t, s, e))
  {
  }

  lemma WriteMarkerKeeps(t: Txn, s: State, e: Event)
    requires t.Valid() && Opening(t, s) && e.Go? && s.pc.WriteMarker?
    ensures Inv(t, OpenStep(t, s, e))
  {
  }

  lemma ArchiveMoveKeeps(t: Txn, s: State, e: Event)
    requires t.Valid() && Aside(t, s) && e.Go? && s.pc.Archive?
    requires e.fate.Done? && s.pc.i < PATHS && s.disk.archived[s.pc.i].None?
    ensures Inv(t, ArchiveStep(t, s, e))
  {
    MovedKeeps(t.before.source, s.disk.source, s.disk.archived, s.mem.moved, s.pc.i);
  }

  lemma ArchiveStopKeeps(t: Txn, s: State, e: Event)
    requires t.Valid() && Aside(t, s) && e.Go? && s.pc.Archive?
    requires !e.fate.Done? || s.pc.i >= PATHS || s.disk.archived[s.pc.i].Some?
    ensures Inv(t, ArchiveStep(t, s, e))
  {
  }

  lemma ImportGroupsKeeps(t: Txn, s: State, e: Event)
    requires t.Valid() && Forward(t, s) && e.Go? && s.pc.ImportGroups?
    ensures Inv(t, ImportStep(t, s, e))
  {
    AsideKeeps(t.before.source, s.disk.source[GROUPS_TSV := Some(t.groups)], s.disk.archived);
  }

  lemma ImportBindingsKeeps(t: Txn, s: State, e: Event)
    requires t.Valid() && Forward(t, s) && e.Go? && s.pc.ImportBindings?
    ensures Inv(t, ImportStep(t, s, e))
  {
    AsideKeeps(t.before.source, s.disk.source[GROUP_FRIENDS_TSV := Some(t.bindings)], s.disk.archived);
  }

  lemma ImportToxFailedKeeps(t: Txn, s: State, e: Event)
    requires t.Valid() && Forward(t, s) && e.Go? && s.pc.ImportTox? && !e.fate.Done?
    ensures Inv(t, ImportStep(t, s, e))
  {
  }

  lemma ImportToxDoneKeeps(t: Txn, s: State, e: Event)
    requires t.Valid() && Forward(t, s) && e.Go? && s.pc.ImportTox? && e.fate.Done?
    ensures Inv(t, ImportStep(t, s, e))
  {
  }

  lemma ImportToxKeeps(t: Txn, s: State, e: Event)
    requires t.Valid() && Forward(t, s) && e.Go? && s.pc.ImportTox?
    ensures Inv(t, ImportStep(t, s, e))
  {
    if e.fate.Done? { ImportToxDoneKeeps(t, s, e); } else { ImportToxFailedKeeps(t, s, e); }
  }

  lemma SyncImportKeeps(t: Txn, s: State, e: Event)
    requires t.Valid() && Forward(t, s) && e.Go? && s.pc.SyncImport?
    ensures Inv(t, ImportStep(t, s, e))
  {
  }

  lemma LoadKeeps(t: Txn, s: State, e: Event)
    requires t.Valid() && Forward(t, s) && e.Go? && s.pc.Load?
    ensures Inv(t, LoadStep(t, s, e))
  {
    AsideKeeps(t.before.source, LoadStep(t, s, e).disk.source, s.disk.archived);
  }

  lemma SetPhaseKeeps(t: Txn, s: State, e: Event)
    requires t.Valid() && Forward(t, s) && e.Go? && s.pc.SetPhase?
    ensures Inv(t, LoadStep(t, s, e))
  {
  }

  lemma PersistReinviteNoneKeeps(t: Txn, s: State, e: Event)
    requires t.Valid() && Forward(t, s) && e.Go? && s.pc.PersistReinvite?
    requires !e.friends
    ensures Inv(t, PersistStep(t, s, e))
  {
  }

  lemma PersistReinviteDoneKeeps(t: Txn, s: State, e: Event)
    requires t.Valid() && Forward(t, s) && e.Go? && s.pc.PersistReinvite?
    requires e.friends && e.fate.Done?
    ensures Inv(t, PersistStep(t, s, e))
  {
  }

  lemma PersistReinviteFailedKeeps(t: Txn, s: State, e: Event)
    requires t.Valid() && Forward(t, s) && e.Go? && s.pc.PersistReinvite?
    requires e.friends && !e.fate.Done?
    ensures Inv(t, PersistStep(t, s, e))
  {
  }

  lemma PersistReinviteKeeps(t: Txn, s: State, e: Event)
    requires t.Valid() && Forward(t, s) && e.Go? && s.pc.PersistReinvite?
    ensures Inv(t, PersistStep(t, s, e))
  {
    if !e.friends {
      PersistReinviteNoneKeeps(t, s, e);
    } else if e.friends && e.fate.Done? {
      PersistReinviteDoneKeeps(t, s, e);
    } else {
      PersistReinviteFailedKeeps(t, s, e);
    }
  }

  lemma SaveUnreadDoneKeeps(t: Txn, s: State, e: Event)
    requires t.Valid() && Forward(t, s) && e.Go? && s.pc.SaveUnread?
    requires e.fate.Done?
    ensures Inv(t, PersistStep(t, s, e))
  {
  }

  lemma SaveUnreadFailedKeeps(t: Txn, s: State, e: Event)
    requires t.Valid() && Forward(t, s) && e.Go? && s.pc.SaveUnread?
    requires !e.fate.Done?
    ensures Inv(t, PersistStep(t, s, e))
  {
  }

  lemma SaveUnreadKeeps(t: Txn, s: State, e: Event)
    requires t.Valid() && Forward(t, s) && e.Go? && s.pc.SaveUnread?
    ensures Inv(t, PersistStep(t, s, e))
  {
    if e.fate.Done? {
      SaveUnreadDoneKeeps(t, s, e);
    } else {
      SaveUnreadFailedKeeps(t, s, e);
    }
  }

  lemma ReplaceGuardDoneKeeps(t: Txn, s: State, e: Event)
    requires t.Valid() && Forward(t, s) && e.Go? && s.pc.ReplaceGuard?
    requires e.fate.Done?
    ensures Inv(t, GuardStep(t, s, e))
  {
  }

  lemma ReplaceGuardFailedKeeps(t: Txn, s: State, e: Event)
    requires t.Valid() && Forward(t, s) && e.Go? && s.pc.ReplaceGuard?
    requires !e.fate.Done?
    ensures Inv(t, GuardStep(t, s, e))
  {
  }

  lemma ReplaceGuardKeeps(t: Txn, s: State, e: Event)
    requires t.Valid() && Forward(t, s) && e.Go? && s.pc.ReplaceGuard?
    ensures Inv(t, GuardStep(t, s, e))
  {
    if e.fate.Done? {
      ReplaceGuardDoneKeeps(t, s, e);
    } else {
      ReplaceGuardFailedKeeps(t, s, e);
    }
  }

  lemma EnableStaleKeeps(t: Txn, s: State, e: Event)
    requires t.Valid() && Forward(t, s) && e.Go? && s.pc.EnableStale?
    ensures Inv(t, GuardStep(t, s, e))
  {
  }

  lemma EnableToxKeeps(t: Txn, s: State, e: Event)
    requires t.Valid() && Forward(t, s) && e.Go? && s.pc.EnableTox?
    ensures Inv(t, EnableStep(t, s, e))
  {
  }

  lemma EnableRecoveryKeeps(t: Txn, s: State, e: Event)
    requires t.Valid() && Forward(t, s) && e.Go? && s.pc.EnableRecovery?
    ensures Inv(t, EnableStep(t, s, e))
  {
  }

  lemma EnableFreshKeeps(t: Txn, s: State, e: Event)
    requires t.Valid() && Forward(t, s) && e.Go? && s.pc.EnableFresh?
    ensures Inv(t, EnableStep(t, s, e))
  {
  }

  lemma RemoveMarkerKeeps(t: Txn, s: State, e: Event)
    requires t.Valid() && Forward(t, s) && e.Go? && s.pc.RemoveMarker? && !LosesMarker(s, e)
    ensures Inv(t, CloseStep(t, s, e))
  {
  }

  lemma DropBackupKeeps(t: Txn, s: State, e: Event)
    requires t.Valid() && Resting(t, s) && e.Go? && s.pc.DropBackup?
    ensures Inv(t, CloseStep(t, s, e))
  {
  }

  lemma RestoreEndKeeps(t: Txn, s: State, e: Event)
    requires t.Valid() && PuttingBack(t, s) && e.Go? && s.pc.left == 0
    requires s.pc.caller.Recovery?
    ensures Inv(t, RestoreStep(s, e))
  {
  }

  lemma RestoreEndArchiveKeeps(t: Txn, s: State, e: Event)
    requires t.Valid() && PuttingBack(t, s) && e.Go? && s.pc.left == 0
    requires s.pc.caller.ArchiveFailure?
    ensures Inv(t, RestoreStep(s, e))
  {
  }

  lemma RestoreEndRollbackKeeps(t: Txn, s: State, e: Event)
    requires t.Valid() && PuttingBack(t, s) && e.Go? && s.pc.left == 0
    requires s.pc.caller.Rollback?
    ensures Inv(t, RestoreStep(s, e))
  {
  }

  lemma ReturnRollbackKeeps(t: Txn, s: State)
    requires t.Valid() && Backward(t, s) && s.pc.Restore? && !s.pc.caller.Recovery?
    requires s.pc.left > 0 && s.mem.moved[s.pc.left - 1]
    ensures PuttingBack(t, Return(s, s.pc.left - 1))
  {
    ReturnedKeeps(t.before.source, s.disk.source, s.disk.archived, s.mem.moved, s.lost, s.pc.left - 1);
  }

  lemma ReturnRecoveryKeeps(t: Txn, s: State)
    requires t.Valid() && Recovers(t, s) && s.pc.Restore? && s.pc.caller.Recovery?
    requires s.pc.left > 0 && s.mem.moved[s.pc.left - 1]
    ensures PuttingBack(t, Return(s, s.pc.left - 1))
  {
    ReturnedKeeps(t.before.source, s.disk.source, s.disk.archived, s.mem.moved, s.lost, s.pc.left - 1);
  }

  lemma ReturnKeeps(t: Txn, s: State)
    requires t.Valid() && PuttingBack(t, s) && s.pc.left > 0 && s.mem.moved[s.pc.left - 1]
    ensures PuttingBack(t, Return(s, s.pc.left - 1))
  {
    if s.pc.caller.Recovery? { ReturnRecoveryKeeps(t, s); } else { ReturnRollbackKeeps(t, s); }
  }

  lemma SkipKeeps(t: Txn, s: State)
    requires t.Valid() && PuttingBack(t, s) && s.pc.left > 0 && s.mem.moved[s.pc.left - 1]
    ensures PuttingBack(t, Skip(s, s.pc.left - 1))
  {
  }

  lemma UndisplaceKeeps(t: Txn, s: State)
    requires t.Valid() && PuttingBack(t, s) && s.pc.left > 0 && s.mem.moved[s.pc.left - 1]
    ensures PuttingBack(t, Undisplace(s, s.pc.left - 1).(pc := s.pc.(displaced := false)))
  {
    var k := s.pc.left - 1;
    OverwrittenKeeps(t.before.source, s.disk.source, s.disk.archived, s.lost, k, s.disk.aborted[k]);
  }

  lemma DisplaceKeeps(t: Txn, s: State)
    requires t.Valid() && PuttingBack(t, s) && s.pc.left > 0 && s.mem.moved[s.pc.left - 1]
    requires s.disk.source[s.pc.left - 1].Some?
    ensures PuttingBack(t, Displace(s, s.pc.left - 1))
  {
    var k := s.pc.left - 1;
    OverwrittenKeeps(t.before.source, s.disk.source, s.disk.archived, s.lost, k, None);
  }

  lemma UndisplaceSkipKeeps(t: Txn, s: State)
    requires t.Valid() && PuttingBack(t, s) && s.pc.left > 0 && s.mem.moved[s.pc.left - 1]
    ensures PuttingBack(t, Skip(Undisplace(s, s.pc.left - 1), s.pc.left - 1))
  {
    var back := Undisplace(s, s.pc.left - 1).(pc := s.pc.(displaced := false));
    UndisplaceKeeps(t, s);
    SkipKeeps(t, back);
    assert Skip(back, s.pc.left - 1) == Skip(Undisplace(s, s.pc.left - 1), s.pc.left - 1);
  }

  lemma RestoreReturnKeeps(t: Txn, s: State, e: Event)
    requires t.Valid() && PuttingBack(t, s) && e.Go? && s.pc.left > 0 && s.mem.moved[s.pc.left - 1]
    requires e.fate.Done? && (s.pc.displaced || s.disk.source[s.pc.left - 1].None?)
    ensures PuttingBack(t, RestoreStep(s, e))
  {
    ReturnKeeps(t, s);
    assert RestoreStep(s, e) == Return(s, s.pc.left - 1);
  }

  lemma RestoreDisplaceKeeps(t: Txn, s: State, e: Event)
    requires t.Valid() && PuttingBack(t, s) && e.Go? && s.pc.left > 0 && s.mem.moved[s.pc.left - 1]
    requires e.fate.Done? && !s.pc.displaced && s.disk.source[s.pc.left - 1].Some?
    ensures PuttingBack(t, RestoreStep(s, e))
  {
    if s.disk.aborted[s.pc.left - 1].Some? {
      SkipKeeps(t, s);
    } else {
      DisplaceKeeps(t, s);
    }
  }

  lemma RestoreFailedKeeps(t: Txn, s: State, e: Event)
    requires t.Valid() && PuttingBack(t, s) && e.Go? && s.pc.left > 0 && s.mem.moved[s.pc.left - 1]
    requires !e.fate.Done?
    ensures PuttingBack(t, RestoreStep(s, e))
  {
    if s.pc.displaced && e.fate.FailedBefore? {
      UndisplaceSkipKeeps(t, s);
    } else {
      SkipKeeps(t, s);
    }
  }

  lemma RestoreKeeps(t: Txn, s: State, e: Event)
    requires t.Valid() && PuttingBack(t, s) && e.Go? && s.pc.left > 0
    ensures PuttingBack(t, RestoreStep(s, e))
  {
    var k := s.pc.left - 1;
    if s.mem.moved[k] {
      if !e.fate.Done? {
        RestoreFailedKeeps(t, s, e);
      } else if s.pc.displaced || s.disk.source[k].None? {
        RestoreReturnKeeps(t, s, e);
      } else {
        RestoreDisplaceKeeps(t, s, e);
      }
    }
  }

  lemma RollbackToxSkipKeeps(t: Txn, s: State, e: Event)
    requires t.Valid() && Backward(t, s) && e.Go? && s.pc.RollbackTox?
    requires !s.mem.swapped
    ensures StaysBackward(t, UndoImport(t, s, e))
  {
  }

  lemma RollbackToxFailedKeeps(t: Txn, s: State, e: Event)
    requires t.Valid() && Backward(t, s) && e.Go? && s.pc.RollbackTox?
    requires s.mem.swapped && !e.fate.Done?
    ensures StaysBackward(t, UndoImport(t, s, e))
  {
  }

  lemma RollbackToxDoneKeeps(t: Txn, s: State, e: Event)
    requires t.Valid() && Backward(t, s) && e.Go? && s.pc.RollbackTox?
    requires s.mem.swapped && e.fate.Done?
    ensures StaysBackward(t, UndoImport(t, s, e))
  {
  }

  lemma RollbackToxKeeps(t: Txn, s: State, e: Event)
    requires t.Valid() && Backward(t, s) && e.Go? && s.pc.RollbackTox?
    requires s.mem.swapped
    ensures StaysBackward(t, UndoImport(t, s, e))
  {
    if e.fate.Done? {
      RollbackToxDoneKeeps(t, s, e);
    } else {
      RollbackToxFailedKeeps(t, s, e);
    }
  }

  lemma RollbackReinviteSkipKeeps(t: Txn, s: State, e: Event)
    requires t.Valid() && Backward(t, s) && e.Go? && s.pc.RollbackReinvite?
    requires !s.mem.reinvite
    ensures StaysBackward(t, UndoImport(t, s, e))
  {
  }

  lemma RollbackReinviteDoneKeeps(t: Txn, s: State, e: Event)
    requires t.Valid() && Backward(t, s) && e.Go? && s.pc.RollbackReinvite? && s.mem.reinvite
    requires e.fate.Done?
    ensures StaysBackward(t, UndoImport(t, s, e))
  {
  }

  lemma RollbackReinviteUnmovedKeeps(t: Txn, s: State, e: Event)
    requires t.Valid() && Backward(t, s) && e.Go? && s.pc.RollbackReinvite? && s.mem.reinvite
    requires !e.fate.Done? && !s.mem.archived
    ensures StaysBackward(t, UndoImport(t, s, e))
  {
  }

  lemma RollbackReinviteMovedKeeps(t: Txn, s: State, e: Event)
    requires t.Valid() && Backward(t, s) && e.Go? && s.pc.RollbackReinvite? && s.mem.reinvite
    requires !e.fate.Done? && s.mem.archived
    ensures StaysBackward(t, UndoImport(t, s, e))
  {
  }

  lemma RollbackReinviteFailedKeeps(t: Txn, s: State, e: Event)
    requires t.Valid() && Backward(t, s) && e.Go? && s.pc.RollbackReinvite? && s.mem.reinvite
    requires !e.fate.Done?
    ensures StaysBackward(t, UndoImport(t, s, e))
  {
    if s.mem.archived {
      RollbackReinviteMovedKeeps(t, s, e);
    } else {
      RollbackReinviteUnmovedKeeps(t, s, e);
    }
  }

  lemma RollbackReinviteKeeps(t: Txn, s: State, e: Event)
    requires t.Valid() && Backward(t, s) && e.Go? && s.pc.RollbackReinvite? && s.mem.reinvite
    ensures StaysBackward(t, UndoImport(t, s, e))
  {
    if e.fate.Done? {
      RollbackReinviteDoneKeeps(t, s, e);
    } else {
      RollbackReinviteFailedKeeps(t, s, e);
    }
  }

  lemma RollbackGuardSkipKeeps(t: Txn, s: State, e: Event)
    requires t.Valid() && Backward(t, s) && e.Go? && s.pc.RollbackGuard?
    requires !s.mem.guardSwapped
    ensures StaysBackward(t, UndoGuard(t, s, e))
  {
  }

  lemma RollbackGuardKeeps(t: Txn, s: State, e: Event)
    requires t.Valid() && Backward(t, s) && e.Go? && s.pc.RollbackGuard?
    requires s.mem.guardSwapped
    ensures StaysBackward(t, UndoGuard(t, s, e))
  {
  }

  lemma RollbackStaleSkipKeeps(t: Txn, s: State, e: Event)
    requires t.Valid() && Backward(t, s) && e.Go? && s.pc.RollbackStale?
    requires !s.mem.swapped
    ensures StaysBackward(t, UndoGuard(t, s, e))
  {
  }

  lemma RollbackStaleDoneKeeps(t: Txn, s: State, e: Event)
    requires t.Valid() && Backward(t, s) && e.Go? && s.pc.RollbackStale?
    requires s.mem.swapped && e.fate.Done?
    ensures StaysBackward(t, UndoGuard(t, s, e))
  {
  }

  lemma RollbackStaleFailedKeeps(t: Txn, s: State, e: Event)
    requires t.Valid() && Backward(t, s) && e.Go? && s.pc.RollbackStale?
    requires s.mem.swapped && !e.fate.Done?
    ensures StaysBackward(t, UndoGuard(t, s, e))
  {
  }

  lemma RollbackStaleKeeps(t: Txn, s: State, e: Event)
    requires t.Valid() && Backward(t, s) && e.Go? && s.pc.RollbackStale?
    ensures StaysBackward(t, UndoGuard(t, s, e))
  {
    if !s.mem.swapped {
      RollbackStaleSkipKeeps(t, s, e);
    } else if s.mem.swapped && e.fate.Done? {
      RollbackStaleDoneKeeps(t, s, e);
    } else {
      RollbackStaleFailedKeeps(t, s, e);
    }
  }

  lemma RollbackLoadAgainKeeps(t: Txn, s: State, e: Event)
    requires t.Valid() && Backward(t, s) && e.Go? && s.pc.RollbackLoad?
    requires e.more && !e.locked && s.mem.swapped && s.disk.tox.owner == s.disk.guard && !e.fate.FailedBefore?
    ensures StaysBackward(t, UndoLoad(t, s, e))
  {
  }

  lemma RollbackReloadKeeps(t: Txn, s: State, e: Event)
    requires t.Valid() && Backward(t, s) && e.Go? && s.pc.RollbackReload?
    ensures StaysBackward(t, UndoLoad(t, s, e))
  {
  }

  lemma RollbackRatchetKeeps(t: Txn, s: State, e: Event)
    requires t.Valid() && Backward(t, s) && e.Go? && s.pc.RollbackRatchet?
    ensures StaysBackward(t, UndoLoad(t, s, e))
  {
  }

  lemma RollbackLoadFailKeeps(t: Txn, s: State, e: Event)
    requires t.Valid() && Backward(t, s) && e.Go? && s.pc.RollbackLoad?
    requires !s.mem.swapped || e.locked || s.disk.tox.owner != s.disk.guard || e.fate.FailedBefore?
    ensures StaysBackward(t, UndoLoad(t, s, e))
  {
  }

  lemma RollbackLoadDoneKeeps(t: Txn, s: State, e: Event)
    requires t.Valid() && Backward(t, s) && e.Go? && s.pc.RollbackLoad? && !e.more && !e.locked && e.fate.Done?
    requires s.mem.swapped && s.disk.tox.owner == s.disk.guard
    ensures StaysBackward(t, UndoLoad(t, s, e))
  {
  }

  /** A step that did not do its part promises less. */
  lemma FailedStaysBackward(t: Txn, s: State)
    requires StaysBackward(t, s) && !s.pc.Restore?
    ensures StaysBackward(t, s.(mem := s.mem.(ok := false)))
  {
  }

  lemma RollbackLoadLateKeeps(t: Txn, s: State, e: Event)
    requires t.Valid() && Backward(t, s) && e.Go? && s.pc.RollbackLoad? && !e.more && !e.locked && e.fate.FailedAfter?
    requires s.mem.swapped && s.disk.tox.owner == s.disk.guard
    ensures StaysBackward(t, UndoLoad(t, s, e))
  {
    var done := UndoLoad(t, s, e.(fate := Done));
    RollbackLoadDoneKeeps(t, s, e.(fate := Done));
    FailedStaysBackward(t, done);
    assert UndoLoad(t, s, e) == done.(mem := done.mem.(ok := false));
  }

  lemma RollbackMarkerDoneKeeps(t: Txn, s: State, e: Event)
    requires t.Valid() && Backward(t, s) && e.Go? && s.pc.RollbackMarker? && s.mem.ok && e.fate.Effective()
    ensures Inv(t, UndoLoad(t, s, e))
  {
  }

  lemma RollbackMarkerLeftKeeps(t: Txn, s: State, e: Event)
    requires t.Valid() && Backward(t, s) && e.Go? && s.pc.RollbackMarker? && (!s.mem.ok || !e.fate.Effective())
    ensures Inv(t, UndoLoad(t, s, e))
  {
  }

  lemma RollbackMarkerKeeps(t: Txn, s: State, e: Event)
    requires t.Valid() && Backward(t, s) && e.Go? && s.pc.RollbackMarker?
    ensures Inv(t, UndoLoad(t, s, e))
  {
    if s.mem.ok && e.fate.Effective() {
      RollbackMarkerDoneKeeps(t, s, e);
    } else {
      RollbackMarkerLeftKeeps(t, s, e);
    }
  }

  lemma BootBeginsKeeps(t: Txn, s: State, e: Event)
    requires t.Valid() && Resting(t, s) && e.Go? && s.pc.Boot? && s.disk.marker.Some? && e.fate.Done?
    ensures Inv(t, BootStep(t, s, e))
  {
  }

  lemma BootKeeps(t: Txn, s: State, e: Event)
    requires t.Valid() && Resting(t, s) && e.Go? && s.pc.Boot?
    ensures Inv(t, BootStep(t, s, e))
  {
    if s.disk.marker.Some? && e.fate.Done? {
      BootBeginsKeeps(t, s, e);
    }
  }

  lemma RecoverReinviteDoneKeeps(t: Txn, s: State, e: Event)
    requires t.Valid() && Recovers(t, s) && e.Go? && s.pc.RecoverReinvite? && e.fate.Done?
    ensures Inv(t, RecoverFiles(t, s, e))
  {
  }

  lemma RecoverReinviteFailedKeeps(t: Txn, s: State, e: Event)
    requires t.Valid() && Recovers(t, s) && e.Go? && s.pc.RecoverReinvite? && !e.fate.Done?
    ensures Inv(t, RecoverFiles(t, s, e))
  {
  }

  lemma RecoverReinviteKeeps(t: Txn, s: State, e: Event)
    requires t.Valid() && Recovers(t, s) && e.Go? && s.pc.RecoverReinvite?
    ensures Inv(t, RecoverFiles(t, s, e))
  {
    if e.fate.Done? { RecoverReinviteDoneKeeps(t, s, e); } else { RecoverReinviteFailedKeeps(t, s, e); }
  }

  lemma RecoverToxKeeps(t: Txn, s: State, e: Event)
    requires t.Valid() && Recovers(t, s) && e.Go? && s.pc.RecoverTox?
    ensures Inv(t, RecoverFiles(t, s, e))
  {
  }

  lemma RecoverGuardDoneKeeps(t: Txn, s: State, e: Event)
    requires t.Valid() && Recovers(t, s) && e.Go? && s.pc.RecoverGuard? && e.fate.Done?
    ensures var r := RecoverFlags(t, s, e); Recovers(t, r) && (r.pc.RecoverStale? || r.pc.RecoverMarker?)
  {
  }

  lemma RecoverGuardFailedKeeps(t: Txn, s: State, e: Event)
    requires t.Valid() && Recovers(t, s) && e.Go? && s.pc.RecoverGuard?
    requires !e.fate.Done?
    ensures Inv(t, RecoverFlags(t, s, e))
  {
  }

  lemma RecoverGuardKeeps(t: Txn, s: State, e: Event)
    requires t.Valid() && Recovers(t, s) && e.Go? && s.pc.RecoverGuard?
    ensures Inv(t, RecoverFlags(t, s, e))
  {
    if !e.fate.Done? {
      RecoverGuardFailedKeeps(t, s, e);
    } else {
      RecoverGuardDoneKeeps(t, s, e);
    }
  }

  lemma RecoverStaleDoneKeeps(t: Txn, s: State, e: Event)
    requires t.Valid() && Recovers(t, s) && e.Go? && s.pc.RecoverStale? && e.fate.Done?
    ensures Inv(t, RecoverFlags(t, s, e))
  {
  }

  lemma RecoverStaleFailedKeeps(t: Txn, s: State, e: Event)
    requires t.Valid() && Recovers(t, s) && e.Go? && s.pc.RecoverStale? && !e.fate.Done?
    ensures Inv(t, RecoverFlags(t, s, e))
  {
  }

  lemma RecoverStaleKeeps(t: Txn, s: State, e: Event)
    requires t.Valid() && Recovers(t, s) && e.Go? && s.pc.RecoverStale?
    ensures Inv(t, RecoverFlags(t, s, e))
  {
    if e.fate.Done? { RecoverStaleDoneKeeps(t, s, e); } else { RecoverStaleFailedKeeps(t, s, e); }
  }

  lemma RecoverMarkerKeeps(t: Txn, s: State, e: Event)
    requires t.Valid() && Recovers(t, s) && e.Go? && s.pc.RecoverMarker?
    ensures Inv(t, RecoverClose(t, s, e))
  {
  }

  lemma RecoverBackupKeeps(t: Txn, s: State, e: Event)
    requires t.Valid() && Resting(t, s) && e.Go? && s.pc.RecoverBackup?
    ensures Inv(t, RecoverClose(t, s, e))
  {
  }

  lemma RestartKeeps(t: Txn, s: State)
    requires t.Valid() && Inv(t, s) && !s.pc.Finished?
    ensures Inv(t, Next(t, s, Restart))
  {
  }

  lemma StepKeeps(t: Txn, s: State, e: Event)
    requires t.Valid() && Inv(t, s)
    requires !LosesMarker(s, e)
    ensures Inv(t, Next(t, s, e))
  {
    if s.pc.Finished? {
    } else if e.Restart? {
      RestartKeeps(t, s);
    } else if RollingBack(s.pc) {
      RollbackStepKeeps(t, s, e);
    } else if Recovering(s.pc) {
      RecoveryStepKeeps(t, s, e);
    } else if s.pc.Restore? {
      PutBackKeeps(t, s, e);
    } else {
      HeadKeeps(t, s, e);
    }
  }

  lemma PutBackKeeps(t: Txn, s: State, e: Event)
    requires t.Valid() && PuttingBack(t, s) && e.Go?
    ensures Inv(t, RestoreStep(s, e))
  {
    if s.pc.left > 0 {
      RestoreKeeps(t, s, e);
    } else if s.pc.caller.Recovery? {
      RestoreEndKeeps(t, s, e);
    } else if s.pc.caller.Rollback? {
      RestoreEndRollbackKeeps(t, s, e);
    } else {
      RestoreEndArchiveKeeps(t, s, e);
    }
  }

  lemma HeadKeeps(t: Txn, s: State, e: Event)
    requires t.Valid() && Inv(t, s) && e.Go? && !LosesMarker(s, e)
    requires !s.pc.Finished? && !s.pc.Restore? && !RollingBack(s.pc) && !Recovering(s.pc)
    ensures Inv(t, ForwardStep(t, s, e))
  {
    if s.pc.Export? || s.pc.WriteMarker? {
      BeginKeeps(t, s, e);
    } else if s.pc.Archive? {
      ArchiveKeeps(t, s, e);
    } else if s.pc.DropBackup? {
      DropBackupKeeps(t, s, e);
    } else if !s.pc.Halt? {
      ForwardKeeps(t, s, e);
    }
  }

  lemma BeginKeeps(t: Txn, s: State, e: Event)
    requires t.Valid() && Opening(t, s) && e.Go? && (s.pc.Export? || s.pc.WriteMarker?)
    ensures Inv(t, OpenStep(t, s, e))
  {
    if s.pc.Export? { ExportKeeps(t, s, e); } else { WriteMarkerKeeps(t, s, e); }
  }

  lemma ForwardKeeps(t: Txn, s: State, e: Event)
    requires t.Valid() && Forward(t, s) && e.Go? && !LosesMarker(s, e)
    requires !AtRest(s.pc) && !s.pc.Export? && !s.pc.WriteMarker? && !s.pc.Archive?
    requires !s.pc.Restore? && !RollingBack(s.pc) && !Recovering(s.pc)
    ensures Inv(t, ForwardStep(t, s, e))
  {
    if Progress(s.pc) < 2 {
      OpeningKeeps(t, s, e);
    } else {
      CommitKeeps(t, s, e);
    }
  }

  lemma ArchiveKeeps(t: Txn, s: State, e: Event)
    requires t.Valid() && Aside(t, s) && e.Go?
    ensures Inv(t, ArchiveStep(t, s, e))
  {
    if e.fate.Done? && s.pc.i < PATHS && s.disk.archived[s.pc.i].None? {
      ArchiveMoveKeeps(t, s, e);
    } else {
      ArchiveStopKeeps(t, s, e);
    }
  }

  lemma OpeningKeeps(t: Txn, s: State, e: Event)
    requires t.Valid() && Forward(t, s) && e.Go? && Progress(s.pc) < 2
    ensures Inv(t, ForwardStep(t, s, e))
  {
    match s.pc
    case ImportGroups => ImportGroupsKeeps(t, s, e);
    case ImportBindings => ImportBindingsKeeps(t, s, e);
    case ImportTox => ImportToxKeeps(t, s, e);
    case SyncImport => SyncImportKeeps(t, s, e);
    case Load => LoadKeeps(t, s, e);
    case SetPhase => SetPhaseKeeps(t, s, e);
  }

  lemma CommitKeeps(t: Txn, s: State, e: Event)
    requires t.Valid() && Forward(t, s) && e.Go? && !LosesMarker(s, e)
    requires s.pc.PersistReinvite? || s.pc.SaveUnread? || s.pc.ReplaceGuard? || s.pc.EnableStale? || s.pc.EnableTox?
          || s.pc.EnableRecovery? || s.pc.EnableFresh? || s.pc.RemoveMarker?
    ensures Inv(t, ForwardStep(t, s, e))
  {
    match s.pc
    case PersistReinvite => PersistReinviteKeeps(t, s, e);
    case SaveUnread => SaveUnreadKeeps(t, s, e);
    case ReplaceGuard => ReplaceGuardKeeps(t, s, e);
    case EnableStale => EnableStaleKeeps(t, s, e);
    case EnableTox => EnableToxKeeps(t, s, e);
    case EnableRecovery => EnableRecoveryKeeps(t, s, e);
    case EnableFresh => EnableFreshKeeps(t, s, e);
    case RemoveMarker => RemoveMarkerKeeps(t, s, e);
  }

  lemma RollbackStepKeeps(t: Txn, s: State, e: Event)
    requires t.Valid() && Backward(t, s) && e.Go? && RollingBack(s.pc)
    ensures Inv(t, RollbackStep(t, s, e))
  {
    if s.pc.RollbackMarker? {
      RollbackMarkerKeeps(t, s, e);
    } else {
      BackwardKeeps(t, s, e);
      BackwardInv(t, RollbackStep(t, s, e));
    }
  }

  lemma BackwardInv(t: Txn, s: State)
    requires StaysBackward(t, s)
    ensures Inv(t, s)
  {
  }

  lemma BackwardKeeps(t: Txn, s: State, e: Event)
    requires t.Valid() && Backward(t, s) && e.Go? && RollingBack(s.pc) && !s.pc.RollbackMarker?
    ensures StaysBackward(t, RollbackStep(t, s, e))
  {
    match s.pc
    case RollbackTox =>
      if s.mem.swapped { RollbackToxKeeps(t, s, e); } else { RollbackToxSkipKeeps(t, s, e); }
    case RollbackReinvite =>
      if s.mem.reinvite { RollbackReinviteKeeps(t, s, e); } else { RollbackReinviteSkipKeeps(t, s, e); }
    case RollbackGuard =>
      if s.mem.guardSwapped { RollbackGuardKeeps(t, s, e); } else { RollbackGuardSkipKeeps(t, s, e); }
    case RollbackStale => RollbackStaleKeeps(t, s, e);
    case RollbackReload => RollbackReloadKeeps(t, s, e);
    case RollbackLoad => RollbackLoadStepKeeps(t, s, e);
    case RollbackRatchet => RollbackRatchetKeeps(t, s, e);
  }

  lemma RollbackLoadStepKeeps(t: Txn, s: State, e: Event)
    requires t.Valid() && Backward(t, s) && e.Go? && s.pc.RollbackLoad?
    ensures StaysBackward(t, UndoLoad(t, s, e))
  {
    if !s.mem.swapped || e.locked || s.disk.tox.owner != s.disk.guard || e.fate.FailedBefore? {
      RollbackLoadFailKeeps(t, s, e);
    } else if e.more {
      RollbackLoadAgainKeeps(t, s, e);
    } else {
      if e.fate.Done? { RollbackLoadDoneKeeps(t, s, e); } else { RollbackLoadLateKeeps(t, s, e); }
    }
  }

  lemma RecoveryStepKeeps(t: Txn, s: State, e: Event)
    requires t.Valid() && Inv(t, s) && e.Go? && Recovering(s.pc)
    ensures Inv(t, RecoveryStep(t, s, e))
  {
    if s.pc.Boot? {
      BootKeeps(t, s, e);
    } else if s.pc.RecoverReinvite? || s.pc.RecoverTox? {
      RecoverFilesKeeps(t, s, e);
    } else if s.pc.RecoverGuard? || s.pc.RecoverStale? {
      RecoverFlagsKeeps(t, s, e);
    } else {
      RecoverCloseKeeps(t, s, e);
    }
  }

  lemma RecoverFilesKeeps(t: Txn, s: State, e: Event)
    requires t.Valid() && Recovers(t, s) && e.Go? && (s.pc.RecoverReinvite? || s.pc.RecoverTox?)
    ensures Inv(t, RecoverFiles(t, s, e))
  {
    if s.pc.RecoverReinvite? { RecoverReinviteKeeps(t, s, e); } else { RecoverToxKeeps(t, s, e); }
  }

  lemma RecoverFlagsKeeps(t: Txn, s: State, e: Event)
    requires t.Valid() && Recovers(t, s) && e.Go? && (s.pc.RecoverGuard? || s.pc.RecoverStale?)
    ensures Inv(t, RecoverFlags(t, s, e))
  {
    if s.pc.RecoverGuard? { RecoverGuardKeeps(t, s, e); } else { RecoverStaleKeeps(t, s, e); }
  }

  lemma RecoverCloseKeeps(t: Txn, s: State, e: Event)
    requires t.Valid() && Inv(t, s) && e.Go? && (s.pc.RecoverMarker? || s.pc.RecoverBackup?)
    ensures Inv(t, RecoverClose(t, s, e))
  {
    if s.pc.RecoverMarker? { RecoverMarkerKeeps(t, s, e); } else { RecoverBackupKeeps(t, s, e); }
  }

  // --- The main results -----------------------------------------------------------

  lemma {:induction false} RunKeeps(t: Txn, s: State, events: seq<Event>)
    requires t.Valid() && Inv(t, s) && Clean(t, s, events)
    ensures Inv(t, Run(t, s, events))
    decreases |events|
  {
    if events != [] {
      StepKeeps(t, s, events[0]);
      RunKeeps(t, Next(t, s, events[0]), events[1..]);
    }
  }

  /** With a restart between any two steps, any number of restarts inside the
      recovery and any file operation failing, a disk without the marker is
      either the old identity's or the new one's. */
  lemma ReplacementIsAllOrNothing(t: Txn, events: seq<Event>)
    requires t.Valid() && Clean(t, Start(t), events)
    ensures var s := Run(t, Start(t), events);
            && (s.disk.marker.None? ==> AllOrNothing(t, s))
            && (s.pc.Finished? ==> s.disk.marker.None?)
  {
    RunKeeps(t, Start(t), events);
  }
}
