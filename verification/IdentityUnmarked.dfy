/** The runs of the identity replacement in which the marker's removal reports a
    failure although it removed the marker: a rollback begins that no restart
    would continue.  Such a run is all-or-nothing exactly when the rollback undid
    nothing, or everything. */
module IdentityUnmarked {
  import opened Basics
  import opened IdentityReplacement
  import opened IdentitySafety

  /** What a rollback has undone.  `save`: the save is the old one, or what the old
      identity made of it.  `paths`: those put back.  `guard`: the guard is back.
      `flagged`: the recovery copy is absent, stale or the old one's. */
  datatype Undo = Undo(save: bool, paths: set<nat>, guard: bool, flagged: bool) {
    predicate Nothing() { !save && paths == {} && !guard }

    ghost predicate PathsAreBack(before: Paths) { forall i :: 0 <= i < PATHS && before[i].Some? ==> i in paths }

    ghost predicate Everything(before: Paths) { save && guard && flagged && PathsAreBack(before) }
  }

  /** The rolled-back save is loaded and writes itself again. */
  predicate Loads(s: State, e: Event) {
    e.Go? && s.disk.tox.owner == s.disk.guard && !e.locked && e.fate.Effective()
  }

  /** Read off the operation at hand and its fate. */
  function UndoStep(t: Txn, s: State, e: Event, u: Undo): Undo {
    if e.Restart? then u
    else
      match s.pc
      case RollbackTox => if e.fate.Done? then u.(save := true) else u
      case Restore(left, displaced, _) =>
        if 0 < left <= PATHS && s.mem.moved[left - 1] && e.fate.Done? && (displaced || s.disk.source[left - 1].None?)
        then u.(paths := u.paths + {left - 1}) else u
      case RollbackGuard => if e.fate.Effective() then u.(guard := true) else u
      case RollbackStale => if e.fate.Effective() then u.(flagged := true) else u
      case RollbackLoad =>
        if !Loads(s, e) then u
        else u.(save := u.save || Save(s.disk.tox.owner, e.body) == t.before.tox,
                flagged := u.flagged || (u.save && u.guard))
      case _ => u
  }

  function Undone(t: Txn, s: State, events: seq<Event>, u: Undo): Undo
    decreases |events|
  {
    if events == [] then u else Undone(t, Next(t, s, events[0]), events[1..], UndoStep(t, s, events[0], u))
  }

  /** Nothing is undone yet when the marker is lost. */
  function NothingYet(t: Txn, s: State): Undo {
    Undo(s.disk.tox == t.before.tox, {}, false, s.disk.stale || s.disk.recovery.None?)
  }

  /** The bundle holds another identity than the running one. */
  predicate Different(t: Txn) { t.incoming.owner != t.before.tox.owner }

  // --- The invariant --------------------------------------------------------------------

  ghost predicate Files(t: Txn, s: State, u: Undo) {
    && Base(t.before.source, s.disk.source, s.disk.archived, false)
    && (forall i :: 0 <= i < PATHS ==> s.disk.archived[i] == if i in u.paths then None else t.before.source[i])
    && (forall i :: i in u.paths ==> i < PATHS && t.before.source[i].Some?)
  }

  ghost predicate Owners(t: Txn, s: State, u: Undo) {
    && (u.save <==> s.resaved || s.disk.tox == t.before.tox)
    && s.disk.tox.owner == (if u.save then t.before.tox.owner else t.incoming.owner)
    && s.disk.guard == (if u.guard then t.before.guard else t.incoming.owner)
  }

  /** The rolled-back identity has not been loaded yet. */
  predicate BeforeLoad(pc: Pc) {
    InRollback(pc) && !pc.RollbackLoad? && !pc.RollbackRatchet? && !pc.RollbackMarker?
  }

  ghost predicate Copy(t: Txn, s: State, u: Undo) {
    var d := s.disk;
    if BeforeLoad(s.pc) then
      && (u.flagged <==> d.stale || d.recovery.None?)
      && (d.recovery.Some? && !d.stale ==> d.recovery.value.owner == t.incoming.owner)
    else
      && (u.save && u.guard ==> (u.flagged <==> RecoveryBelongs(d, t.before.tox.owner)))
      && (!u.save && !u.guard ==> RecoveryBelongs(d, t.incoming.owner))
  }

  ghost predicate Working(t: Txn, s: State, u: Undo) {
    && s.mem.swapped && s.mem.guardSwapped && s.mem.archived && s.disk.backup == Some(t.before.tox)
    && Tracks(s.mem.moved, s.disk.archived)
    && (s.pc.Restore? ==> s.pc.caller.Rollback? && s.pc.left <= PATHS && Restoring(s))
    && (s.pc.RollbackTox? || s.pc.RollbackReinvite? ==> u.paths == {})
  }

  ghost predicate Unmarked(t: Txn, s: State, u: Undo) {
    && s.disk.marker.None? && !s.lost && (InRollback(s.pc) || AtRest(s.pc))
    && Files(t, s, u) && Owners(t, s, u) && (if Different(t) then Copy(t, s, u) else RecoveryBelongs(s.disk, t.before.tox.owner))
    && (InRollback(s.pc) ==> Working(t, s, u))
  }

  lemma LosingBegins(t: Txn, s: State, e: Event)
    requires t.Valid() && Inv(t, s) && LosesMarker(s, e)
    ensures Unmarked(t, Next(t, s, e), NothingYet(t, s))
  {
  }

  lemma SaveUndone(t: Txn, s: State, e: Event, u: Undo)
    requires t.Valid() && Unmarked(t, s, u) && e.Go? && s.pc.RollbackTox?
    ensures Unmarked(t, UndoImport(t, s, e), UndoStep(t, s, e, u))
  {
  }

  lemma ReinviteUndone(t: Txn, s: State, e: Event, u: Undo)
    requires t.Valid() && Unmarked(t, s, u) && e.Go? && s.pc.RollbackReinvite?
    ensures Unmarked(t, UndoImport(t, s, e), UndoStep(t, s, e, u))
  {
  }

  lemma GuardUndone(t: Txn, s: State, e: Event, u: Undo)
    requires t.Valid() && Unmarked(t, s, u) && e.Go? && (s.pc.RollbackGuard? || s.pc.RollbackStale?)
    ensures Unmarked(t, UndoGuard(t, s, e), UndoStep(t, s, e, u))
  {
  }

  lemma NotLoadedUndone(t: Txn, s: State, e: Event, u: Undo)
    requires t.Valid() && Unmarked(t, s, u) && e.Go? && s.pc.RollbackLoad? && !Loads(s, e)
    ensures Unmarked(t, UndoLoad(t, s, e), UndoStep(t, s, e, u))
  {
  }

  lemma LoadedUndone(t: Txn, s: State, e: Event, u: Undo)
    requires t.Valid() && Unmarked(t, s, u) && s.pc.RollbackLoad? && Loads(s, e)
    ensures Unmarked(t, UndoLoad(t, s, e), UndoStep(t, s, e, u))
  {
  }

  lemma LoadUndone(t: Txn, s: State, e: Event, u: Undo)
    requires t.Valid() && Unmarked(t, s, u) && e.Go? && s.pc.RollbackLoad?
    ensures Unmarked(t, UndoLoad(t, s, e), UndoStep(t, s, e, u))
  {
    if Loads(s, e) { LoadedUndone(t, s, e, u); } else { NotLoadedUndone(t, s, e, u); }
  }

  lemma EndUndone(t: Txn, s: State, e: Event, u: Undo)
    requires t.Valid() && Unmarked(t, s, u) && e.Go?
    requires s.pc.RollbackReload? || s.pc.RollbackRatchet? || s.pc.RollbackMarker?
    ensures Unmarked(t, UndoLoad(t, s, e), UndoStep(t, s, e, u))
  {
  }

  /** A path still archived is about to be put back. */
  ghost predicate AtPath(t: Txn, s: State, u: Undo) {
    Unmarked(t, s, u) && s.pc.Restore? && s.pc.left > 0 && s.mem.moved[s.pc.left - 1]
  }

  lemma ReturnUndone(t: Txn, s: State, u: Undo)
    requires AtPath(t, s, u)
    ensures Unmarked(t, Return(s, s.pc.left - 1), u.(paths := u.paths + {s.pc.left - 1}))
  {
    var k := s.pc.left - 1;
    ReturnedKeeps(t.before.source, s.disk.source, s.disk.archived, s.mem.moved, false, k);
    assert k !in u.paths;
  }

  lemma SkipUndone(t: Txn, s: State, u: Undo)
    requires AtPath(t, s, u)
    ensures Unmarked(t, Skip(s, s.pc.left - 1), u)
  {
  }

  lemma DisplaceUndone(t: Txn, s: State, u: Undo)
    requires AtPath(t, s, u) && s.disk.source[s.pc.left - 1].Some?
    ensures Unmarked(t, Displace(s, s.pc.left - 1), u)
  {
    OverwrittenKeeps(t.before.source, s.disk.source, s.disk.archived, false, s.pc.left - 1, None);
  }

  lemma UndisplaceUndone(t: Txn, s: State, u: Undo)
    requires AtPath(t, s, u)
    ensures Unmarked(t, Skip(Undisplace(s, s.pc.left - 1), s.pc.left - 1), u)
  {
    var k := s.pc.left - 1;
    OverwrittenKeeps(t.before.source, s.disk.source, s.disk.archived, false, k, s.disk.aborted[k]);
  }

  lemma PathUndone(t: Txn, s: State, e: Event, u: Undo)
    requires AtPath(t, s, u) && e.Go?
    ensures Unmarked(t, RestoreStep(s, e), UndoStep(t, s, e, u))
  {
    var k := s.pc.left - 1;
    if e.fate.Done? {
      if s.pc.displaced || s.disk.source[k].None? {
        ReturnUndone(t, s, u);
      } else if s.disk.aborted[k].Some? {
        SkipUndone(t, s, u);
      } else {
        DisplaceUndone(t, s, u);
      }
    } else if s.pc.displaced && e.fate.FailedBefore? {
      UndisplaceUndone(t, s, u);
    } else {
      SkipUndone(t, s, u);
    }
  }

  lemma PassedUndone(t: Txn, s: State, e: Event, u: Undo)
    requires Unmarked(t, s, u) && e.Go? && s.pc.Restore? && !AtPath(t, s, u)
    ensures Unmarked(t, RestoreStep(s, e), UndoStep(t, s, e, u))
  {
  }

  lemma RestUndone(t: Txn, s: State, e: Event, u: Undo)
    requires Unmarked(t, s, u) && AtRest(s.pc) && e.Go?
    ensures Unmarked(t, Next(t, s, e), UndoStep(t, s, e, u))
  {
  }

  lemma RestartUndone(t: Txn, s: State, u: Undo)
    requires t.Valid() && Unmarked(t, s, u)
    ensures Unmarked(t, Next(t, s, Restart), u)
  {
  }

  lemma StepUndone(t: Txn, s: State, e: Event, u: Undo)
    requires t.Valid() && Unmarked(t, s, u)
    ensures Unmarked(t, Next(t, s, e), UndoStep(t, s, e, u))
  {
    if e.Restart? {
      RestartUndone(t, s, u);
    } else if AtRest(s.pc) {
      RestUndone(t, s, e, u);
    } else if AtPath(t, s, u) {
      PathUndone(t, s, e, u);
    } else if s.pc.Restore? {
      PassedUndone(t, s, e, u);
    } else if s.pc.RollbackTox? {
      SaveUndone(t, s, e, u);
    } else if s.pc.RollbackReinvite? {
      ReinviteUndone(t, s, e, u);
    } else if s.pc.RollbackGuard? || s.pc.RollbackStale? {
      GuardUndone(t, s, e, u);
    } else if s.pc.RollbackLoad? {
      LoadUndone(t, s, e, u);
    } else {
      EndUndone(t, s, e, u);
    }
  }

  lemma {:induction false} RunUndone(t: Txn, s: State, events: seq<Event>, u: Undo)
    requires t.Valid() && Unmarked(t, s, u)
    ensures Unmarked(t, Run(t, s, events), Undone(t, s, events, u))
    decreases |events|
  {
    if events != [] {
      StepUndone(t, s, events[0], u);
      RunUndone(t, Next(t, s, events[0]), events[1..], UndoStep(t, s, events[0], u));
    }
  }

  lemma UndoneMeans(t: Txn, s: State, u: Undo)
    requires t.Valid() && Unmarked(t, s, u)
    ensures Different(t) ==> (Replaced(t, s) <==> u.Nothing()) && (Restored(t, s) <==> u.Everything(t.before.source))
    ensures !Different(t) ==>
              && (Replaced(t, s) <==> u.paths == {})
              && (Restored(t, s) <==> u.save && u.PathsAreBack(t.before.source))
  {
  }

  // --- The main results ---------------------------------------------------------------------

  /** A run either never loses the marker or loses it after a first part that does not. */
  lemma {:induction false} FirstLoss(t: Txn, s: State, events: seq<Event>) returns (k: nat)
    requires !Clean(t, s, events)
    ensures k < |events| && Clean(t, s, events[..k]) && LosesMarker(Run(t, s, events[..k]), events[k])
    ensures Run(t, s, events) == Run(t, Next(t, Run(t, s, events[..k]), events[k]), events[k + 1..])
    decreases |events|
  {
    if LosesMarker(s, events[0]) {
      k := 0;
      assert events[..0] == [];
    } else {
      k := FirstLoss(t, Next(t, s, events[0]), events[1..]);
      k := k + 1;
      assert events[..k][1..] == events[1..][..k - 1] && events[k + 1..] == events[1..][k..];
    }
  }

  /** Once a run has lost the marker it stays lost, and the disk is the old or the
      new identity's exactly when the rollback has undone everything or nothing,
      wherever the rollback failed, ended or was struck by a restart.  For a bundle
      of the running identity itself, guard and recovery copy fit either way: what
      counts is that no path is back, or all of them and the save. */
  lemma UnmarkedRollback(t: Txn, before: seq<Event>, e: Event, after: seq<Event>)
    requires t.Valid() && Clean(t, Start(t), before) && LosesMarker(Run(t, Start(t), before), e)
    ensures var s := Run(t, Start(t), before);
            var first := Next(t, s, e);
            var r, u := Run(t, first, after), Undone(t, first, after, NothingYet(t, s));
            && r.disk.marker.None?
            && (AllOrNothing(t, r) <==>
                  if Different(t) then u.Nothing() || u.Everything(t.before.source)
                  else u.paths == {} || (u.save && u.PathsAreBack(t.before.source)))
  {
    var s := Run(t, Start(t), before);
    RunKeeps(t, Start(t), before);
    LosingBegins(t, s, e);
    RunUndone(t, Next(t, s, e), after, NothingYet(t, s));
    UndoneMeans(t, Run(t, Next(t, s, e), after), Undone(t, Next(t, s, e), after, NothingYet(t, s)));
  }

  /** What any run at all leaves: either the invariant of the clean runs, or a lost marker. */
  lemma AnyRun(t: Txn, events: seq<Event>)
    requires t.Valid()
    ensures var s := Run(t, Start(t), events);
            Inv(t, s) || exists u :: Unmarked(t, s, u)
  {
    if Clean(t, Start(t), events) {
      RunKeeps(t, Start(t), events);
    } else {
      var k := FirstLoss(t, Start(t), events);
      var s := Run(t, Start(t), events[..k]);
      RunKeeps(t, Start(t), events[..k]);
      LosingBegins(t, s, events[k]);
      RunUndone(t, Next(t, s, events[k]), events[k + 1..], NothingYet(t, s));
    }
  }

  /** Whatever fails and wherever a restart strikes, every file that existed before
      is under its archived name or its own; the old reinvite marker is gone
      exactly when a recovery removed it after an earlier one had put it back. */
  lemma NothingIsLost(t: Txn, events: seq<Event>)
    requires t.Valid()
    ensures var s := Run(t, Start(t), events);
            && (forall i :: 0 <= i < PATHS && i != REINVITE_MARKER ==>
                  Kept(t.before.source[i], s.disk.archived[i], s.disk.source[i]))
            && (s.lost <==> !Kept(t.before.source[REINVITE_MARKER], s.disk.archived[REINVITE_MARKER],
                                  s.disk.source[REINVITE_MARKER]))
  {
    AnyRun(t, events);
  }
}
