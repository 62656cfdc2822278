/** The identity replacement transaction of helper/omaq.c, as a machine that
    takes one durable file step at a time.  A restart may strike between any
    two steps, those of the startup recovery included. */
module IdentityReplacement {
  import opened Basics

  const PATHS: nat := 18
  const GROUPS_TSV: nat := 4
  const GROUP_FRIENDS_TSV: nat := 5
  const REINVITE_MARKER: nat := 9
  const UNREAD_TSV: nat := 13

  type Blob = nat
  type Fingerprint = nat
  type Paths = s: seq<Option<Blob>> | |s| == PATHS witness seq(PATHS, i => None)
  type Flags = s: seq<bool> | |s| == PATHS witness seq(PATHS, i => false)

  datatype Save = Save(owner: Fingerprint, body: Blob)
  datatype Phase = Prepared | Replacement
  datatype Marker = Marker(fingerprint: Fingerprint, phase: Phase)

  /** The durable files.  `source`, `archived` and `aborted` hold, for each of
      the 18 paths, the file under its own name, under its
      `.before-identity-<token>` name and under its `.aborted-identity-<token>`
      name. */
  datatype Disk = Disk(
    tox: Save, guard: Fingerprint, marker: Option<Marker>, backup: Option<Save>,
    source: Paths, archived: Paths, aborted: Paths,
    recovery: Option<Save>, stale: bool)

  /** One replacement: the disk it starts from, what the bundle holds and whether
      the build has the ratchet. */
  datatype Txn = Txn(before: Disk, incoming: Save, groups: Blob, bindings: Blob, ratchet: bool) {
    /** The running identity owns the guard, no transaction is open and nothing
        carries this transaction's random token yet. */
    ghost predicate Valid() {
      && before.marker.None?
      && before.guard == before.tox.owner
      && RecoveryBelongs(before, before.tox.owner)
      && forall i :: 0 <= i < PATHS ==> before.archived[i].None? && before.aborted[i].None?
    }
  }

  /** Any recovery copy is the owner's or is flagged stale. */
  predicate RecoveryBelongs(d: Disk, owner: Fingerprint) {
    d.recovery.Some? ==> d.recovery.value.owner == owner || d.stale
  }

  datatype Caller = ArchiveFailure | Rollback | Recovery

  datatype Pc =
    | Export | WriteMarker | Archive(i: nat)
    | ImportGroups | ImportBindings | ImportTox | SyncImport | Load
    | SetPhase | PersistReinvite | SaveUnread | ReplaceGuard
    | EnableStale | EnableTox | EnableRecovery | EnableFresh
    | RemoveMarker | DropBackup
    | Restore(left: nat, displaced: bool, caller: Caller)
    | RollbackTox | RollbackReinvite | RollbackGuard | RollbackStale
    | RollbackReload | RollbackLoad | RollbackRatchet | RollbackMarker
    | Boot | RecoverReinvite | RecoverTox | RecoverGuard | RecoverStale
    | RecoverMarker | RecoverBackup
    | Halt | Finished

  /** The process's own variables; a restart loses them. */
  datatype Memory = Memory(
    moved: Flags, failed: bool, ok: bool, archived: bool, swapped: bool,
    guardSwapped: bool, reinvite: bool, phase: Phase)

  function NoneMoved(): Flags { seq(PATHS, i => false) }

  function Blank(): Memory { Fresh(NoneMoved(), Prepared) }

  function Fresh(moved: Flags, phase: Phase): Memory {
    Memory(moved, false, true, false, false, false, false, phase)
  }

  /** `resaved`: the old identity, rolled back, has been loaded and has saved
      itself again.  `lost`: a recovery removed the old reinvite marker after an
      earlier recovery had put it back. */
  datatype State = State(disk: Disk, mem: Memory, pc: Pc, resaved: bool, lost: bool)

  /** What the environment decides at a step: the fate of the file operation,
      what the loaded identity writes, whether a failed marker could be taken
      back, and whether the rolled-back identity asks for its passphrase. */
  datatype Event =
    | Restart
    | Go(fate: Fate, path: nat, blob: Option<Blob>, body: Blob, more: bool, friends: bool, locked: bool)

  function Start(t: Txn): State { State(t.before, Blank(), Export, false, false) }

  function Goto(s: State, d: Disk, pc: Pc): State { s.(disk := d, pc := pc) }

  // --- The forward path --------------------------------------------------

  function OpenStep(t: Txn, s: State, e: Event): State
    requires e.Go?
  {
    var d := s.disk;
    match s.pc
    case Export =>
      if e.fate.Done? then Goto(s, d.(backup := Some(d.tox)), WriteMarker) else s.(pc := Finished)
    case WriteMarker =>
      var marked := d.(marker := Some(Marker(d.tox.owner, Prepared)));
      (match e.fate
       case Done => Goto(s, marked, Archive(0))
       case FailedBefore => Goto(s, d.(backup := None), Finished)
       case FailedAfter => Goto(s, if e.more then d else marked, Halt))
    case _ => s
  }

  function ArchiveStep(t: Txn, s: State, e: Event): State
    requires e.Go?
  {
    var d := s.disk;
    match s.pc
    case Archive(i) =>
      if i >= PATHS then
        if e.fate.Done? then Goto(s.(mem := s.mem.(archived := true)), d, ImportGroups)
        else s.(pc := Restore(PATHS, false, ArchiveFailure))
      else if d.archived[i].Some? || !e.fate.Done? then
        s.(pc := Restore(PATHS, false, ArchiveFailure))
      else if d.source[i].Some? then
        Goto(s.(mem := s.mem.(moved := s.mem.moved[i := true])),
             d.(archived := d.archived[i := d.source[i]], source := d.source[i := None]),
             Archive(i + 1))
      else s.(pc := Archive(i + 1))
    case _ => s
  }

  function ImportStep(t: Txn, s: State, e: Event): State
    requires e.Go?
  {
    var d := s.disk;
    match s.pc
    case ImportGroups =>
      if e.fate.Done? then Goto(s, d.(source := d.source[GROUPS_TSV := Some(t.groups)]), ImportBindings)
      else s.(pc := RollbackTox)
    case ImportBindings =>
      if e.fate.Done? then Goto(s, d.(source := d.source[GROUP_FRIENDS_TSV := Some(t.bindings)]), ImportTox)
      else s.(pc := RollbackTox)
    case ImportTox =>
      if e.fate.Done? then Goto(s.(mem := s.mem.(swapped := true)), d.(tox := t.incoming), SyncImport)
      else s.(pc := RollbackTox)
    case SyncImport => s.(pc := if e.fate.Done? then Load else RollbackTox)
    case _ => s
  }

  function LoadStep(t: Txn, s: State, e: Event): State
    requires e.Go?
  {
    var d := s.disk;
    match s.pc
    case Load =>
      if e.more then
        var written := if e.path < PATHS then d.source[e.path := e.blob] else d.source;
        Goto(s, d.(source := written, tox := Save(t.incoming.owner, e.body)), Load)
      else s.(pc := if e.fate.Done? then SetPhase else RollbackTox)
    case SetPhase =>
      var phased := d.(marker := Some(Marker(t.before.tox.owner, Replacement)));
      Goto(s, if e.fate.Effective() then phased else d, if e.fate.Done? then PersistReinvite else RollbackTox)
    case _ => s
  }

  function PersistStep(t: Txn, s: State, e: Event): State
    requires e.Go?
  {
    var d := s.disk;
    match s.pc
    case PersistReinvite =>
      var noted := d.(source := d.source[REINVITE_MARKER :=
                        if d.source[REINVITE_MARKER].Some? then d.source[REINVITE_MARKER] else Some(e.body)]);
      if !e.friends then s.(pc := SaveUnread)
      else if e.fate.Done? then Goto(s.(mem := s.mem.(reinvite := true)), noted, SaveUnread)
      else Goto(s, if e.fate.Effective() then noted else d, RollbackTox)
    case SaveUnread =>
      var saved := d.(source := d.source[UNREAD_TSV := Some(e.body)]);
      Goto(s, if e.fate.Effective() then saved else d, if e.fate.Done? then ReplaceGuard else RollbackTox)
    case _ => s
  }

  function GuardStep(t: Txn, s: State, e: Event): State
    requires e.Go?
  {
    var d := s.disk;
    match s.pc
    case ReplaceGuard =>
      if d.guard != t.before.tox.owner || e.fate.FailedBefore? then s.(pc := RollbackTox)
      else Goto(s.(mem := s.mem.(guardSwapped := true)), d.(guard := t.incoming.owner),
                if e.fate.Done? then EnableStale else RollbackTox)
    case EnableStale =>
      Goto(s, if e.fate.Effective() then d.(stale := true) else d,
           if e.fate.Done? then EnableTox else Halt)
    case _ => s
  }

  function EnableStep(t: Txn, s: State, e: Event): State
    requires e.Go?
  {
    var d := s.disk;
    match s.pc
    case EnableTox =>
      if e.fate.FailedBefore? then Goto(s, d.(stale := t.before.stale), Halt)
      else Goto(s, d.(tox := Save(t.incoming.owner, e.body)), if e.fate.Done? then EnableRecovery else Halt)
    case EnableRecovery =>
      Goto(s, if e.fate.Effective() then d.(recovery := Some(d.tox)) else d,
           if e.fate.Done? then EnableFresh else RemoveMarker)
    case EnableFresh =>
      Goto(s, if e.fate.Effective() then d.(stale := false) else d, RemoveMarker)
    case _ => s
  }

  function CloseStep(t: Txn, s: State, e: Event): State
    requires e.Go?
  {
    var d := s.disk;
    match s.pc
    case RemoveMarker =>
      Goto(s, if e.fate.Effective() then d.(marker := None) else d,
           if e.fate.Done? then DropBackup else RollbackTox)
    case DropBackup => Goto(s, if e.fate.Effective() then d.(backup := None) else d, Finished)
    case _ => s
  }

  // --- Putting the archived paths back ------------------------------------

  predicate AnyMoved(m: Memory) { exists i :: 0 <= i < PATHS && m.moved[i] }

  function AfterRestore(s: State, caller: Caller, failed: bool): State {
    match caller
    case ArchiveFailure =>
      s.(pc := RollbackTox, mem := s.mem.(archived := AnyMoved(s.mem), failed := false))
    case Rollback => s.(pc := RollbackGuard, mem := s.mem.(ok := s.mem.ok && !failed, failed := false))
    case Recovery => s.(pc := if failed then Halt else RecoverGuard)
  }

  function Return(s: State, k: nat): State
    requires s.pc.Restore? && k < PATHS
  {
    s.(disk := s.disk.(source := s.disk.source[k := s.disk.archived[k]], archived := s.disk.archived[k := None]),
       mem := s.mem.(moved := s.mem.moved[k := false]), pc := Restore(k, false, s.pc.caller))
  }

  function Skip(s: State, k: nat): State
    requires s.pc.Restore?
  {
    s.(mem := s.mem.(failed := true), pc := Restore(k, false, s.pc.caller))
  }

  function Displace(s: State, k: nat): State
    requires s.pc.Restore? && k < PATHS
  {
    s.(disk := s.disk.(aborted := s.disk.aborted[k := s.disk.source[k]], source := s.disk.source[k := None]),
       pc := Restore(k + 1, true, s.pc.caller))
  }

  function Undisplace(s: State, k: nat): State
    requires k < PATHS
  {
    s.(disk := s.disk.(source := s.disk.source[k := s.disk.aborted[k]], aborted := s.disk.aborted[k := None]))
  }

  function RestoreStep(s: State, e: Event): State
    requires e.Go? && s.pc.Restore?
  {
    if s.pc.left == 0 || s.pc.left > PATHS then
      AfterRestore(s, s.pc.caller, s.mem.failed || !e.fate.Done?)
    else
      var k := s.pc.left - 1;
      if !s.mem.moved[k] then s.(pc := Restore(k, false, s.pc.caller))
      else if s.pc.displaced then
        if e.fate.Done? then Return(s, k)
        else if e.fate.FailedAfter? then Skip(s, k)
        else Skip(Undisplace(s, k), k)
      else if !e.fate.Done? then Skip(s, k)
      else if s.disk.source[k].None? then Return(s, k)
      else if s.disk.aborted[k].Some? then Skip(s, k)
      else Displace(s, k)
  }

  // --- Rolling back inside the process -------------------------------------

  function UndoImport(t: Txn, s: State, e: Event): State
    requires e.Go?
  {
    var d, m := s.disk, s.mem;
    var bad := s.(mem := m.(ok := false));
    match s.pc
    case RollbackTox =>
      if !m.swapped then s.(pc := RollbackReinvite)
      else if d.backup.None? || !e.fate.Done? then bad.(pc := RollbackReinvite)
      else Goto(s, d.(tox := d.backup.value), RollbackReinvite)
    case RollbackReinvite =>
      var next := if m.archived then Restore(PATHS, false, Rollback) else RollbackGuard;
      var gone := d.(source := d.source[REINVITE_MARKER := None]);
      if !m.reinvite then s.(pc := next)
      else Goto(if e.fate.Done? then s else bad, if e.fate.Effective() then gone else d, next)
    case _ => s
  }

  function UndoGuard(t: Txn, s: State, e: Event): State
    requires e.Go?
  {
    var d, m := s.disk, s.mem;
    var bad := s.(mem := m.(ok := false));
    match s.pc
    case RollbackGuard =>
      if !m.guardSwapped then s.(pc := RollbackStale)
      else Goto(if e.fate.Done? then s else bad,
                if e.fate.Effective() then d.(guard := t.before.tox.owner) else d, RollbackStale)
    case RollbackStale =>
      if !m.swapped then s.(pc := RollbackReload)
      else Goto(if e.fate.Done? then s else bad,
                if e.fate.Effective() then d.(stale := true) else d, RollbackReload)
    case _ => s
  }

  function UndoLoad(t: Txn, s: State, e: Event): State
    requires e.Go?
  {
    var d, m := s.disk, s.mem;
    var bad := s.(mem := m.(ok := false));
    match s.pc
    case RollbackReload =>
      (if m.swapped && !e.fate.Done? then bad else s).(pc := RollbackLoad)
    case RollbackLoad =>
      if !m.swapped then s.(pc := RollbackRatchet)
      else if e.locked then (if t.ratchet then bad else s).(pc := RollbackRatchet)
      else if d.tox.owner != d.guard || e.fate.FailedBefore? then bad.(pc := RollbackRatchet)
      else
        var again := d.(tox := Save(d.tox.owner, e.body), stale := true);
        var resaved := s.resaved || d.tox == t.before.tox;
        if e.more then Goto(s.(resaved := resaved), again, RollbackLoad)
        else Goto((if e.fate.Done? then s else bad).(resaved := resaved),
                  again.(recovery := Some(again.tox), stale := false), RollbackRatchet)
    case RollbackRatchet =>
      (if t.ratchet && !e.fate.Done? then bad else s).(pc := RollbackMarker)
    case RollbackMarker =>
      if !m.ok then s.(pc := Halt)
      else Goto(s, if e.fate.Effective() then d.(marker := None) else d,
                if e.fate.Done? then DropBackup else Halt)
    case _ => s
  }

  function Present(p: Paths): Flags { seq(PATHS, i requires 0 <= i < PATHS => p[i].Some?) }

  // --- Recovery at startup -------------------------------------------------

  function BootStep(t: Txn, s: State, e: Event): State
    requires e.Go?
  {
    var d := s.disk;
    match s.pc
    case Boot =>
      if d.marker.None? then s.(pc := RecoverBackup)
      else if !e.fate.Done? then s.(pc := Halt)
      else
        var phase := d.marker.value.phase;
        s.(mem := Fresh(Present(d.archived), phase),
           pc := if phase.Replacement? then RecoverReinvite else RecoverTox)
    case _ => s
  }

  function RecoverFiles(t: Txn, s: State, e: Event): State
    requires e.Go?
  {
    var d := s.disk;
    match s.pc
    case RecoverReinvite =>
      if e.fate.FailedBefore? then s.(pc := Halt)
      else
        Goto(s.(lost := s.lost || ReinviteAtRisk(t, d)),
             d.(source := d.source[REINVITE_MARKER := None]),
             if e.fate.Done? then RecoverTox else Halt)
    case RecoverTox =>
      if d.backup.None? || !e.fate.Done? then s.(pc := Halt)
      else Goto(s.(resaved := false), d.(tox := d.backup.value), Restore(PATHS, false, Recovery))
    case _ => s
  }

  function RecoverFlags(t: Txn, s: State, e: Event): State
    requires e.Go?
  {
    var d, m := s.disk, s.mem;
    match s.pc
    case RecoverGuard =>
      if d.marker.None? then s.(pc := Halt)
      else Goto(s, if e.fate.Effective() then d.(guard := d.marker.value.fingerprint) else d,
                if !e.fate.Done? then Halt
                else if m.phase.Replacement? then RecoverStale else RecoverMarker)
    case RecoverStale =>
      Goto(s, if e.fate.Effective() then d.(stale := true) else d,
           if e.fate.Done? then RecoverMarker else Halt)
    case _ => s
  }

  function RecoverClose(t: Txn, s: State, e: Event): State
    requires e.Go?
  {
    var d := s.disk;
    match s.pc
    case RecoverMarker =>
      Goto(s, if e.fate.Effective() then d.(marker := None) else d,
           if e.fate.Done? then RecoverBackup else Halt)
    case RecoverBackup => Goto(s, if e.fate.Effective() then d.(backup := None) else d, Finished)
    case _ => s
  }

  /** The old reinvite marker is back under its own name, so that removing that
      name once more destroys it. */
  predicate ReinviteAtRisk(t: Txn, d: Disk) {
    t.before.source[REINVITE_MARKER].Some? && d.archived[REINVITE_MARKER].None?
  }

  function RollbackStep(t: Txn, s: State, e: Event): State
    requires e.Go?
  {
    if s.pc.RollbackTox? || s.pc.RollbackReinvite? then UndoImport(t, s, e)
    else if s.pc.RollbackGuard? || s.pc.RollbackStale? then UndoGuard(t, s, e)
    else UndoLoad(t, s, e)
  }

  function RecoveryStep(t: Txn, s: State, e: Event): State
    requires e.Go?
  {
    if s.pc.Boot? then BootStep(t, s, e)
    else if s.pc.RecoverReinvite? || s.pc.RecoverTox? then RecoverFiles(t, s, e)
    else if s.pc.RecoverGuard? || s.pc.RecoverStale? then RecoverFlags(t, s, e)
    else RecoverClose(t, s, e)
  }

  function ForwardStep(t: Txn, s: State, e: Event): State
    requires e.Go?
  {
    match s.pc
    case Export => OpenStep(t, s, e)
    case WriteMarker => OpenStep(t, s, e)
    case Archive(_) => ArchiveStep(t, s, e)
    case Load => LoadStep(t, s, e)
    case SetPhase => LoadStep(t, s, e)
    case PersistReinvite => PersistStep(t, s, e)
    case SaveUnread => PersistStep(t, s, e)
    case ReplaceGuard => GuardStep(t, s, e)
    case EnableStale => GuardStep(t, s, e)
    case EnableTox => EnableStep(t, s, e)
    case EnableRecovery => EnableStep(t, s, e)
    case EnableFresh => EnableStep(t, s, e)
    case RemoveMarker => CloseStep(t, s, e)
    case DropBackup => CloseStep(t, s, e)
    case Halt => s
    case _ => ImportStep(t, s, e)
  }

  function Next(t: Txn, s: State, e: Event): State {
    if s.pc.Finished? then s
    else if e.Restart? then s.(pc := Boot, mem := Blank())
    else if s.pc.Restore? then RestoreStep(s, e)
    else if RollingBack(s.pc) then RollbackStep(t, s, e)
    else if Recovering(s.pc) then RecoveryStep(t, s, e)
    else ForwardStep(t, s, e)
  }

  predicate RollingBack(pc: Pc) {
    pc.RollbackTox? || pc.RollbackReinvite? || pc.RollbackGuard? || pc.RollbackStale? ||
    pc.RollbackReload? || pc.RollbackLoad? || pc.RollbackRatchet? || pc.RollbackMarker?
  }

  predicate Recovering(pc: Pc) {
    pc.Boot? || pc.RecoverReinvite? || pc.RecoverTox? || pc.RecoverGuard? || pc.RecoverStale? ||
    pc.RecoverMarker? || pc.RecoverBackup?
  }
}
