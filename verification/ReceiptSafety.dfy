/** Marking a conversation read is atomic over every run, and no receipt an
    outbox write reported done is lost before it is acknowledged. */
module ReceiptSafety {
  import opened Basics
  import opened ReceiptOutbox
  import opened ReceiptCommit

  // --- What is promised ---------------------------------------------------------------

  /** Nothing of the transaction has reached the outbox or a recipient. */
  ghost predicate Untouched(s: State) {
    forall i :: 0 <= i < |s.cap.entries| ==>
      var e := s.cap.entries[i];
      e in s.disk.outbox || e in s.mem.outbox || e in s.delivered ==> e in s.cap.others
  }

  /** Nothing happened: what was unread still is, and no receipt is on its way. */
  ghost predicate RolledBack(s: State) {
    0 < s.cap.count <= Count(s.disk.unread, s.cap.conversation) && Untouched(s)
  }

  ghost predicate Waits(s: State, e: Entry) { e in s.disk.outbox || e in s.delivered }

  /** Only what arrived since is unread; every receipt waits, once, or was delivered. */
  ghost predicate Committed(s: State) {
    && Count(s.disk.unread, s.cap.conversation) <= s.cap.notes
    && NoDup(s.disk.outbox)
    && forall i :: 0 <= i < |s.cap.entries| ==> Waits(s, s.cap.entries[i])
  }

  /** A message noted between a durable clear and its marker that writes the
      cleared conversation's count back. */
  predicate Disturbs(s: State, e: Event) {
    && e.Note? && e.fate.Effective() && s.pc.Idle?
    && Decided(s.disk) && !s.disk.committed
    && Count(Increment(s.mem.unread, e.conversation), s.disk.txn[0].conversation) > 0
  }

  predicate Quiet(s: State, events: seq<Event>)
    decreases |events|
  {
    events == [] || (!Disturbs(s, events[0]) && Quiet(Next(s, events[0]), events[1..]))
  }

  // --- The invariant ------------------------------------------------------------------

  ghost predicate Ahead(mem: Unread, disk: Unread) {
    forall c :: Count(disk, c) <= Count(mem, c)
  }

  ghost predicate Backed(mem: seq<Entry>, disk: seq<Entry>, delivered: set<Entry>) {
    forall e :: e in mem ==> e in disk || e in delivered
  }

  ghost predicate Held(queued: set<Entry>, mem: seq<Entry>, delivered: set<Entry>) {
    forall e :: e in queued ==> e in mem || e in delivered
  }

  ghost predicate Tables(s: State) {
    && NoDup(s.disk.outbox) && |s.disk.outbox| <= OUTBOX_MAX
    && NoDup(s.mem.outbox) && |s.mem.outbox| <= OUTBOX_MAX
    && Backed(s.mem.outbox, s.disk.outbox, s.delivered)
    && Held(s.queued, s.mem.outbox, s.delivered)
  }

  ghost predicate Of(es: seq<Entry>, conversation: string) {
    forall i :: 0 <= i < |es| ==> es[i].conversation == conversation
  }

  /** What the transaction file, while it exists, says about the rest. */
  ghost predicate Phase(s: State) {
    s.disk.txn != [] ==>
      && s.disk.txn == s.cap.entries
      && Of(s.cap.entries, s.cap.conversation)
      && if s.disk.committed then
           && Count(s.disk.unread, s.cap.conversation) <= s.cap.notes
           && Count(s.mem.unread, s.cap.conversation) <= s.cap.notes
         else
           Count(s.disk.unread, s.cap.conversation) == 0 || RolledBack(s)
  }

  ghost predicate PcOk(s: State) {
    match s.pc
    case Idle => true
    case Recover(_) => true
    case SaveOutbox(_, entries) => entries == s.disk.txn && Decided(s.disk)
    case ClearTxn(_, _) => Decided(s.disk) ==> Elems(s.disk.txn) <= s.queued
    case ClearMarker(_, _) => s.disk.txn == []
    case Collect(_, _) => s.disk.txn == []
    case BeginClear(c, entries) => s.disk.txn == [] && entries != [] && Of(entries, c)
    case BeginUnmark(c, entries) => s.disk.txn == [] && entries != [] && Of(entries, c)
    case BeginSave(c, entries) => s.disk.txn == [] && entries != [] && Of(entries, c) && !s.disk.committed
    case ClearUnread(c, entries) =>
      if entries == [] then s.disk.txn == []
      else entries == s.disk.txn && c == s.cap.conversation && !s.disk.committed
    case Mark(c, entries) =>
      entries == s.disk.txn != [] && c == s.cap.conversation && !s.disk.committed
      && Count(s.disk.unread, c) == Count(s.mem.unread, c) == 0
  }

  ghost predicate Inv(s: State) {
    Tables(s) && Ahead(s.mem.unread, s.disk.unread) && Phase(s) && PcOk(s)
  }

  // --- Each step keeps it ---------------------------------------------------------------

  lemma BootKeeps(s: State)
    requires Inv(s)
    ensures Inv(Boot(s))
  {
  }

  lemma RecoverKeeps(s: State, next: Then, fate: Fate)
    requires Inv(s) && s.pc == Recover(next)
    ensures Inv(RecoverStep(s, next, fate))
  {
  }

  lemma OutboxWriteTables(s: State, entries: seq<Entry>, fate: Fate)
    requires Tables(s)
    ensures var (after, ok) := OutboxWrite(s, entries, fate); Tables(after) && (ok ==> Elems(entries) <= after.queued)
  {
    MergedMeans(s.mem.outbox, entries);
  }

  lemma SaveOutboxKeeps(s: State, next: Then, entries: seq<Entry>, fate: Fate)
    requires Inv(s) && s.pc == SaveOutbox(next, entries)
    ensures Inv(SaveOutboxStep(s, next, entries, fate))
  {
    OutboxWriteTables(s, entries, fate);
  }

  lemma ClearTxnKeeps(s: State, next: Then, adopt: bool, fate: Fate)
    requires Inv(s) && s.pc == ClearTxn(next, adopt)
    ensures Inv(ClearTxnStep(s, next, adopt, fate))
    ensures s.disk.txn != [] && ClearTxnStep(s, next, adopt, fate).disk.txn == [] ==>
              var after := ClearTxnStep(s, next, adopt, fate);
              Committed(after) || RolledBack(after)
  {
    var after := ClearTxnStep(s, next, adopt, fate);
    if s.disk.txn != [] && Decided(s.disk) {
      forall i | 0 <= i < |s.cap.entries| ensures Waits(after, s.cap.entries[i]) {
        assert s.cap.entries[i] in Elems(s.disk.txn);
      }
    }
  }

  lemma ClearMarkerKeeps(s: State, next: Then, adopt: bool, fate: Fate)
    requires Inv(s) && s.pc == ClearMarker(next, adopt)
    ensures Inv(ClearMarkerStep(s, next, adopt, fate))
  {
  }

  lemma CollectKeeps(s: State, c: string, ids: seq<string>, fate: Fate)
    requires Inv(s) && s.pc == Collect(c, ids)
    ensures Inv(CollectStep(s, c, ids, fate))
  {
  }

  lemma BeginKeeps(s: State, fate: Fate)
    requires Inv(s) && (s.pc.BeginClear? || s.pc.BeginUnmark?)
    ensures Inv(Step(s, fate))
  {
  }

  lemma BeginSaveKeeps(s: State, c: string, entries: seq<Entry>, fate: Fate)
    requires Inv(s) && s.pc == BeginSave(c, entries)
    ensures Inv(BeginSaveStep(s, c, entries, fate))
  {
  }

  lemma ClearUnreadKeeps(s: State, c: string, entries: seq<Entry>, fate: Fate)
    requires Inv(s) && s.pc == ClearUnread(c, entries)
    ensures Inv(ClearUnreadStep(s, c, entries, fate))
  {
  }

  lemma MarkKeeps(s: State, c: string, entries: seq<Entry>, fate: Fate)
    requires Inv(s) && s.pc == Mark(c, entries)
    ensures Inv(MarkStep(s, entries, fate))
  {
  }

  lemma NoteKeeps(s: State, c: string, fate: Fate)
    requires Inv(s) && s.pc.Idle? && !Disturbs(s, Note(c, fate))
    ensures Inv(NoteStep(s, c, fate))
  {
  }

  lemma QueueKeeps(s: State, entry: Entry, fate: Fate)
    requires Inv(s) && s.pc.Idle?
    ensures Inv(QueueStep(s, entry, fate))
  {
    var asked := s.(cap := s.cap.(others := s.cap.others + {entry}));
    OutboxWriteTables(asked, [entry], fate);
    MergedMeans(s.mem.outbox, [entry]);
  }

  lemma FlushKeeps(s: State, acked: set<Entry>, fate: Fate)
    requires Inv(s) && s.pc.Idle?
    ensures Inv(FlushStep(s, acked, fate))
  {
    WithoutMeans(s.mem.outbox, acked * Elems(s.mem.outbox));
  }

  lemma StepKeeps(s: State, fate: Fate)
    requires Inv(s)
    ensures Inv(Step(s, fate))
  {
    match s.pc
    case Idle =>
    case Recover(next) => RecoverKeeps(s, next, fate);
    case SaveOutbox(next, entries) => SaveOutboxKeeps(s, next, entries, fate);
    case ClearTxn(next, adopt) => ClearTxnKeeps(s, next, adopt, fate);
    case ClearMarker(next, adopt) => ClearMarkerKeeps(s, next, adopt, fate);
    case Collect(c, ids) => CollectKeeps(s, c, ids, fate);
    case BeginClear(c, entries) => BeginKeeps(s, fate);
    case BeginUnmark(c, entries) => BeginKeeps(s, fate);
    case BeginSave(c, entries) => BeginSaveKeeps(s, c, entries, fate);
    case ClearUnread(c, entries) => ClearUnreadKeeps(s, c, entries, fate);
    case Mark(c, entries) => MarkKeeps(s, c, entries, fate);
  }

  lemma NextKeeps(s: State, e: Event)
    requires Inv(s) && !Disturbs(s, e)
    ensures Inv(Next(s, e))
  {
    match e
    case Restart => BootKeeps(s);
    case Go(fate) => StepKeeps(s, fate);
    case Note(c, fate) => if s.pc.Idle? { NoteKeeps(s, c, fate); }
    case Queue(entry, fate) => if s.pc.Idle? { QueueKeeps(s, entry, fate); }
    case Flush(acked, fate) => if s.pc.Idle? { FlushKeeps(s, acked, fate); }
    case _ =>
  }

  lemma {:induction false} RunKeeps(s: State, events: seq<Event>)
    requires Inv(s) && Quiet(s, events)
    ensures Inv(Run(s, events))
    decreases |events|
  {
    if events != [] {
      NextKeeps(s, events[0]);
      RunKeeps(Next(s, events[0]), events[1..]);
    }
  }

  // --- The theorems -----------------------------------------------------------------------

  /** Whenever, in any run, a step makes the transaction file disappear, the read
      has either not happened at all or happened completely.  A marker left over
      from an earlier transaction decides nothing. */
  lemma ReadIsAtomic(start: State, events: seq<Event>, e: Event)
    requires Settled(start) && Quiet(start, events)
    requires Run(start, events).disk.txn != [] && Next(Run(start, events), e).disk.txn == []
    ensures var after := Next(Run(start, events), e); Committed(after) || RolledBack(after)
  {
    var s := Run(start, events);
    RunKeeps(start, events);
    if e.Go? && s.pc.ClearTxn? {
      ClearTxnKeeps(s, s.pc.next, s.pc.adopt, e.fate);
    }
  }

  /** A receipt whose outbox write was reported done waits, once, until its
      recipient has acknowledged it. */
  lemma ReceiptsStay(start: State, events: seq<Event>, e: Entry)
    requires Settled(start) && Quiet(start, events) && e in Run(start, events).queued
    ensures Waits(Run(start, events), e) && NoDup(Run(start, events).disk.outbox)
  {
    RunKeeps(start, events);
  }

  // --- Recovery and the undisturbed read ----------------------------------------------------

  function Dones(n: nat): (events: seq<Event>)
    ensures |events| == n && forall i :: 0 <= i < n ==> events[i] == Go(Done)
  {
    seq(n, i => Go(Done))
  }

  lemma DonesStep(s: State, n: nat)
    requires n > 0
    ensures Run(s, Dones(n)) == Run(Step(s, Done), Dones(n - 1))
  {
    assert Dones(n)[1..] == Dones(n - 1);
  }

  lemma Dones4(s: State)
    ensures Run(s, Dones(4)) == Step(Step(Step(Step(s, Done), Done), Done), Done)
  {
    DonesStep(s, 4);
    DonesStep(Step(s, Done), 3);
    DonesStep(Step(Step(s, Done), Done), 2);
    DonesStep(Step(Step(Step(s, Done), Done), Done), 1);
  }

  /** A retried recovery that meets no failing file settles the transaction exactly
      when the receipts it must queue, if any, fit the outbox; the unread counts
      shown are then the durable ones. */
  lemma RecoverySettles(s: State)
    requires Inv(s) && s.pc.Idle? && s.disk.txn != []
    ensures var after := Run(Next(s, Retry), Dones(4));
            && after.pc.Idle?
            && (after.disk.txn == [] <==>
                 !Decided(s.disk) || |Elems(s.mem.outbox) + Elems(s.disk.txn)| <= OUTBOX_MAX)
            && (after.disk.txn == [] ==> after.mem.unread == after.disk.unread && !after.disk.committed)
  {
    var s0 := Next(s, Retry);
    Dones4(s0);
    assert s0.disk == s.disk && s0.mem == s.mem;
    if Decided(s.disk) {
      assert Step(s0, Done).pc == SaveOutbox(Stop, s.disk.txn);
      MergedMeans(s.mem.outbox, s.disk.txn);
      QueuedSettles(Step(s0, Done));
    } else {
      assert Step(s0, Done).pc == ClearTxn(Stop, true);
    }
  }

  lemma QueuedSettles(s: State)
    requires s.pc == SaveOutbox(Stop, s.disk.txn) && s.disk.txn != []
    ensures var after := Step(Step(Step(s, Done), Done), Done);
            && after.pc.Idle?
            && (after.disk.txn == [] <==> Merged(s.mem.outbox, s.disk.txn).Some?)
            && (after.disk.txn == [] ==> after.mem.unread == after.disk.unread && !after.disk.committed)
  {
  }

  /** With no failing file a read clears the count and queues every receipt, in
      order, behind those already waiting. */
  lemma ReadSucceeds(s: State, c: string, ids: seq<string>)
    requires Inv(s) && s.pc.Idle? && s.disk.txn == [] && !s.disk.committed
    requires Count(s.mem.unread, c) > 0 && ids != [] && NoDup(Entries(c, ids))
    requires |Elems(s.mem.outbox) + Elems(Entries(c, ids))| <= OUTBOX_MAX
    ensures var after := Run(Run(Run(Next(s, Read(c, ids)), Dones(4)), Dones(4)), Dones(4));
            && after.pc.Idle? && after.disk.txn == [] && !after.disk.committed
            && after.mem.unread == after.disk.unread == s.mem.unread - {c}
            && s.mem.outbox <= after.mem.outbox
            && Elems(after.mem.outbox) == Elems(s.mem.outbox) + Elems(Entries(c, ids))
            && after.disk.outbox == (if after.mem.outbox == s.mem.outbox then s.disk.outbox else after.mem.outbox)
  {
    var entries := Entries(c, ids);
    MergedMeans(s.mem.outbox, entries);
    var s0 := Next(s, Read(c, ids));
    Dones4(s0);
    ReadCollects(s, c, ids);
    var s1 := Run(s0, Dones(4));
    Dones4(s1);
    ReadClears(s1, c, entries);
    var s2 := Run(s1, Dones(4));
    Dones4(s2);
    ReadQueues(s2, c, entries);
  }

  lemma ReadCollects(s: State, c: string, ids: seq<string>)
    requires s.pc.Idle? && s.disk.txn == [] && !s.disk.committed && Count(s.mem.unread, c) > 0
    requires ids != [] && NoDup(Entries(c, ids)) && Merged(s.mem.outbox, Entries(c, ids)).Some?
    ensures var s0 := Next(s, Read(c, ids));
            Step(Step(Step(Step(s0, Done), Done), Done), Done) == To(s, BeginClear(c, Entries(c, ids)))
  {
    var s0 := Next(s, Read(c, ids));
    assert Step(s0, Done) == To(s, ClearTxn(GoOn(c, ids), false));
    assert Step(To(s, ClearTxn(GoOn(c, ids), false)), Done) == To(s, ClearMarker(GoOn(c, ids), false));
    assert Step(To(s, ClearMarker(GoOn(c, ids), false)), Done) == To(s, Collect(c, ids));
  }

  lemma ReadClears(s: State, c: string, entries: seq<Entry>)
    requires s.pc == BeginClear(c, entries) && entries != [] && s.disk.txn == [] && !s.disk.committed
    ensures var after := Step(Step(Step(Step(s, Done), Done), Done), Done);
            && after.pc == Mark(c, entries) && after.mem.outbox == s.mem.outbox
            && after.disk == Disk(s.mem.unread - {c}, s.disk.outbox, entries, false)
            && after.mem.unread == s.mem.unread - {c}
  {
    assert Step(s, Done) == To(s, BeginUnmark(c, entries));
    assert Step(To(s, BeginUnmark(c, entries)), Done) == To(s, BeginSave(c, entries));
    var saved := Step(To(s, BeginSave(c, entries)), Done);
    assert saved.pc == ClearUnread(c, entries) && saved.mem == s.mem;
  }

  lemma ReadQueues(s: State, c: string, entries: seq<Entry>)
    requires s.pc == Mark(c, entries) && Merged(s.mem.outbox, entries).Some?
    ensures var after := Step(Step(Step(Step(s, Done), Done), Done), Done);
            var box := Merged(s.mem.outbox, entries).value;
            && after.pc.Idle? && after.mem == Memory(s.mem.unread, box)
            && after.disk == Disk(s.disk.unread, if box == s.mem.outbox then s.disk.outbox else box, [], false)
  {
    var marked := Step(s, Done);
    assert marked.pc == SaveOutbox(Finish, entries) && marked.mem == s.mem;
    var saved := Step(marked, Done);
    assert saved.pc == ClearTxn(Finish, false);
    var cleared := Step(saved, Done);
    assert cleared.pc == ClearMarker(Finish, false);
  }

  // --- What a message between the clear and its marker does ---------------------------------

  /** After a disturbing note the next recovery takes the read back, with the count
      the note wrote.  That is atomic exactly when nothing was cleared or queued
      before, or everything was. */
  lemma DisturbedRecovery(s: State, c: string, fate: Fate)
    requires Inv(s) && Disturbs(s, Note(c, fate))
    ensures var noted := Next(s, Note(c, fate));
            var after := Run(Next(noted, Retry), Dones(4));
            var count := Count(noted.mem.unread, s.cap.conversation);
            && after.pc.Idle? && after.disk.txn == [] && Count(after.disk.unread, s.cap.conversation) == count
            && (RolledBack(after) <==> 0 < s.cap.count <= count && Untouched(s))
            && (Committed(after) <==> count <= noted.cap.notes
                                      && forall i :: 0 <= i < |s.cap.entries| ==> Waits(s, s.cap.entries[i]))
  {
    var noted := Next(s, Note(c, fate));
    Dones4(Next(noted, Retry));
    assert noted.disk == s.disk.(unread := noted.mem.unread) && noted.mem.outbox == s.mem.outbox;
    assert noted.disk.txn[0] == s.cap.entries[0];
    assert !Decided(noted.disk);
    TakenBack(noted);
  }

  lemma TakenBack(s: State)
    requires s.disk.txn != [] && !Decided(s.disk) && OneConversation(s.disk.txn) && s.pc.Idle?
    ensures var after := Step(Step(Step(Step(Next(s, Retry), Done), Done), Done), Done);
            && after == s.(disk := s.disk.(txn := [], committed := false), mem := s.mem.(unread := s.disk.unread))
  {
    var s1 := Step(Next(s, Retry), Done);
    assert s1 == To(s, ClearTxn(Stop, true));
    var s2 := Step(s1, Done);
    assert s2 == To(s.(disk := s.disk.(txn := [])), ClearMarker(Stop, true));
  }

  /** The read of `ids` up to its marker, which cannot be written. */
  function UnmarkedRead(s: State, c: string, ids: seq<string>): State {
    Next(Run(Run(Next(s, Read(c, ids)), Dones(4)), Dones(4)), Go(FailedBefore))
  }

  lemma UnmarkedReadIs(s: State, c: string, ids: seq<string>)
    requires Settled(s) && !s.disk.committed && Count(s.disk.unread, c) > 0
    requires ids != [] && NoDup(Entries(c, ids)) && Merged(s.mem.outbox, Entries(c, ids)).Some?
    ensures var stuck := UnmarkedRead(s, c, ids);
            && Inv(stuck) && stuck.pc.Idle? && stuck.delivered == {}
            && stuck.cap == Capture(c, Entries(c, ids), Count(s.disk.unread, c), Elems(s.disk.outbox), 0)
            && stuck.mem == Memory(s.disk.unread - {c}, s.disk.outbox)
            && stuck.disk == Disk(s.disk.unread - {c}, s.disk.outbox, Entries(c, ids), false)
  {
    var entries := Entries(c, ids);
    Dones4(Next(s, Read(c, ids)));
    ReadCollects(s, c, ids);
    var begun := To(s, BeginClear(c, entries));
    assert Inv(begun);
    Dones4(begun);
    ReadClears(begun, c, entries);
    Begun(begun, c, entries);
    assert Elems(s.disk.outbox) + Elems(s.mem.outbox) + s.delivered == Elems(s.disk.outbox);
    NextKeeps4(begun);
    StepKeeps(Run(begun, Dones(4)), FailedBefore);
  }

  /** The marker cannot be written and a message arrives on the conversation just
      read: the old messages are no longer unread, yet no receipt is queued. */
  lemma MessageAfterTheClear(s: State, c: string, ids: seq<string>)
    requires Settled(s) && !s.disk.committed && Count(s.disk.unread, c) >= 2
    requires ids != [] && NoDup(Entries(c, ids)) && Entry(c, ids[0]) !in s.disk.outbox
    requires |Elems(s.mem.outbox) + Elems(Entries(c, ids))| <= OUTBOX_MAX
    ensures var after := Run(Next(Next(UnmarkedRead(s, c, ids), Note(c, Done)), Retry), Dones(4));
            after.disk.txn == [] && !Committed(after) && !RolledBack(after)
  {
    MergedMeans(s.mem.outbox, Entries(c, ids));
    UnmarkedReadIs(s, c, ids);
    var stuck := UnmarkedRead(s, c, ids);
    DisturbedRecovery(stuck, c, Done);
    assert !Waits(stuck, stuck.cap.entries[0]);
  }

  lemma NextKeeps4(s: State)
    requires Inv(s)
    ensures Inv(Run(s, Dones(4)))
  {
    Dones4(s);
    StepKeeps(s, Done);
    StepKeeps(Step(s, Done), Done);
    StepKeeps(Step(Step(s, Done), Done), Done);
    StepKeeps(Step(Step(Step(s, Done), Done), Done), Done);
  }

  /** The read of `ids`, its clear failing after its effect and the recovery's
      removal of the transaction failing before. */
  function StuckRead(s: State, c: string, ids: seq<string>): State {
    var begun := Step(Step(Step(Run(Next(s, Read(c, ids)), Dones(4)), Done), Done), Done);
    Step(Step(Step(Step(begun, FailedAfter), Done), Done), FailedBefore)
  }

  lemma StuckReadIs(s: State, c: string, ids: seq<string>)
    requires Settled(s) && !s.disk.committed && Count(s.disk.unread, c) > 0
    requires ids != [] && NoDup(Entries(c, ids)) && Merged(s.mem.outbox, Entries(c, ids)).Some?
    ensures var stuck := StuckRead(s, c, ids);
            var entries := Entries(c, ids);
            var box := Merged(s.mem.outbox, entries).value;
            && Inv(stuck) && stuck.pc.Idle? && stuck.delivered == {}
            && stuck.cap == Capture(c, entries, Count(s.disk.unread, c), Elems(s.disk.outbox), 0)
            && stuck.mem == Memory(s.disk.unread, box)
            && stuck.disk == Disk(s.disk.unread - {c}, box, entries, false)
  {
    var entries := Entries(c, ids);
    Dones4(Next(s, Read(c, ids)));
    ReadCollects(s, c, ids);
    var collected := To(s, BeginClear(c, entries));
    assert Inv(collected);
    StepKeeps(collected, Done);
    StepKeeps(Step(collected, Done), Done);
    var begun := Step(Step(Step(collected, Done), Done), Done);
    StepKeeps(Step(Step(collected, Done), Done), Done);
    Begun(collected, c, entries);
    assert Elems(s.disk.outbox) + Elems(s.mem.outbox) + s.delivered == Elems(s.disk.outbox);
    StuckIs(begun);
  }

  lemma StuckIs(s: State)
    requires Inv(s) && s.pc == ClearUnread(s.cap.conversation, s.disk.txn) && s.disk.txn != [] && !s.disk.committed
    requires Merged(s.mem.outbox, s.disk.txn).Some?
    ensures var stuck := Step(Step(Step(Step(s, FailedAfter), Done), Done), FailedBefore);
            var box := Merged(s.mem.outbox, s.disk.txn).value;
            && Inv(stuck) && stuck.pc.Idle? && stuck.cap == s.cap && stuck.delivered == s.delivered
            && stuck.mem == Memory(s.mem.unread, box)
            && stuck.disk == Disk(s.mem.unread - {s.cap.conversation},
                                  if box == s.mem.outbox then s.disk.outbox else box, s.disk.txn, false)
  {
    var recovering := Step(s, FailedAfter);
    StepKeeps(s, FailedAfter);
    StepKeeps(recovering, Done);
    StepKeeps(Step(recovering, Done), Done);
    StepKeeps(Step(Step(recovering, Done), Done), FailedBefore);
    assert recovering.disk.txn[0].conversation == s.cap.conversation;
    Stuck(recovering);
  }

  /** The clear fails after its effect, the recovery queues the receipts but cannot
      remove the transaction, and a message on another conversation writes the old
      count back: the receipts go out for messages that are unread again. */
  lemma MessageElsewhere(s: State, c: string, ids: seq<string>, d: string)
    requires Settled(s) && !s.disk.committed && Count(s.disk.unread, c) > 0 && d != c
    requires ids != [] && NoDup(Entries(c, ids)) && Entry(c, ids[0]) !in s.disk.outbox
    requires |Elems(s.mem.outbox) + Elems(Entries(c, ids))| <= OUTBOX_MAX
    ensures var after := Run(Next(Next(StuckRead(s, c, ids), Note(d, Done)), Retry), Dones(4));
            && after.disk.txn == [] && !Committed(after) && !RolledBack(after)
            && Count(after.disk.unread, c) == Count(s.disk.unread, c)
            && Entry(c, ids[0]) in after.disk.outbox
  {
    var entries := Entries(c, ids);
    MergedMeans(s.mem.outbox, entries);
    assert entries[0] in Elems(entries);
    StuckReadIs(s, c, ids);
    var stuck := StuckRead(s, c, ids);
    assert entries[0] in Elems(stuck.disk.outbox);
    DisturbedRecovery(stuck, d, Done);
    var noted := Next(stuck, Note(d, Done));
    Dones4(Next(noted, Retry));
    TakenBack(noted);
  }

  lemma Begun(s: State, c: string, entries: seq<Entry>)
    requires s.pc == BeginClear(c, entries) && entries != [] && s.disk.txn == [] && !s.disk.committed
    ensures var begun := Step(Step(Step(s, Done), Done), Done);
            && begun.cap == Capture(c, entries, Count(s.disk.unread, c),
                                    Elems(s.disk.outbox) + Elems(s.mem.outbox) + s.delivered, 0)
            && begun.pc == ClearUnread(c, entries) && begun.disk == s.disk.(txn := entries) && begun.mem == s.mem
            && begun.delivered == s.delivered
  {
    assert Step(s, Done) == To(s, BeginUnmark(c, entries));
    assert Step(To(s, BeginUnmark(c, entries)), Done) == To(s, BeginSave(c, entries));
  }

  lemma Stuck(s: State)
    requires s.pc == Recover(Stop) && Decided(s.disk) && OneConversation(s.disk.txn) && !s.disk.committed
    requires Merged(s.mem.outbox, s.disk.txn).Some?
    ensures var stuck := Step(Step(Step(s, Done), Done), FailedBefore);
            var box := Merged(s.mem.outbox, s.disk.txn).value;
            && stuck.pc.Idle? && stuck.cap == s.cap && stuck.delivered == s.delivered
            && stuck.mem == Memory(s.mem.unread, box)
            && stuck.disk == s.disk.(outbox := if box == s.mem.outbox then s.disk.outbox else box)
  {
    var s1 := Step(s, Done);
    assert s1 == To(s, SaveOutbox(Stop, s.disk.txn));
    var s2 := Step(s1, Done);
    assert s2.pc == ClearTxn(Stop, true);
  }
}
