/** What a message noted between a durable clear and its marker does to the read,
    told from three facts at hand when it arrives: whether memory still holds the
    old count, how many messages were noted since, and whether the receipts have
    reached the outbox. */
module ReceiptDisturbed {
  import opened Basics
  import opened ReceiptOutbox
  import opened ReceiptCommit
  import opened ReceiptSafety

  /** Every captured receipt is in `box` or was delivered. */
  ghost predicate AllIn(s: State, box: seq<Entry>) {
    forall i :: 0 <= i < |s.cap.entries| ==> s.cap.entries[i] in box || s.cap.entries[i] in s.delivered
  }

  /** Only those are that were asked for otherwise. */
  ghost predicate OnlyOthers(s: State, box: seq<Entry>) {
    forall i :: 0 <= i < |s.cap.entries| ==>
      s.cap.entries[i] in box || s.cap.entries[i] in s.delivered ==> s.cap.entries[i] in s.cap.others
  }

  /** Memory still holds what was unread before the read. */
  predicate Kept(s: State) { Count(s.mem.unread, s.cap.conversation) > s.cap.notes }

  /** Every captured receipt had been asked for otherwise. */
  ghost predicate Repeated(s: State) {
    forall i :: 0 <= i < |s.cap.entries| ==> s.cap.entries[i] in s.cap.others
  }

  /** The receipts move as one, and memory holds the old count or none of it. */
  ghost predicate Split(s: State) {
    s.disk.txn != [] ==>
      && (AllIn(s, s.disk.outbox) || OnlyOthers(s, s.disk.outbox))
      && (AllIn(s, s.mem.outbox) || OnlyOthers(s, s.mem.outbox))
      && (Kept(s) ==> s.cap.count <= Count(s.mem.unread, s.cap.conversation))
  }

  lemma BootSplit(s: State)
    requires Inv(s) && Split(s)
    ensures Split(Boot(s))
  {
  }

  lemma SaveOutboxSplit(s: State, next: Then, entries: seq<Entry>, fate: Fate)
    requires Inv(s) && Split(s) && s.pc == SaveOutbox(next, entries)
    ensures Split(SaveOutboxStep(s, next, entries, fate))
  {
    MergedMeans(s.mem.outbox, entries);
    if Merged(s.mem.outbox, entries).Some? {
      var box := Merged(s.mem.outbox, entries).value;
      forall i | 0 <= i < |s.cap.entries| ensures s.cap.entries[i] in box {
        assert s.cap.entries[i] in Elems(entries);
        assert s.cap.entries[i] in Elems(box);
      }
    }
  }

  lemma BeginSaveSplit(s: State, c: string, entries: seq<Entry>, fate: Fate)
    requires Inv(s) && Split(s) && s.pc == BeginSave(c, entries)
    ensures Split(BeginSaveStep(s, c, entries, fate))
  {
  }

  lemma RecoverySplit(s: State, fate: Fate)
    requires Split(s) && (s.pc.Recover? || s.pc.ClearTxn? || s.pc.ClearMarker?) && (s.pc.ClearMarker? ==> PcOk(s))
    ensures Split(Step(s, fate))
  {
  }

  lemma BeginSplit(s: State, fate: Fate)
    requires Split(s) && (s.pc.Idle? || s.pc.Collect? || s.pc.BeginClear? || s.pc.BeginUnmark?)
    ensures Split(Step(s, fate))
  {
  }

  lemma ClearSplit(s: State, fate: Fate)
    requires Split(s) && PcOk(s) && (s.pc.ClearUnread? || s.pc.Mark?)
    ensures Split(Step(s, fate))
  {
  }

  lemma NoteSplit(s: State, c: string, fate: Fate)
    requires Inv(s) && Split(s)
    ensures Split(NoteStep(s, c, fate))
  {
  }

  lemma QueueSplit(s: State, entry: Entry, fate: Fate)
    requires Tables(s) && Split(s)
    ensures Split(QueueStep(s, entry, fate))
  {
    OneMore(s.mem.outbox, entry);
  }

  lemma OneMore(box: seq<Entry>, entry: Entry)
    requires NoDup(box) && |box| <= OUTBOX_MAX
    ensures Merged(box, [entry]).Some? ==>
              forall e :: e in Merged(box, [entry]).value <==> e in box || e == entry
  {
    MergedMeans(box, [entry]);
    if Merged(box, [entry]).Some? {
      var more := Merged(box, [entry]).value;
      forall e ensures e in more <==> e in box || e == entry {
        assert e in Elems(more) <==> e in Elems(box) || e in Elems([entry]);
      }
    }
  }

  lemma FlushSplit(s: State, acked: set<Entry>, fate: Fate)
    requires Inv(s) && Split(s)
    ensures Split(FlushStep(s, acked, fate))
  {
    WithoutMeans(s.mem.outbox, acked * Elems(s.mem.outbox));
  }

  lemma NextSplit(s: State, e: Event)
    requires Inv(s) && Split(s)
    ensures Split(Next(s, e))
  {
    match e
    case Restart => BootSplit(s);
    case Go(fate) =>
      if s.pc.SaveOutbox? {
        SaveOutboxSplit(s, s.pc.next, s.pc.entries, fate);
      } else if s.pc.BeginSave? {
        BeginSaveSplit(s, s.pc.conversation, s.pc.entries, fate);
      } else if s.pc.Recover? || s.pc.ClearTxn? || s.pc.ClearMarker? {
        RecoverySplit(s, fate);
      } else if s.pc.ClearUnread? || s.pc.Mark? {
        ClearSplit(s, fate);
      } else {
        BeginSplit(s, fate);
      }
    case Note(c, fate) => if s.pc.Idle? { NoteSplit(s, c, fate); }
    case Queue(entry, fate) => if s.pc.Idle? { QueueSplit(s, entry, fate); }
    case Flush(acked, fate) => if s.pc.Idle? { FlushSplit(s, acked, fate); }
    case _ =>
  }

  lemma {:induction false} RunSplit(s: State, events: seq<Event>)
    requires Inv(s) && Split(s) && Quiet(s, events)
    ensures Inv(Run(s, events)) && Split(Run(s, events))
    decreases |events|
  {
    if events != [] {
      NextKeeps(s, events[0]);
      NextSplit(s, events[0]);
      RunSplit(Next(s, events[0]), events[1..]);
    }
  }

  lemma UntouchedMeans(s: State)
    requires Inv(s) && Split(s) && s.disk.txn != []
    ensures Untouched(s) <==> !AllIn(s, s.disk.outbox) || Repeated(s)
  {
    forall i | 0 <= i < |s.cap.entries|
      ensures s.cap.entries[i] in s.mem.outbox ==> Waits(s, s.cap.entries[i])
    {
    }
  }

  /** A count kept in memory covers what was captured, another counts no more than the notes. */
  lemma NotedCounts(s: State, c: string, fate: Fate)
    requires Split(s) && s.disk.txn != [] && s.pc.Idle?
    ensures var noted := Next(s, Note(c, fate));
            var count := Count(noted.mem.unread, s.cap.conversation);
            if Kept(s) then s.cap.count <= count else count <= noted.cap.notes
  {
  }

  /** The exact outcome of a disturbing message, for every run up to it.  The next
      recovery takes the read back, with the count the message wrote.  That is
      atomic as a rollback if the old count is covered and the receipts had not
      reached the outbox, as a commit if only what was noted since is counted and
      they had.  A count kept in memory is covered; one that was dropped is not
      counted. */
  lemma DisturbedOutcome(start: State, events: seq<Event>, c: string, fate: Fate)
    requires Settled(start) && Quiet(start, events) && Disturbs(Run(start, events), Note(c, fate))
    ensures var s := Run(start, events);
            var noted := Next(s, Note(c, fate));
            var after := Run(Next(noted, Retry), Dones(4));
            var count, queued := Count(noted.mem.unread, s.cap.conversation), AllIn(s, s.disk.outbox);
            && after.pc.Idle? && after.disk.txn == [] && Count(after.disk.unread, s.cap.conversation) == count
            && (RolledBack(after) <==> 0 < s.cap.count <= count && (!queued || Repeated(s)))
            && (Committed(after) <==> count <= noted.cap.notes && queued)
            && (if Kept(s) then s.cap.count <= count else count <= noted.cap.notes)
  {
    var s := Run(start, events);
    RunSplit(start, events);
    UntouchedMeans(s);
    NotedCounts(s, c, fate);
    DisturbedRecovery(s, c, fate);
  }
}
