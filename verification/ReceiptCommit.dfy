/** Marking a conversation read (helper/omaq.c): the unread map, the receipt
    outbox, the transaction file and its committed marker are written one after
    the other, and a recovery infers from them how far it got.  A restart may
    strike between any two writes, those of the recovery included. */
module ReceiptCommit {
  import opened Basics
  import opened ReceiptOutbox

  const UNREAD_MAX: nat := 999999

  type Unread = map<string, nat>

  function Count(u: Unread, conversation: string): nat {
    if conversation in u then u[conversation] else 0
  }

  function Increment(u: Unread, conversation: string): Unread {
    var n := Count(u, conversation);
    u[conversation := if n < UNREAD_MAX then n + 1 else n]
  }

  datatype Disk = Disk(unread: Unread, outbox: seq<Entry>, txn: seq<Entry>, committed: bool)

  datatype Memory = Memory(unread: Unread, outbox: seq<Entry>)

  /** What the recovery was called for. */
  datatype Then = Stop | GoOn(conversation: string, ids: seq<string>) | Finish

  datatype Pc =
    | Idle
    | Recover(next: Then)
    | SaveOutbox(next: Then, entries: seq<Entry>)
    | ClearTxn(next: Then, adopt: bool)
    | ClearMarker(next: Then, adopt: bool)
    | Collect(conversation: string, ids: seq<string>)
    | BeginClear(conversation: string, entries: seq<Entry>)
    | BeginUnmark(conversation: string, entries: seq<Entry>)
    | BeginSave(conversation: string, entries: seq<Entry>)
    | ClearUnread(conversation: string, entries: seq<Entry>)
    | Mark(conversation: string, entries: seq<Entry>)

  /** History: the latest transaction as it was written, and since then the
      messages noted on its conversation and the receipts queued by request. */
  datatype Capture = Capture(conversation: string, entries: seq<Entry>, count: nat, others: set<Entry>, notes: nat)

  /** History besides: `queued` holds every receipt an outbox write reported
      done, `delivered` every receipt its recipient acknowledged. */
  datatype State = State(disk: Disk, mem: Memory, pc: Pc, cap: Capture, queued: set<Entry>, delivered: set<Entry>)

  datatype Event =
    | Restart
    | Go(fate: Fate)
    | Retry
    | Read(conversation: string, ids: seq<string>)
    | Note(conversation: string, fate: Fate)
    | Queue(entry: Entry, fate: Fate)
    | Flush(acked: set<Entry>, fate: Fate)

  /** The recovery takes the transaction as committed. */
  predicate Decided(d: Disk) {
    d.txn != [] && (d.committed || Count(d.unread, d.txn[0].conversation) == 0)
  }

  predicate OneConversation(es: seq<Entry>) {
    forall i :: 0 <= i < |es| ==> es[i].conversation == es[0].conversation
  }

  function Entries(conversation: string, ids: seq<string>): (es: seq<Entry>)
    ensures |es| == |ids|
    ensures forall i :: 0 <= i < |es| ==> es[i] == Entry(conversation, ids[i])
  {
    seq(|ids|, i requires 0 <= i < |ids| => Entry(conversation, ids[i]))
  }

  function To(s: State, pc: Pc): State { s.(pc := pc) }

  function Boot(s: State): State {
    s.(mem := Memory(s.disk.unread, s.disk.outbox), pc := Recover(Stop))
  }

  // --- The writes ---------------------------------------------------------------------

  /** Saves the outbox with `entries` added; `ok` says whether that was reported done. */
  function OutboxWrite(s: State, entries: seq<Entry>, fate: Fate): (State, bool) {
    match Merged(s.mem.outbox, entries)
    case None => (s, false)
    case Some(box) =>
      var changed := box != s.mem.outbox;
      var done := !changed || fate.Done?;
      (s.(disk := s.disk.(outbox := if changed && fate.Effective() then box else s.disk.outbox),
          mem := s.mem.(outbox := if done then box else s.mem.outbox),
          queued := if done then s.queued + Elems(entries) else s.queued), done)
  }

  function WriteTxn(s: State, txn: seq<Entry>, fate: Fate): State {
    if fate.Effective() then s.(disk := s.disk.(txn := txn)) else s
  }

  function WriteMarker(s: State, marker: bool, fate: Fate): State {
    if fate.Effective() then s.(disk := s.disk.(committed := marker)) else s
  }

  function WriteUnread(s: State, unread: Unread, fate: Fate): State {
    if fate.Effective() then s.(disk := s.disk.(unread := unread)) else s
  }

  // --- One step per program counter ---------------------------------------------------

  function RecoverStep(s: State, next: Then, fate: Fate): State {
    if !fate.Done? then To(s, Idle)
    else if s.disk.txn == [] then To(s, ClearTxn(next, false))
    else if !OneConversation(s.disk.txn) then To(s, Idle)
    else if Decided(s.disk) then To(s, SaveOutbox(next, s.disk.txn))
    else To(s, ClearTxn(next, true))
  }

  function SaveOutboxStep(s: State, next: Then, entries: seq<Entry>, fate: Fate): State {
    var (after, ok) := OutboxWrite(s, entries, fate);
    To(after, if ok then ClearTxn(next, !next.Finish?) else Idle)
  }

  function ClearTxnStep(s: State, next: Then, adopt: bool, fate: Fate): State {
    To(WriteTxn(s, [], fate), if fate.Done? then ClearMarker(next, adopt) else Idle)
  }

  function ClearMarkerStep(s: State, next: Then, adopt: bool, fate: Fate): State {
    var after := WriteMarker(s, false, fate);
    if !fate.Done? then To(after, Idle)
    else
      To(if adopt then after.(mem := after.mem.(unread := after.disk.unread)) else after,
         if next.GoOn? then Collect(next.conversation, next.ids) else Idle)
  }

  /** `ids`: what the history holds unread. */
  function CollectStep(s: State, conversation: string, ids: seq<string>, fate: Fate): State {
    var entries := if Count(s.mem.unread, conversation) == 0 then [] else Entries(conversation, ids);
    if !fate.Done? then To(s, Idle)
    else if entries == [] then To(s, ClearUnread(conversation, []))
    else if Merged(s.mem.outbox, entries).None? || !NoDup(entries) then To(s, Idle)
    else To(s, BeginClear(conversation, entries))
  }

  function BeginSaveStep(s: State, conversation: string, entries: seq<Entry>, fate: Fate): State {
    var captured := s.(cap := Capture(conversation, entries, Count(s.disk.unread, conversation),
                                      Elems(s.disk.outbox) + Elems(s.mem.outbox) + s.delivered, 0));
    To(WriteTxn(captured, entries, fate), if fate.Done? then ClearUnread(conversation, entries) else Idle)
  }

  function ClearUnreadStep(s: State, conversation: string, entries: seq<Entry>, fate: Fate): State {
    var cleared := s.mem.unread - {conversation};
    var after := WriteUnread(s, cleared, fate);
    if !fate.Done? then To(after, if entries == [] then Idle else Recover(Stop))
    else To(after.(mem := after.mem.(unread := cleared)), if entries == [] then Idle else Mark(conversation, entries))
  }

  function MarkStep(s: State, entries: seq<Entry>, fate: Fate): State {
    To(WriteMarker(s, true, fate), if fate.Done? then SaveOutbox(Finish, entries) else Idle)
  }

  function Step(s: State, fate: Fate): State {
    match s.pc
    case Idle => s
    case Recover(next) => RecoverStep(s, next, fate)
    case SaveOutbox(next, entries) => SaveOutboxStep(s, next, entries, fate)
    case ClearTxn(next, adopt) => ClearTxnStep(s, next, adopt, fate)
    case ClearMarker(next, adopt) => ClearMarkerStep(s, next, adopt, fate)
    case Collect(c, ids) => CollectStep(s, c, ids, fate)
    case BeginClear(c, entries) => To(WriteTxn(s, [], fate), if fate.Done? then BeginUnmark(c, entries) else Idle)
    case BeginUnmark(c, entries) => To(WriteMarker(s, false, fate), if fate.Done? then BeginSave(c, entries) else Idle)
    case BeginSave(c, entries) => BeginSaveStep(s, c, entries, fate)
    case ClearUnread(c, entries) => ClearUnreadStep(s, c, entries, fate)
    case Mark(c, entries) => MarkStep(s, entries, fate)
  }

  // --- What may come between ------------------------------------------------------------

  /** A message arrives; the whole map is written. */
  function NoteStep(s: State, conversation: string, fate: Fate): State {
    var unread := Increment(s.mem.unread, conversation);
    var noted := if conversation == s.cap.conversation then s.cap.(notes := s.cap.notes + 1) else s.cap;
    WriteUnread(s.(mem := s.mem.(unread := unread), cap := noted), unread, fate)
  }

  function QueueStep(s: State, entry: Entry, fate: Fate): State {
    OutboxWrite(s.(cap := s.cap.(others := s.cap.others + {entry})), [entry], fate).0
  }

  /** Receipts the recipients acknowledged leave the outbox. */
  function FlushStep(s: State, acked: set<Entry>, fate: Fate): State {
    var gone := acked * Elems(s.mem.outbox);
    if gone == {} then s
    else
      var box := Without(s.mem.outbox, gone);
      s.(disk := s.disk.(outbox := if fate.Effective() then box else s.disk.outbox),
         mem := s.mem.(outbox := if fate.Done? then box else s.mem.outbox),
         delivered := s.delivered + gone)
  }

  function Next(s: State, e: Event): State {
    match e
    case Restart => Boot(s)
    case Go(fate) => Step(s, fate)
    case Retry => if s.pc.Idle? then To(s, Recover(Stop)) else s
    case Read(c, ids) => if s.pc.Idle? then To(s, Recover(GoOn(c, ids))) else s
    case Note(c, fate) => if s.pc.Idle? then NoteStep(s, c, fate) else s
    case Queue(entry, fate) => if s.pc.Idle? then QueueStep(s, entry, fate) else s
    case Flush(acked, fate) => if s.pc.Idle? then FlushStep(s, acked, fate) else s
  }

  function Run(s: State, events: seq<Event>): State
    decreases |events|
  {
    if events == [] then s else Run(Next(s, events[0]), events[1..])
  }

  /** A freshly started helper: no transaction, perhaps a marker left over. */
  predicate Settled(s: State) {
    && s.pc == Idle
    && s.disk.txn == []
    && s.mem == Memory(s.disk.unread, s.disk.outbox)
    && NoDup(s.disk.outbox) && |s.disk.outbox| <= OUTBOX_MAX
    && s.cap == Capture("", [], 0, {}, 0)
    && s.queued == s.delivered == {}
  }
}
