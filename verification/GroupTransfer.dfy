/** The group file transfer of helper/omaq.c: one sender, up to nine recipients,
    and a channel that loses, duplicates and reorders packets.  Every packet ever
    sent stays in the channel; delivering one is an event that may happen at any
    time, any number of times or never. */
module GroupTransfer {
  import opened Basics

  const RECIPIENT_MAX: nat := 9
  const DATA_MAX: nat := 1343

  type Byte = nat

  /** The file on offer; `hash` is left uninterpreted. */
  datatype File = File(bytes: seq<Byte>, hash: seq<Byte> -> int)

  datatype Packet = Offer | Data(offset: nat, bytes: seq<Byte>) | Finish | Withdraw
  datatype Reply = Accept | Ack | Decline | Fail

  /** What the sender knows of one recipient. */
  datatype Recipient = Recipient(
    accepted: bool, done: bool, doneSent: bool, canceled: bool, failed: bool, unknown: bool, offset: nat)
  {
    /** The recipients the pump still sends to. */
    predicate Eligible() {
      accepted && !done && !doneSent && !canceled && !failed && !unknown
    }
  }

  const INVITED := Recipient(false, false, false, false, false, false, 0)

  datatype Slot = Slot(accepted: bool, completed: bool, got: seq<Byte>)

  /** One recipient's side.  `stored` is the file its history refers to. */
  datatype Receiver = Receiver(slot: Option<Slot>, reserved: bool, stored: Option<seq<Byte>>)

  datatype Peer = Peer(out: Recipient, inn: Receiver, toward: set<Packet>, back: set<Reply>)

  datatype Outcome = Final | Failure | Withdrawn
  datatype Code = NoCode | PartialUnknown | PartialFailed | NoRecipient | Undelivered | AllFailed | PeerLeft | LocalTrouble
  datatype Verdict = Verdict(outcome: Outcome, code: Code, byUser: bool)

  datatype State = State(peers: seq<Peer>, verdict: Option<Verdict>)

  // --- The sender ----------------------------------------------------------------

  /** How one budget step of the pump fares with a recipient: its identity no
      longer matches or 30 s passed without progress, the read failed, the send
      was refused, would block, or went out. */
  datatype Attempt = Gone | ReadFailed | Refused | WouldBlock | Sent

  function ChunkLength(size: nat, offset: nat): nat
    requires offset < size
  {
    if size - offset > DATA_MAX then DATA_MAX else size - offset
  }

  function Pumped(size: nat, r: Recipient, a: Attempt): Recipient {
    if !r.Eligible() then r
    else if a.Gone? || a.Refused? || (a.ReadFailed? && r.offset < size) then r.(failed := true)
    else if !a.Sent? then r
    else if r.offset < size then r.(offset := r.offset + ChunkLength(size, r.offset))
    else r.(doneSent := true)
  }

  function Chunk(f: File, offset: nat): Packet
    requires offset < |f.bytes|
  {
    Data(offset, f.bytes[offset..offset + ChunkLength(|f.bytes|, offset)])
  }

  function PumpedPacket(f: File, r: Recipient, a: Attempt): set<Packet> {
    if !r.Eligible() || !a.Sent? then {}
    else if r.offset < |f.bytes| then {Chunk(f, r.offset)}
    else {Finish}
  }

  /** A recipient's answer reaches the sender. */
  function Heard(r: Recipient, reply: Reply, late: bool): Recipient {
    match reply
    case Accept => if late || r.accepted || r.canceled || r.failed then r else r.(accepted := true)
    case Ack => if r.doneSent then r.(done := true) else r
    case Decline => r.(canceled := true)
    case Fail => r.(failed := true)
  }

  function Left(r: Recipient): Recipient {
    if r.doneSent && !r.done then r.(unknown := true) else r.(failed := true)
  }

  function Expired(r: Recipient): Recipient {
    if r.accepted && r.doneSent then r.(unknown := true) else r
  }

  /** How the pump counts a recipient. */
  datatype Count = Stored | Unknown | Failed | Canceled | Active | Pending

  function Counted(r: Recipient): Count {
    if !r.accepted then (if r.failed then Failed else if r.canceled then Canceled else Pending)
    else if r.done then Stored
    else if r.unknown then Unknown
    else if r.failed then Failed
    else if r.canceled then Canceled
    else Active
  }

  predicate AnyCounted(rs: seq<Recipient>, c: Count) {
    exists i :: 0 <= i < |rs| && Counted(rs[i]) == c
  }

  predicate Started(rs: seq<Recipient>) {
    (exists i :: 0 <= i < |rs| && rs[i].accepted) || !AnyCounted(rs, Pending)
  }

  /** The pump's verdict, once nobody is left to wait for. */
  function PumpVerdict(rs: seq<Recipient>, late: bool, trouble: bool): Option<Verdict> {
    if !Started(rs) then (if late then Some(Verdict(Failure, NoRecipient, false)) else None)
    else if AnyCounted(rs, Active) || (AnyCounted(rs, Pending) && !late) then None
    else if !AnyCounted(rs, Stored) && !AnyCounted(rs, Canceled) && !AnyCounted(rs, Failed) && !AnyCounted(rs, Unknown)
    then None
    else if AnyCounted(rs, Stored) then
      Some(Verdict(Final, if trouble then LocalTrouble
                          else if AnyCounted(rs, Unknown) then PartialUnknown
                          else if AnyCounted(rs, Failed) then PartialFailed else NoCode, false))
    else if AnyCounted(rs, Unknown) then Some(Verdict(Failure, Undelivered, false))
    else if AnyCounted(rs, Failed) then Some(Verdict(Failure, AllFailed, false))
    else Some(Verdict(Withdrawn, NoCode, false))
  }

  /** The verdict when the sender itself leaves the group. */
  function ExitVerdict(rs: seq<Recipient>, trouble: bool): Verdict {
    var done := exists i :: 0 <= i < |rs| && rs[i].done;
    var uncertain := exists i :: 0 <= i < |rs| && !rs[i].done && rs[i].doneSent;
    var incomplete := exists i :: 0 <= i < |rs| && !rs[i].done && !rs[i].doneSent && rs[i].accepted && !rs[i].canceled;
    if done then
      Verdict(Final, if trouble then LocalTrouble else if uncertain then PartialUnknown
              else if incomplete then PartialFailed else NoCode, false)
    else Verdict(Failure, if uncertain then Undelivered else PeerLeft, false)
  }

  // --- A recipient ------------------------------------------------------------------

  datatype OfferReaction = Ignore | Refuse(sent: bool) | Open
  datatype AcceptReaction = Rejected(sent: bool) | NoFile | Unsent | Taken

  function Drop(r: Receiver): Receiver { r.(slot := None) }

  function Send(back: set<Reply>, sent: bool, reply: Reply): set<Reply> {
    if sent then back + {reply} else back
  }

  function ReceiveOffer(p: Peer, how: OfferReaction): Peer {
    if Offer !in p.toward || p.inn.slot.Some? then p
    else
      match how
      case Ignore => p
      case Refuse(sent) => p.(back := Send(p.back, sent, Decline))
      case Open => p.(inn := p.inn.(slot := Some(Slot(false, false, []))))
  }

  /** The user accepts.  An id already reserved is refused unless the store has
      forgotten it in the meantime. */
  function UserAccepts(p: Peer, how: AcceptReaction, forgotten: bool): Peer {
    if p.inn.slot.None? || p.inn.slot.value.accepted then p
    else if how.Rejected? || (p.inn.reserved && !forgotten) then
      p.(inn := Drop(p.inn), back := Send(p.back, how.Rejected? && how.sent, Decline))
    else
      var reserved := p.inn.(reserved := true);
      if how.Taken? then
        p.(inn := reserved.(slot := Some(p.inn.slot.value.(accepted := true))), back := p.back + {Accept})
      else p.(inn := Drop(reserved))
  }

  function UserCancels(p: Peer, sent: bool): Peer {
    if p.inn.slot.None? then p
    else p.(inn := Drop(p.inn), back := Send(p.back, sent, if p.inn.slot.value.completed then Ack else Decline))
  }

  function ReceiveData(f: File, p: Peer, data: Packet, sent: bool, trouble: bool): Peer {
    if data !in p.toward || !data.Data? || p.inn.slot.None? || p.inn.slot.value.completed then p
    else
      var slot := p.inn.slot.value;
      if trouble || !slot.accepted || data.offset != |slot.got| || |slot.got| + |data.bytes| > |f.bytes| then
        p.(inn := Drop(p.inn), back := Send(p.back, sent, Fail))
      else p.(inn := p.inn.(slot := Some(slot.(got := slot.got + data.bytes))))
  }

  function ReceiveFinish(f: File, p: Peer, sent: bool, trouble: bool): Peer {
    if Finish !in p.toward || p.inn.slot.None? then p
    else
      var slot := p.inn.slot.value;
      var whole := |slot.got| == |f.bytes| && f.hash(slot.got) == f.hash(f.bytes);
      if !slot.completed && (trouble || !slot.accepted || !whole) then
        p.(inn := Drop(p.inn), back := Send(p.back, sent, Fail))
      else
        p.(inn := p.inn.(stored := if slot.completed then p.inn.stored else Some(slot.got),
                         slot := if sent then None else Some(slot.(completed := true))),
           back := Send(p.back, sent, Ack))
  }

  function ReceiveWithdraw(p: Peer, sent: bool): Peer {
    if Withdraw !in p.toward || p.inn.slot.None? then p
    else p.(inn := Drop(p.inn), back := Send(p.back, sent && p.inn.slot.value.completed, Ack))
  }

  function TimesOut(p: Peer, sent: bool): Peer {
    if p.inn.slot.None? then p
    else
      var slot := p.inn.slot.value;
      p.(inn := Drop(p.inn), back := Send(p.back, sent && !slot.completed && slot.accepted, Fail))
  }

  function RetriesAck(p: Peer, blocked: bool, sent: bool): Peer {
    if p.inn.slot.None? || !p.inn.slot.value.completed || blocked then p
    else p.(inn := Drop(p.inn), back := Send(p.back, sent, Ack))
  }

  // --- Events and runs -----------------------------------------------------------------

  datatype Event =
    | Hear(i: nat, reply: Reply, late: bool)
    | Pump(i: nat, attempt: Attempt)
    | Expire(i: nat)
    | Leave(i: nat)
    | Tally(late: bool, trouble: bool)
    | SelfExit(trouble: bool)
    | UserWithdraws(sent: bool)
    | GetOffer(i: nat, offer: OfferReaction)
    | Take(i: nat, accept: AcceptReaction, forgotten: bool)
    | GiveUp(i: nat, sent: bool)
    | GetData(i: nat, data: Packet, sent: bool, trouble: bool)
    | GetFinish(i: nat, sent: bool, trouble: bool)
    | GetWithdraw(i: nat, sent: bool)
    | TimeOut(i: nat, sent: bool)
    | RetryAck(i: nat, blocked: bool, sent: bool)
    | LoseSlot(i: nat)

  predicate OfSender(e: Event) { e.Hear? || e.Pump? || e.Expire? || e.Leave? }
  predicate OfVerdict(e: Event) { e.Tally? || e.SelfExit? || e.UserWithdraws? }

  function NextOut(size: nat, r: Recipient, e: Event): Recipient
    requires OfSender(e)
  {
    match e
    case Hear(_, reply, late) => Heard(r, reply, late)
    case Pump(_, a) => Pumped(size, r, a)
    case Expire(_) => Expired(r)
    case Leave(_) => Left(r)
  }

  /** What an event does to the peer it concerns. */
  function NextPeer(f: File, p: Peer, e: Event): Peer
    requires !OfVerdict(e)
  {
    match e
    case Hear(_, reply, _) => if reply in p.back then p.(out := NextOut(|f.bytes|, p.out, e)) else p
    case Pump(_, a) => p.(out := NextOut(|f.bytes|, p.out, e), toward := p.toward + PumpedPacket(f, p.out, a))
    case Expire(_) => p.(out := NextOut(|f.bytes|, p.out, e))
    case Leave(_) => p.(out := NextOut(|f.bytes|, p.out, e))
    case GetOffer(_, how) => ReceiveOffer(p, how)
    case Take(_, how, forgotten) => UserAccepts(p, how, forgotten)
    case GiveUp(_, sent) => UserCancels(p, sent)
    case GetData(_, data, sent, trouble) => ReceiveData(f, p, data, sent, trouble)
    case GetFinish(_, sent, trouble) => ReceiveFinish(f, p, sent, trouble)
    case GetWithdraw(_, sent) => ReceiveWithdraw(p, sent)
    case TimeOut(_, sent) => TimesOut(p, sent)
    case RetryAck(_, blocked, sent) => RetriesAck(p, blocked, sent)
    case LoseSlot(_) => p.(inn := Drop(p.inn))
  }

  function Outs(peers: seq<Peer>): (rs: seq<Recipient>)
    ensures |rs| == |peers| && forall i :: 0 <= i < |rs| ==> rs[i] == peers[i].out
  {
    seq(|peers|, i requires 0 <= i < |peers| => peers[i].out)
  }

  function Withdrawing(peers: seq<Peer>, sent: bool): (r: seq<Peer>)
    ensures |r| == |peers|
    ensures forall i :: 0 <= i < |r| ==>
              r[i] == if sent then peers[i].(toward := peers[i].toward + {Withdraw}) else peers[i]
  {
    seq(|peers|, i requires 0 <= i < |peers| =>
      if sent then peers[i].(toward := peers[i].toward + {Withdraw}) else peers[i])
  }

  function Next(f: File, s: State, e: Event): State {
    if OfVerdict(e) then
      if s.verdict.Some? then s
      else
        match e
        case Tally(late, trouble) => s.(verdict := PumpVerdict(Outs(s.peers), late, trouble))
        case SelfExit(trouble) => s.(verdict := Some(ExitVerdict(Outs(s.peers), trouble)))
        case UserWithdraws(sent) =>
          State(Withdrawing(s.peers, sent), Some(Verdict(Withdrawn, NoCode, true)))
    else if e.i >= |s.peers| || (OfSender(e) && s.verdict.Some?) then s
    else s.(peers := s.peers[e.i := NextPeer(f, s.peers[e.i], e)])
  }

  function Run(f: File, s: State, events: seq<Event>): State
    decreases |events|
  {
    if events == [] then s else Run(f, Next(f, s, events[0]), events[1..])
  }

  const UNTOUCHED: Peer := Peer(INVITED, Receiver(None, false, None), {Offer}, {})

  /** The transfer as it is right after the offer went out to `n` recipients. */
  function Start(n: nat): (s: State)
    ensures |s.peers| == n && s.verdict.None?
    ensures forall i :: 0 <= i < n ==> s.peers[i] == UNTOUCHED
  {
    State(seq(n, i => UNTOUCHED), None)
  }
}
