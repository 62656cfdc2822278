/** What every run of the group file transfer keeps. */
module GroupTransferSafety {
  import opened Basics
  import opened GroupTransfer

  // --- The bytes --------------------------------------------------------------------

  predicate IsChunk(f: File, p: Packet) {
    p.Data? ==> p.offset + |p.bytes| <= |f.bytes| && p.bytes == f.bytes[p.offset..p.offset + |p.bytes|]
  }

  /** However the channel behaves, a slot holds exactly a prefix of the source,
      and what was stored is the whole of it. */
  ghost predicate Exact(f: File, p: Peer) {
    && (forall d :: d in p.toward ==> IsChunk(f, d))
    && p.out.offset <= |f.bytes|
    && (p.inn.slot.Some? ==> p.inn.slot.value.got <= f.bytes)
    && (p.inn.slot.Some? && p.inn.slot.value.completed ==> p.inn.stored == Some(f.bytes))
    && (p.inn.stored.Some? ==> p.inn.stored.value == f.bytes)
    && (p.out.doneSent <==> Finish in p.toward)
    && (p.inn.stored.Some? ==> p.out.doneSent)
    && (Ack in p.back ==> p.inn.stored.Some?)
    && (p.out.done ==> p.inn.stored.Some?)
  }

  lemma PumpStaysExact(f: File, p: Peer, e: Event)
    requires Exact(f, p) && e.Pump?
    ensures Exact(f, NextPeer(f, p, e))
  {
    forall d | d in PumpedPacket(f, p.out, e.attempt) ensures IsChunk(f, d) {
    }
  }

  lemma DataStaysExact(f: File, p: Peer, e: Event)
    requires Exact(f, p) && e.GetData?
    ensures Exact(f, NextPeer(f, p, e))
  {
    if e.data in p.toward && e.data.Data? && p.inn.slot.Some? && |p.inn.slot.value.got| == e.data.offset {
      assert IsChunk(f, e.data);
      var got := p.inn.slot.value.got;
      assert got + e.data.bytes == f.bytes[..|got| + |e.data.bytes|];
    }
  }

  lemma FinishStaysExact(f: File, p: Peer, e: Event)
    requires Exact(f, p) && e.GetFinish?
    ensures Exact(f, NextPeer(f, p, e))
  {
    if p.inn.slot.Some? && |p.inn.slot.value.got| == |f.bytes| {
      assert p.inn.slot.value.got == f.bytes[..|f.bytes|] == f.bytes;
    }
  }

  lemma HeardStaysExact(f: File, p: Peer, e: Event)
    requires Exact(f, p) && OfSender(e) && !e.Pump?
    ensures Exact(f, NextPeer(f, p, e))
  {
  }

  lemma RestStaysExact(f: File, p: Peer, e: Event)
    requires Exact(f, p) && !OfVerdict(e) && !OfSender(e) && !e.GetData? && !e.GetFinish?
    ensures Exact(f, NextPeer(f, p, e))
  {
  }

  lemma PeerStaysExact(f: File, p: Peer, e: Event)
    requires Exact(f, p) && !OfVerdict(e)
    ensures Exact(f, NextPeer(f, p, e))
  {
    match e
    case Pump(_, _) => PumpStaysExact(f, p, e);
    case GetData(_, _, _, _) => DataStaysExact(f, p, e);
    case GetFinish(_, _, _) => FinishStaysExact(f, p, e);
    case _ =>
      if OfSender(e) { HeardStaysExact(f, p, e); } else { RestStaysExact(f, p, e); }
  }

  ghost predicate AllExact(f: File, s: State) {
    forall i :: 0 <= i < |s.peers| ==> Exact(f, s.peers[i])
  }

  lemma StepStaysExact(f: File, s: State, e: Event)
    requires AllExact(f, s)
    ensures AllExact(f, Next(f, s, e)) && |Next(f, s, e).peers| == |s.peers|
  {
    if !OfVerdict(e) && e.i < |s.peers| {
      PeerStaysExact(f, s.peers[e.i], e);
    }
  }

  lemma {:induction false} RunStaysExact(f: File, s: State, events: seq<Event>)
    requires AllExact(f, s)
    ensures AllExact(f, Run(f, s, events)) && |Run(f, s, events).peers| == |s.peers|
    decreases |events|
  {
    if events != [] {
      StepStaysExact(f, s, events[0]);
      RunStaysExact(f, Next(f, s, events[0]), events[1..]);
    }
  }

  /** Under any loss, duplication and reordering a receiver holds a prefix of the
      source, a stored file is the whole source, and a recipient the sender
      counts done has stored it. */
  lemma ReceivedIsPrefix(f: File, n: nat, events: seq<Event>, i: nat)
    requires i < n
    ensures var s := Run(f, Start(n), events);
            && |s.peers| == n
            && (s.peers[i].inn.slot.Some? ==> s.peers[i].inn.slot.value.got <= f.bytes)
            && (s.peers[i].inn.stored.Some? ==> s.peers[i].inn.stored.value == f.bytes)
            && (s.peers[i].out.done ==> s.peers[i].inn.stored == Some(f.bytes))
  {
    RunStaysExact(f, Start(n), events);
  }

  // --- Agreement -----------------------------------------------------------------------

  /** Nothing the recipient does can belie the sender any more: it has
      acknowledged the file, it was never told that the file is complete and the
      sender has given up on it, or a verdict left it open. */
  predicate Settled(r: Recipient, over: bool) {
    r.done || if r.doneSent then over && !r.failed && !r.canceled else over || r.failed || r.canceled
  }

  predicate HasRefused(p: Peer) { Decline in p.back || Fail in p.back }

  /** After it stored the file the recipient opens or declines a duplicate of the
      offer; or, having declined or failed without a reservation, it opens one. */
  predicate OfferMisleads(p: Peer, how: OfferReaction) {
    && Offer in p.toward && p.inn.slot.None?
    && if p.inn.stored.Some? then how.Open? || (how.Refuse? && how.sent)
       else how.Open? && HasRefused(p) && !p.inn.reserved
  }

  /** Having declined or failed, it accepts a duplicate although the identifier is
      reserved, because the store has forgotten that. */
  predicate TakeMisleads(p: Peer, how: AcceptReaction, forgotten: bool) {
    && p.inn.slot.Some? && !p.inn.slot.value.accepted && p.inn.stored.None? && HasRefused(p)
    && how.Taken? && p.inn.reserved && forgotten
  }

  predicate Misleads(p: Peer, e: Event, over: bool) {
    && !Settled(p.out, over)
    && ((e.GetOffer? && OfferMisleads(p, e.offer)) || (e.Take? && TakeMisleads(p, e.accept, e.forgotten)))
  }

  predicate MisleadsAt(s: State, e: Event) {
    (e.GetOffer? || e.Take?) && e.i < |s.peers| && Misleads(s.peers[e.i], e, s.verdict.Some?)
  }

  /** No recipient does that. */
  ghost predicate Faithful(f: File, s: State, events: seq<Event>)
    decreases |events|
  {
    events == [] || (!MisleadsAt(s, events[0]) && Faithful(f, Next(f, s, events[0]), events[1..]))
  }

  /** What holds of a recipient that is not settled: once it has declined or
      failed it has neither the file nor more than a slot that a reservation keeps
      from being accepted, and the sender knows only what it was told. */
  predicate Honest(p: Peer) {
    && (HasRefused(p) ==> p.inn.stored.None? && (p.inn.slot.Some? ==> !p.inn.slot.value.accepted && p.inn.reserved))
    && (p.out.canceled ==> Decline in p.back)
    && (p.out.failed && p.out.doneSent ==> Fail in p.back)
    && (p.inn.slot.Some? ==> (p.inn.slot.value.completed <==> p.inn.stored.Some?))
  }

  ghost predicate Agreed(p: Peer, over: bool) {
    && (p.out.doneSent ==> p.out.accepted) && (p.out.done ==> p.out.doneSent)
    && (p.out.unknown ==> p.out.doneSent) && (p.out.offset > 0 ==> p.out.accepted)
    && (p.inn.slot.Some? && !p.inn.slot.value.accepted ==> p.inn.slot.value == Slot(false, false, []))
    && (Settled(p.out, over) || Honest(p))
  }

  /** The sender has given up on the recipient. */
  predicate Closed(r: Recipient, over: bool) {
    !r.done && (r.failed || r.canceled || (over && !r.doneSent))
  }

  lemma ClosedHasNothing(f: File, p: Peer, over: bool)
    requires Exact(f, p) && Agreed(p, over) && Closed(p.out, over)
    ensures p.inn.stored.None?
  {
  }

  lemma SenderStaysAgreed(f: File, p: Peer, e: Event)
    requires Exact(f, p) && Agreed(p, false) && OfSender(e)
    ensures Agreed(NextPeer(f, p, e), false)
  {
    match e
    case Hear(_, _, _) =>
    case Pump(_, _) =>
    case Expire(_) =>
    case Leave(_) =>
  }

  lemma ReceiverStaysAgreed(f: File, p: Peer, e: Event, over: bool)
    requires Exact(f, p) && Agreed(p, over) && !OfVerdict(e) && !OfSender(e) && !Misleads(p, e, over)
    ensures Agreed(NextPeer(f, p, e), over)
  {
  }

  lemma PeerStaysAgreed(f: File, p: Peer, e: Event, over: bool)
    requires Exact(f, p) && Agreed(p, over) && !OfVerdict(e) && !Misleads(p, e, over) && !(over && OfSender(e))
    ensures Agreed(NextPeer(f, p, e), over)
    ensures Closed(p.out, over) ==> Closed(NextPeer(f, p, e).out, over)
  {
    if OfSender(e) {
      SenderStaysAgreed(f, p, e);
    } else {
      ReceiverStaysAgreed(f, p, e, over);
    }
    if Closed(p.out, over) {
      ClosedHasNothing(f, p, over);
    }
  }

  ghost predicate Inv(f: File, s: State) {
    && AllExact(f, s)
    && forall i :: 0 <= i < |s.peers| ==> Agreed(s.peers[i], s.verdict.Some?)
  }

  /** A recipient given up stays so, and after the verdict the sender's side is as it was. */
  ghost predicate Final(s: State, r: State) {
    && |r.peers| == |s.peers| && (s.verdict.Some? ==> r.verdict == s.verdict)
    && forall i :: 0 <= i < |s.peers| ==>
         && (Closed(s.peers[i].out, s.verdict.Some?) ==> Closed(r.peers[i].out, r.verdict.Some?))
         && (s.verdict.Some? ==> r.peers[i].out == s.peers[i].out)
  }

  lemma VerdictKeeps(f: File, s: State, e: Event)
    requires Inv(f, s) && OfVerdict(e)
    ensures Inv(f, Next(f, s, e)) && Final(s, Next(f, s, e))
  {
    StepStaysExact(f, s, e);
  }

  lemma PeerKeeps(f: File, s: State, e: Event)
    requires Inv(f, s) && !OfVerdict(e) && e.i < |s.peers| && !MisleadsAt(s, e) && !(s.verdict.Some? && OfSender(e))
    ensures Inv(f, Next(f, s, e)) && Final(s, Next(f, s, e))
  {
    StepStaysExact(f, s, e);
    PeerStaysAgreed(f, s.peers[e.i], e, s.verdict.Some?);
  }

  lemma StepKeeps(f: File, s: State, e: Event)
    requires Inv(f, s) && !MisleadsAt(s, e)
    ensures Inv(f, Next(f, s, e)) && Final(s, Next(f, s, e))
  {
    if OfVerdict(e) {
      VerdictKeeps(f, s, e);
    } else if e.i < |s.peers| && !(s.verdict.Some? && OfSender(e)) {
      PeerKeeps(f, s, e);
    }
  }

  lemma {:induction false} RunKeeps(f: File, s: State, events: seq<Event>)
    requires Inv(f, s) && Faithful(f, s, events)
    ensures Inv(f, Run(f, s, events)) && Final(s, Run(f, s, events))
    decreases |events|
  {
    if events != [] {
      StepKeeps(f, s, events[0]);
      RunKeeps(f, Next(f, s, events[0]), events[1..]);
    }
  }

  lemma {:induction false} StoredStays(f: File, s: State, events: seq<Event>, i: nat)
    requires AllExact(f, s) && i < |s.peers| && s.peers[i].inn.stored.Some?
    ensures i < |Run(f, s, events).peers| && Run(f, s, events).peers[i].inn.stored == Some(f.bytes)
    decreases |events|
  {
    if events != [] {
      StepStaysExact(f, s, events[0]);
      StoredStays(f, Next(f, s, events[0]), events[1..], i);
    }
  }

  // --- What the sender reports ------------------------------------------------------------

  /** The sender's knowledge of a recipient is true of what the recipient holds later. */
  ghost predicate TrueLater(f: File, out: Recipient, stored: Option<seq<Byte>>) {
    && (out.done || Counted(out).Stored? ==> stored == Some(f.bytes))
    && (!out.done && (out.failed || out.canceled) ==> stored.None?)
    && (Counted(out).Failed? || Counted(out).Canceled? ==> stored.None?)
  }

  lemma TrueNow(f: File, p: Peer, over: bool)
    requires Exact(f, p) && Agreed(p, over)
    ensures (p.out.done || Counted(p.out).Stored? ==> p.inn.stored == Some(f.bytes))
    ensures Counted(p.out).Failed? || Counted(p.out).Canceled? ==> !p.out.done && (p.out.failed || p.out.canceled)
  {
  }

  lemma TrueFrom(f: File, s: State, after: seq<Event>, i: nat)
    requires Inv(f, s) && i < |s.peers| && Faithful(f, s, after)
    ensures |Run(f, s, after).peers| == |s.peers|
    ensures TrueLater(f, s.peers[i].out, Run(f, s, after).peers[i].inn.stored)
  {
    RunKeeps(f, s, after);
    TrueNow(f, s.peers[i], s.verdict.Some?);
    var r := Run(f, s, after);
    if s.peers[i].inn.stored.Some? {
      StoredStays(f, s, after, i);
    }
    if Closed(s.peers[i].out, s.verdict.Some?) {
      ClosedHasNothing(f, r.peers[i], r.verdict.Some?);
    }
  }

  /** What the sender knows of a recipient is what happened, and stays so: done,
      or counted stored, it has the file; failed or canceled without having
      acknowledged, or counted so, it never will. */
  lemma CountsAreTrue(f: File, n: nat, before: seq<Event>, after: seq<Event>, i: nat)
    requires i < n && Faithful(f, Start(n), before)
    requires Faithful(f, Run(f, Start(n), before), after)
    ensures var s := Run(f, Start(n), before);
            var r := Run(f, s, after);
            |s.peers| == |r.peers| == n && TrueLater(f, s.peers[i].out, r.peers[i].inn.stored)
  {
    RunKeeps(f, Start(n), before);
    TrueFrom(f, Run(f, Start(n), before), after, i);
  }

  /** The verdict does not leave the recipient open: it acknowledged the file, was
      never told that it is complete, declined or failed. */
  predicate Decided(r: Recipient) { r.done || !r.doneSent || r.failed || r.canceled }

  predicate LeavesOpen(c: Code) { c.PartialUnknown? || c.Undelivered? || c.LocalTrouble? }

  /** What a verdict claims.  "Done": somebody stored the file; without a code,
      every other recipient that had accepted canceled.  Only an uncertain delivery
      or local trouble leaves a recipient open.  A failure other than an uncertain
      delivery, or a withdrawal by every recipient: nobody has the file. */
  ghost predicate VerdictHolds(s: State) {
    s.verdict.Some? ==>
      var v := s.verdict.value;
      && (v.outcome.Final? ==> exists i :: 0 <= i < |s.peers| && s.peers[i].inn.stored.Some?)
      && (v.outcome.Final? && v.code.NoCode? ==>
            forall i :: 0 <= i < |s.peers| ==>
              s.peers[i].inn.stored.Some? || !s.peers[i].out.accepted || s.peers[i].out.canceled)
      && (!v.byUser && !LeavesOpen(v.code) ==> forall i :: 0 <= i < |s.peers| ==> Decided(s.peers[i].out))
      && (!v.byUser && !v.outcome.Final? && !v.code.Undelivered? ==>
            forall i :: 0 <= i < |s.peers| ==> s.peers[i].inn.stored.None? && Decided(s.peers[i].out))
  }

  lemma DecidedMeans(f: File, p: Peer)
    requires Exact(f, p) && Agreed(p, true) && Decided(p.out)
    ensures p.out.done <==> p.inn.stored.Some?
  {
  }

  lemma TallyHolds(f: File, s: State, late: bool, trouble: bool)
    requires Inv(f, s) && s.verdict.None?
    ensures var r := Next(f, s, Tally(late, trouble));
            && VerdictHolds(r)
            && (r.verdict.Some? ==>
                  forall i :: 0 <= i < |s.peers| && !Counted(s.peers[i].out).Unknown? ==> Decided(s.peers[i].out))
  {
    var rs := Outs(s.peers);
    forall i | 0 <= i < |rs|
      ensures Counted(rs[i]).Stored? ==> s.peers[i].inn.stored.Some?
      ensures Counted(rs[i]).Canceled? || Counted(rs[i]).Failed? || Counted(rs[i]).Pending? ==>
                s.peers[i].inn.stored.None?
      ensures !Counted(rs[i]).Unknown? && !Counted(rs[i]).Active? ==> Decided(rs[i])
    {
    }
  }

  lemma ExitHolds(f: File, s: State, trouble: bool)
    requires Inv(f, s) && s.verdict.None?
    ensures VerdictHolds(Next(f, s, SelfExit(trouble)))
  {
    var rs := Outs(s.peers);
    forall i | 0 <= i < |rs|
      ensures rs[i].done ==> s.peers[i].inn.stored.Some?
      ensures !rs[i].doneSent ==> s.peers[i].inn.stored.None?
    {
    }
  }

  lemma {:induction false} VerdictsHold(f: File, s: State, events: seq<Event>)
    requires Inv(f, s) && VerdictHolds(s) && Faithful(f, s, events)
    ensures VerdictHolds(Run(f, s, events))
    decreases |events|
  {
    if events != [] {
      var e := events[0];
      StepKeeps(f, s, e);
      if s.verdict.Some? {
        VerdictStays(f, s, e);
      } else {
        match e
        case Tally(late, trouble) => TallyHolds(f, s, late, trouble);
        case SelfExit(trouble) => ExitHolds(f, s, trouble);
        case _ =>
      }
      VerdictsHold(f, Next(f, s, e), events[1..]);
    }
  }

  lemma StoredTogether(f: File, s: State, r: State, i: nat)
    requires Inv(f, s) && Inv(f, r) && Final(s, r) && s.verdict.Some? && i < |s.peers| && Decided(s.peers[i].out)
    ensures r.peers[i].inn.stored == s.peers[i].inn.stored
  {
    DecidedMeans(f, s.peers[i]);
    DecidedMeans(f, r.peers[i]);
  }

  lemma VerdictStays(f: File, s: State, e: Event)
    requires Inv(f, s) && VerdictHolds(s) && s.verdict.Some? && !MisleadsAt(s, e)
    ensures VerdictHolds(Next(f, s, e))
  {
    StepKeeps(f, s, e);
    var r := Next(f, s, e);
    forall i | 0 <= i < |s.peers|
      ensures Decided(s.peers[i].out) ==> r.peers[i].inn.stored == s.peers[i].inn.stored
      ensures s.peers[i].inn.stored.Some? ==> r.peers[i].inn.stored.Some?
    {
      if Decided(s.peers[i].out) {
        StoredTogether(f, s, r, i);
      }
    }
    VerdictCarries(s, r);
  }

  lemma VerdictCarries(s: State, r: State)
    requires VerdictHolds(s) && s.verdict.Some? && Final(s, r)
    requires forall i :: 0 <= i < |s.peers| ==>
               && (Decided(s.peers[i].out) ==> r.peers[i].inn.stored == s.peers[i].inn.stored)
               && (s.peers[i].inn.stored.Some? ==> r.peers[i].inn.stored.Some?)
    ensures VerdictHolds(r)
  {
    if s.verdict.value.outcome.Final? {
      var i :| 0 <= i < |s.peers| && s.peers[i].inn.stored.Some?;
      assert r.peers[i].inn.stored.Some?;
    }
  }

  /** A verdict is never revised and stays true of what the recipients hold.
      Whatever happens afterwards, only the recipients it left open can still
      store the file. */
  lemma VerdictsAreTrue(f: File, n: nat, before: seq<Event>, after: seq<Event>)
    requires Faithful(f, Start(n), before)
    requires Faithful(f, Run(f, Start(n), before), after)
    ensures var s := Run(f, Start(n), before);
            var r := Run(f, s, after);
            && VerdictHolds(s) && VerdictHolds(r) && |r.peers| == |s.peers|
            && (s.verdict.Some? ==>
                  && r.verdict == s.verdict
                  && forall i :: 0 <= i < |s.peers| && Decided(s.peers[i].out) ==>
                       r.peers[i].inn.stored == s.peers[i].inn.stored)
  {
    var s := Run(f, Start(n), before);
    RunKeeps(f, Start(n), before);
    VerdictsHold(f, Start(n), before);
    RunKeeps(f, s, after);
    VerdictsHold(f, s, after);
    var r := Run(f, s, after);
    if s.verdict.Some? {
      forall i | 0 <= i < |s.peers| && Decided(s.peers[i].out)
        ensures r.peers[i].inn.stored == s.peers[i].inn.stored
      {
        StoredTogether(f, s, r, i);
      }
    }
  }

  /** The pump's verdict leaves open only the recipients it counts unknown. */
  lemma OnlyUnknownIsOpen(f: File, n: nat, before: seq<Event>, late: bool, trouble: bool, after: seq<Event>, i: nat)
    requires i < n && Faithful(f, Start(n), before) && Run(f, Start(n), before).verdict.None?
    requires var s := Run(f, Start(n), before);
             var t := Next(f, s, Tally(late, trouble));
             t.verdict.Some? && Faithful(f, t, after) && |s.peers| == n && !Counted(s.peers[i].out).Unknown?
    ensures var s := Run(f, Start(n), before);
            var r := Run(f, Next(f, s, Tally(late, trouble)), after);
            |r.peers| == n && r.peers[i].inn.stored == s.peers[i].inn.stored
  {
    var s := Run(f, Start(n), before);
    var t := Next(f, s, Tally(late, trouble));
    RunKeeps(f, Start(n), before);
    TallyHolds(f, s, late, trouble);
    StepKeeps(f, s, Tally(late, trouble));
    RunKeeps(f, t, after);
    StoredTogether(f, t, Run(f, t, after), i);
  }
}
