/** What a duplicate of the offer can do.  The condition under which the sender's
    counts are true of every run is exact: where it fails, some continuation
    without another duplicate ends with a recipient the sender has given up on
    that has stored the file. */
module GroupTransferDuplicates {
  import opened Basics
  import opened GroupTransfer
  import opened GroupTransferSafety
  import opened GroupTransferLiveness

  /** The recipient has the file although it is reported failed or canceled. */
  ghost predicate Belied(f: File, p: Peer) {
    p.inn.stored == Some(f.bytes) && !p.out.done && (p.out.failed || p.out.canceled)
  }

  ghost predicate Miscounted(p: Peer) {
    p.inn.stored.Some? && (Counted(p.out).Failed? || Counted(p.out).Canceled?)
  }

  /** No further offer arrives and the store forgets no identifier. */
  predicate Calm(events: seq<Event>) {
    forall e :: e in events ==> !e.GetOffer? && (e.Take? ==> !e.forgotten)
  }

  /** The sender hears the refusal or failure that is on its way. */
  lemma HearsRefusal(f: File, p: Peer, i: nat) returns (events: seq<Event>)
    requires Exact(f, p) && p.inn.stored.Some? && !p.out.done && p.out.accepted && (Decline in p.back || Fail in p.back)
    ensures Only(events, i) && Calm(events)
    ensures var q := PeerAfter(f, p, events, i); Belied(f, q) && (!p.out.unknown ==> Miscounted(q))
  {
    var e := Hear(i, if Decline in p.back then Decline else Fail, false);
    OneEvent(f, p, e, i);
    events := [e];
  }

  /** A recipient that has stored the file declines a duplicate. */
  lemma StoredDeclines(f: File, p: Peer, i: nat) returns (events: seq<Event>)
    requires Exact(f, p) && p.inn.stored.Some? && !p.out.done && p.out.accepted
    requires Decline in p.back || p.inn.slot == Some(Slot(false, false, []))
    ensures Only(events, i) && Calm(events)
    ensures var q := PeerAfter(f, p, events, i); Belied(f, q) && (!p.out.unknown ==> Miscounted(q))
  {
    if Decline in p.back {
      events := HearsRefusal(f, p, i);
    } else {
      var a := GiveUp(i, true);
      OneEvent(f, p, a, i);
      PeerStaysExact(f, p, a);
      var more := HearsRefusal(f, NextPeer(f, p, a), i);
      PeerAfterAppend(f, p, [a], more, i);
      events := [a] + more;
    }
  }

  const ACCEPTED: Slot := Slot(true, false, [])

  /** The sender still serves the recipient that has accepted, so that everything
      gets into the channel. */
  lemma GetsServed(f: File, p: Peer, i: nat) returns (events: seq<Event>)
    requires Supplied(f, p) && p.inn.slot == Some(ACCEPTED) && Accept in p.back
    requires !p.out.doneSent && !p.out.done && !p.out.unknown && !p.out.failed && !p.out.canceled
    ensures Only(events, i) && Calm(events)
    ensures var q := PeerAfter(f, p, events, i);
            && Supplied(f, q) && q.back == p.back && q.inn == p.inn && q.out.doneSent && q.out.accepted
            && !q.out.done && !q.out.unknown
  {
    var a := Hear(i, Accept, false);
    var q := NextPeer(f, p, a);
    OneEvent(f, p, a, i);
    PeerStaysSupplied(f, p, a);
    var more := PumpsAll(f, q, i);
    PeerAfterAppend(f, p, [a], more, i);
    events := [a] + more;
  }

  /** Having accepted, the recipient stores the file, and before the verdict the
      sender hears of its earlier refusal. */
  lemma AcceptedTakes(f: File, p: Peer, i: nat, over: bool) returns (events: seq<Event>)
    requires Exact(f, p) && Supplied(f, p) && p.inn.slot == Some(ACCEPTED) && Accept in p.back && HasRefused(p)
    requires !p.out.done && (p.out.doneSent ==> p.out.accepted)
    requires if over then p.out.doneSent && (p.out.failed || p.out.canceled)
             else p.out.doneSent || (!p.out.unknown && !p.out.failed && !p.out.canceled)
    ensures Only(events, i) && Calm(events) && (over ==> OfReceiver(events))
    ensures var q := PeerAfter(f, p, events, i); Belied(f, q) && (!p.out.unknown ==> Miscounted(q))
  {
    var a, q := [], p;
    if !p.out.doneSent {
      a := GetsServed(f, p, i);
      q := PeerAfter(f, p, a, i);
    }
    assert f.bytes[..0] == [];
    var b := Stores(f, q, i);
    var r := PeerAfter(f, q, b, i);
    PeerAfterAppend(f, p, a, b, i);
    events := a + b;
    if !over {
      AfterStaysExact(f, p, events, i);
      var more := HearsRefusal(f, r, i);
      PeerAfterAppend(f, p, events, more, i);
      events := events + more;
    }
  }

  lemma {:induction false} AfterStaysExact(f: File, p: Peer, events: seq<Event>, i: nat)
    requires Exact(f, p) && Only(events, i)
    ensures Exact(f, PeerAfter(f, p, events, i))
    decreases |events|
  {
    if events != [] {
      PeerStaysExact(f, p, events[0]);
      AfterStaysExact(f, NextPeer(f, p, events[0]), events[1..], i);
    }
  }

  /** The recipient opened the duplicate without a reservation, and accepts it. */
  lemma OpenedTakes(f: File, p: Peer, i: nat, over: bool) returns (events: seq<Event>)
    requires Exact(f, p) && Supplied(f, p) && p.inn.slot == Some(Slot(false, false, [])) && !p.inn.reserved && HasRefused(p)
    requires !p.out.done && (p.out.doneSent ==> p.out.accepted)
    requires if over then p.out.doneSent && (p.out.failed || p.out.canceled)
             else p.out.doneSent || (!p.out.unknown && !p.out.failed && !p.out.canceled)
    ensures Only(events, i) && Calm(events) && (over ==> OfReceiver(events))
    ensures var q := PeerAfter(f, p, events, i); Belied(f, q) && (!p.out.unknown ==> Miscounted(q))
  {
    var a := Take(i, Taken, false);
    OneEvent(f, p, a, i);
    PeerStaysExact(f, p, a);
    PeerStaysSupplied(f, p, a);
    var more := AcceptedTakes(f, NextPeer(f, p, a), i, over);
    PeerAfterAppend(f, p, [a], more, i);
    events := [a] + more;
  }

  lemma PeerMisreports(f: File, p: Peer, e: Event, i: nat, over: bool) returns (events: seq<Event>)
    requires Exact(f, p) && Supplied(f, p) && Agreed(p, over) && Misleads(p, e, over)
    ensures Only(events, i) && Calm(events) && (over ==> OfReceiver(events))
    ensures var q := PeerAfter(f, NextPeer(f, p, e), events, i); Belied(f, q) && (!p.out.unknown ==> Miscounted(q))
  {
    var q := NextPeer(f, p, e);
    PeerStaysExact(f, p, e);
    PeerStaysSupplied(f, p, e);
    if p.inn.stored.Some? {
      events := StoredDeclines(f, q, i);
    } else if e.Take? {
      events := AcceptedTakes(f, q, i, over);
    } else {
      events := OpenedTakes(f, q, i, over);
    }
  }

  /** The condition is exact: from any state a run without misleading reactions
      reaches, a misleading one has a continuation, with no further offer and nothing
      further forgotten in it, that belies the sender. */
  lemma MisleadingMisreports(f: File, n: nat, before: seq<Event>, e: Event) returns (after: seq<Event>)
    requires Faithful(f, Start(n), before) && MisleadsAt(Run(f, Start(n), before), e)
    ensures Calm(after)
    ensures var s := Run(f, Start(n), before);
            var r := Run(f, Next(f, s, e), after);
            && e.i < |s.peers| == |r.peers| && r.verdict == s.verdict
            && Belied(f, r.peers[e.i]) && (!s.peers[e.i].out.unknown ==> Miscounted(r.peers[e.i]))
  {
    var s := Run(f, Start(n), before);
    RunKeeps(f, Start(n), before);
    RunStaysSupplied(f, Start(n), before);
    after := PeerMisreports(f, s.peers[e.i], e, e.i, s.verdict.Some?);
    OthersStay(f, Next(f, s, e), after, e.i);
  }

  /** Both directions at once: after a run without misleading reactions, one more can
      be continued to belie the sender exactly when it misleads. */
  lemma DuplicatesAreHarmlessIff(f: File, n: nat, before: seq<Event>, e: Event)
    requires Faithful(f, Start(n), before) && (e.GetOffer? || e.Take?) && e.i < n
    ensures MisleadsAt(Run(f, Start(n), before), e) <==>
            exists after :: Misreports(f, Run(f, Start(n), before), e, after)
  {
    var s := Run(f, Start(n), before);
    RunKeeps(f, Start(n), before);
    if MisleadsAt(s, e) {
      var after := MisleadingMisreports(f, n, before, e);
      assert Misreports(f, s, e, after);
    } else {
      forall after | Calm(after) ensures !Misreports(f, s, e, after) {
        StepKeeps(f, s, e);
        CalmIsFaithful(f, Next(f, s, e), after);
        RunKeeps(f, Next(f, s, e), after);
        var r := Run(f, Next(f, s, e), after);
        if Closed(r.peers[e.i].out, r.verdict.Some?) {
          ClosedHasNothing(f, r.peers[e.i], r.verdict.Some?);
        }
      }
    }
  }

  /** After the recipient's reaction some calm events belie the sender. */
  ghost predicate Misreports(f: File, s: State, e: Event, after: seq<Event>)
    requires e.GetOffer? || e.Take?
  {
    var r := Run(f, Next(f, s, e), after);
    Calm(after) && e.i < |r.peers| && Belied(f, r.peers[e.i])
  }

  lemma {:induction false} CalmIsFaithful(f: File, s: State, events: seq<Event>)
    requires Calm(events)
    ensures Faithful(f, s, events)
    decreases |events|
  {
    if events != [] {
      CalmIsFaithful(f, Next(f, s, events[0]), events[1..]);
    }
  }

  /** The verdict can be belied as well, whatever the file: the only recipient
      declines, takes a duplicate and stores the file, and the sender reports that
      nobody has it. */
  lemma DuplicateOfferMisleads(f: File) returns (events: seq<Event>)
    ensures var r := Run(f, Start(1), events);
            && |r.peers| == 1 && r.peers[0].inn.stored == Some(f.bytes)
            && r.verdict.Some? && !r.verdict.value.byUser && !r.verdict.value.outcome.Final?
            && !r.verdict.value.code.Undelivered? && !VerdictHolds(r)
  {
    var open := GetOffer(0, Open);
    var before := [open, GiveUp(0, true)];
    OffersDeclined(f);
    var after := MisleadingMisreports(f, 1, before, open);
    var t := Run(f, Next(f, Run(f, Start(1), before), open), after);
    TallyBelied(f, t);
    events := before + ([open] + (after + [Tally(true, false)]));
    RunAppend(f, Start(1), before, [open] + (after + [Tally(true, false)]));
    RunAppend(f, Run(f, Start(1), before), [open], after + [Tally(true, false)]);
    SingleEvent(f, Run(f, Start(1), before), open);
    RunAppend(f, Next(f, Run(f, Start(1), before), open), after, [Tally(true, false)]);
    SingleEvent(f, t, Tally(true, false));
  }

  lemma SingleEvent(f: File, s: State, e: Event)
    ensures Run(f, s, [e]) == Next(f, s, e)
  {
    assert [e][1..] == [];
  }

  /** The only recipient has declined and meets a duplicate. */
  lemma OffersDeclined(f: File)
    ensures var before := [GetOffer(0, Open), GiveUp(0, true)];
            var s := Run(f, Start(1), before);
            && Faithful(f, Start(1), before) && |s.peers| == 1 && s.verdict.None?
            && s.peers[0] == UNTOUCHED.(back := {Decline}) && MisleadsAt(s, GetOffer(0, Open))
  {
    var a, b := GetOffer(0, Open), GiveUp(0, true);
    assert [a, b][1..] == [b];
    SingleEvent(f, Next(f, Start(1), a), b);
    assert Faithful(f, Next(f, Start(1), a), [b]);
  }

  lemma TallyBelied(f: File, t: State)
    requires |t.peers| == 1 && t.verdict.None? && Belied(f, t.peers[0]) && Miscounted(t.peers[0])
    ensures var r := Next(f, t, Tally(true, false));
            && r.peers == t.peers && r.verdict.Some? && !r.verdict.value.byUser && !r.verdict.value.outcome.Final?
            && !r.verdict.value.code.Undelivered? && !VerdictHolds(r)
  {
    assert Outs(t.peers)[0] == t.peers[0].out;
  }
}
