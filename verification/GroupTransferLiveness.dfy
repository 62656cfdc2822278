/** A transfer that nothing disturbs reaches every recipient, whatever its size. */
module GroupTransferLiveness {
  import opened Basics
  import opened GroupTransfer
  import opened GroupTransferSafety

  /** Events that concern recipient `i` alone. */
  predicate Only(events: seq<Event>, i: nat) {
    forall k :: 0 <= k < |events| ==> !OfVerdict(events[k]) && events[k].i == i
  }

  function PeerAfter(f: File, p: Peer, events: seq<Event>, i: nat): Peer
    requires Only(events, i)
    decreases |events|
  {
    if events == [] then p else PeerAfter(f, NextPeer(f, p, events[0]), events[1..], i)
  }

  lemma {:induction false} PeerAfterAppend(f: File, p: Peer, a: seq<Event>, b: seq<Event>, i: nat)
    requires Only(a, i) && Only(b, i)
    ensures Only(a + b, i) && PeerAfter(f, p, a + b, i) == PeerAfter(f, PeerAfter(f, p, a, i), b, i)
    decreases |a|
  {
    if a == [] {
      assert a + b == b;
    } else {
      assert (a + b)[1..] == a[1..] + b;
      PeerAfterAppend(f, NextPeer(f, p, a[0]), a[1..], b, i);
    }
  }

  lemma OneEvent(f: File, p: Peer, e: Event, i: nat)
    requires !OfVerdict(e) && e.i == i
    ensures Only([e], i) && PeerAfter(f, p, [e], i) == NextPeer(f, p, e)
  {
    assert [e][1..] == [];
  }

  predicate OfReceiver(events: seq<Event>) {
    forall e :: e in events ==> !OfSender(e)
  }

  /** Events of one recipient change that recipient alone; after the verdict they
      are those of its own side. */
  lemma {:induction false} OthersStay(f: File, s: State, events: seq<Event>, i: nat)
    requires Only(events, i) && i < |s.peers| && (s.verdict.None? || OfReceiver(events))
    ensures Run(f, s, events) == s.(peers := s.peers[i := PeerAfter(f, s.peers[i], events, i)])
    decreases |events|
  {
    if events == [] {
      assert s.peers[i := s.peers[i]] == s.peers;
    } else {
      var t := Next(f, s, events[0]);
      assert t.peers == s.peers[i := NextPeer(f, s.peers[i], events[0])];
      OthersStay(f, t, events[1..], i);
    }
  }

  lemma {:induction false} RunAppend(f: File, s: State, a: seq<Event>, b: seq<Event>)
    ensures Run(f, s, a + b) == Run(f, Run(f, s, a), b)
    decreases |a|
  {
    if a == [] {
      assert a + b == b;
    } else {
      assert (a + b)[1..] == a[1..] + b;
      RunAppend(f, Next(f, s, a[0]), a[1..], b);
    }
  }

  // --- One recipient ------------------------------------------------------------------------------

  /** The channel has every chunk below the sender's offset. */
  ghost predicate Supplied(f: File, p: Peer) {
    && p.out.offset <= |f.bytes| && (p.out.doneSent ==> p.out.offset == |f.bytes| && Finish in p.toward)
    && (p.out.offset % DATA_MAX == 0 || p.out.offset == |f.bytes|)
    && forall o :: 0 <= o < p.out.offset && o % DATA_MAX == 0 ==> Chunk(f, o) in p.toward
  }

  lemma PeerStaysSupplied(f: File, p: Peer, e: Event)
    requires Supplied(f, p) && !OfVerdict(e)
    ensures Supplied(f, NextPeer(f, p, e))
  {
    if e.Pump? && p.out.Eligible() && e.attempt.Sent? && p.out.offset < |f.bytes| {
      PumpSupplies(f, p, e.i);
    }
  }

  lemma PumpSupplies(f: File, p: Peer, i: nat)
    requires Supplied(f, p) && p.out.Eligible() && p.out.offset < |f.bytes|
    ensures Supplied(f, NextPeer(f, p, Pump(i, Sent)))
  {
    var q, n := NextPeer(f, p, Pump(i, Sent)), ChunkLength(|f.bytes|, p.out.offset);
    assert q.out.offset == p.out.offset + n;
    if n == DATA_MAX {
      assert (p.out.offset + DATA_MAX) % DATA_MAX == 0;
    }
    forall o | 0 <= o < q.out.offset && o % DATA_MAX == 0 ensures Chunk(f, o) in q.toward {
      if o >= p.out.offset {
        NextMultiple(p.out.offset, o);
      }
    }
  }

  lemma NextMultiple(a: nat, b: nat)
    requires a % DATA_MAX == 0 && b % DATA_MAX == 0 && a <= b < a + DATA_MAX
    ensures a == b
  {
  }

  lemma {:induction false} RunStaysSupplied(f: File, s: State, events: seq<Event>)
    requires forall i :: 0 <= i < |s.peers| ==> Supplied(f, s.peers[i])
    ensures forall i :: 0 <= i < |Run(f, s, events).peers| ==> Supplied(f, Run(f, s, events).peers[i])
    decreases |events|
  {
    if events != [] {
      var e := events[0];
      if !OfVerdict(e) && e.i < |s.peers| {
        PeerStaysSupplied(f, s.peers[e.i], e);
      }
      RunStaysSupplied(f, Next(f, s, e), events[1..]);
    }
  }

  /** Pumping a recipient gets everything into the channel. */
  lemma {:induction false} PumpsAll(f: File, p: Peer, i: nat) returns (events: seq<Event>)
    requires Supplied(f, p) && (p.out.Eligible() || p.out.doneSent)
    ensures Only(events, i) && (forall e :: e in events ==> e.Pump?) && (p.out.doneSent ==> events == [])
    ensures var q := PeerAfter(f, p, events, i);
            && q == p.(out := q.out, toward := q.toward) && Supplied(f, q)
            && q.out == p.out.(doneSent := true, offset := |f.bytes|)
    decreases |f.bytes| - p.out.offset
  {
    events := [];
    if !p.out.doneSent {
      var a := Pump(i, Sent);
      OneEvent(f, p, a, i);
      PeerStaysSupplied(f, p, a);
      if p.out.offset == |f.bytes| {
        return [a];
      }
      var more := PumpsAll(f, NextPeer(f, p, a), i);
      PeerAfterAppend(f, p, [a], more, i);
      events := [a] + more;
    }
  }

  /** The recipient has accepted and holds the source below `at`, where a chunk starts. */
  ghost predicate Holding(f: File, p: Peer, at: nat) {
    && at <= |f.bytes| && (at % DATA_MAX == 0 || at == |f.bytes|)
    && p.inn.slot == Some(Slot(true, false, f.bytes[..at]))
  }

  lemma ChunkArrives(f: File, p: Peer, i: nat, at: nat)
    requires Supplied(f, p) && p.out.doneSent && Holding(f, p, at) && at < |f.bytes|
    ensures var n := ChunkLength(|f.bytes|, at);
            var q := NextPeer(f, p, GetData(i, Chunk(f, at), false, false));
            Holding(f, q, at + n) && q == p.(inn := p.inn.(slot := q.inn.slot))
  {
    var n := ChunkLength(|f.bytes|, at);
    assert Chunk(f, at) in p.toward;
    assert f.bytes[..at] + f.bytes[at..at + n] == f.bytes[..at + n];
    if n == DATA_MAX {
      assert (at + DATA_MAX) % DATA_MAX == 0;
    }
  }

  /** Then the channel can hand the recipient all of it. */
  lemma {:induction false} DeliversAll(f: File, p: Peer, i: nat, at: nat) returns (events: seq<Event>)
    requires Supplied(f, p) && p.out.doneSent && Holding(f, p, at)
    ensures Only(events, i) && forall e :: e in events ==> e.GetData?
    ensures var q := PeerAfter(f, p, events, i);
            Holding(f, q, |f.bytes|) && q == p.(inn := p.inn.(slot := q.inn.slot))
    decreases |f.bytes| - at
  {
    events := [];
    if at < |f.bytes| {
      var a := GetData(i, Chunk(f, at), false, false);
      ChunkArrives(f, p, i, at);
      OneEvent(f, p, a, i);
      var more := DeliversAll(f, NextPeer(f, p, a), i, at + ChunkLength(|f.bytes|, at));
      PeerAfterAppend(f, p, [a], more, i);
      events := [a] + more;
    }
  }

  /** All of it delivered, the recipient stores the file. */
  lemma Stores(f: File, p: Peer, i: nat) returns (events: seq<Event>)
    requires Supplied(f, p) && p.out.doneSent && Holding(f, p, 0)
    ensures Only(events, i) && forall e :: e in events ==> e.GetData? || e.GetFinish?
    ensures PeerAfter(f, p, events, i) ==
            p.(inn := p.inn.(slot := None, stored := Some(f.bytes)), back := p.back + {Ack})
  {
    var a := DeliversAll(f, p, i, 0);
    var q := PeerAfter(f, p, a, i);
    var last := GetFinish(i, true, false);
    assert f.bytes[..|f.bytes|] == f.bytes;
    OneEvent(f, q, last, i);
    PeerAfterAppend(f, p, a, [last], i);
    events := a + [last];
  }

  predicate Served(f: File, p: Peer) {
    p.out.accepted && p.out.done && !p.out.unknown && p.inn.stored == Some(f.bytes)
  }

  lemma Accepts(f: File, i: nat) returns (events: seq<Event>)
    ensures Only(events, i)
    ensures PeerAfter(f, UNTOUCHED, events, i) ==
            Peer(INVITED.(accepted := true), Receiver(Some(Slot(true, false, [])), true, None), {Offer}, {Accept})
  {
    var a, b, c := GetOffer(i, Open), Take(i, Taken, false), Hear(i, Accept, false);
    var p1 := NextPeer(f, UNTOUCHED, a);
    var p2 := NextPeer(f, p1, b);
    OneEvent(f, UNTOUCHED, a, i);
    OneEvent(f, p1, b, i);
    OneEvent(f, p2, c, i);
    PeerAfterAppend(f, UNTOUCHED, [a], [b], i);
    PeerAfterAppend(f, UNTOUCHED, [a] + [b], [c], i);
    events := [a] + [b] + [c];
  }

  lemma PeerIsServed(f: File, i: nat) returns (events: seq<Event>)
    ensures Only(events, i) && Served(f, PeerAfter(f, UNTOUCHED, events, i))
  {
    var a := Accepts(f, i);
    var p1 := PeerAfter(f, UNTOUCHED, a, i);
    var b := PumpsAll(f, p1, i);
    PeerAfterAppend(f, UNTOUCHED, a, b, i);
    var p2 := PeerAfter(f, p1, b, i);
    assert f.bytes[..0] == [];
    var c := Stores(f, p2, i);
    PeerAfterAppend(f, UNTOUCHED, a + b, c, i);
    var d := Hear(i, Ack, false);
    OneEvent(f, PeerAfter(f, p2, c, i), d, i);
    PeerAfterAppend(f, UNTOUCHED, a + b + c, [d], i);
    events := a + b + c + [d];
  }

  // --- All of them ------------------------------------------------------------------------------------

  ghost predicate ServedBelow(f: File, s: State, n: nat, k: nat) {
    && |s.peers| == n && s.verdict.None?
    && forall i :: 0 <= i < n ==> if i < k then Served(f, s.peers[i]) else s.peers[i] == Start(n).peers[i]
  }

  lemma {:induction false} ServesBelow(f: File, n: nat, k: nat) returns (events: seq<Event>)
    requires k <= n
    ensures ServedBelow(f, Run(f, Start(n), events), n, k)
    decreases k
  {
    events := [];
    if k > 0 {
      events := ServesBelow(f, n, k - 1);
      var s := Run(f, Start(n), events);
      var more := PeerIsServed(f, k - 1);
      OthersStay(f, s, more, k - 1);
      RunAppend(f, Start(n), events, more);
      events := events + more;
    }
  }

  /** For any file and any number of recipients there is a run in which all of them
      store the file and the sender reports just that. */
  lemma TransferSucceeds(f: File, n: nat) returns (events: seq<Event>)
    requires n > 0
    ensures var r := Run(f, Start(n), events);
            && r.verdict == Some(Verdict(Final, NoCode, false)) && |r.peers| == n
            && forall i :: 0 <= i < n ==> r.peers[i].inn.stored == Some(f.bytes)
  {
    var before := ServesBelow(f, n, n);
    var s := Run(f, Start(n), before);
    var last := Tally(false, false);
    RunAppend(f, Start(n), before, [last]);
    assert [last][1..] == [];
    assert Run(f, s, [last]) == Next(f, s, last);
    AllStoredIsFinal(f, s, n);
    events := before + [last];
  }

  lemma AllStoredIsFinal(f: File, s: State, n: nat)
    requires n > 0 && ServedBelow(f, s, n, n)
    ensures PumpVerdict(Outs(s.peers), false, false) == Some(Verdict(Final, NoCode, false))
  {
    var rs := Outs(s.peers);
    assert forall i :: 0 <= i < n ==> Counted(rs[i]) == Stored;
    assert rs[0].accepted && Counted(rs[0]) == Stored;
  }
}
