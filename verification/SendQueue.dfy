/** Direct messages that wait for a session: the bounded queue of
    helper/send_queue.c and the loop of helper/omaq.c that serves it. */
module SendQueue {
  import opened Basics

  const QUEUE_MAX: nat := 64
  const PEER_MAX: nat := 16
  const WAIT_MS: nat := 300000
  const CHECK_MS: nat := 250
  const CLOCK_MAX: int := 0x7fff_ffff_ffff_ffff
  const CONVERSATION_MAX: nat := 16
  const ID_MAX: nat := 80
  const TEXT_MAX: nat := 512

  datatype Message = Message(conversation: string, selfKey: string, peerKey: string, request: string, reply: string,
                             text: string)

  datatype Entry = Entry(owner: int, friend: nat, number: nat, deadline: int, message: Message)

  type Table = seq<Option<Entry>>

  predicate KeyOk(key: string) {
    |key| == 64 && forall i :: 0 <= i < 64 ==> '0' <= key[i] <= '9' || 'a' <= key[i] <= 'f'
  }

  predicate Fits(m: Message) {
    && KeyOk(m.selfKey) && KeyOk(m.peerKey)
    && 0 < |m.conversation| < CONVERSATION_MAX && 0 < |m.request| < ID_MAX
    && |m.reply| < ID_MAX && 0 < |m.text| < TEXT_MAX
  }

  function Used(t: Table): (n: nat)
    ensures n <= |t|
  {
    if t == [] then 0 else Used(t[..|t| - 1]) + if t[|t| - 1].Some? then 1 else 0
  }

  predicate Of(e: Option<Entry>, friend: nat) { e.Some? && e.value.friend == friend }

  function PeerUsed(t: Table, friend: nat): nat {
    if t == [] then 0 else PeerUsed(t[..|t| - 1], friend) + if Of(t[|t| - 1], friend) then 1 else 0
  }

  predicate Eligible(e: Option<Entry>, skip: seq<nat>) { e.Some? && e.value.friend !in skip }

  function Eligibles(t: Table, skip: seq<nat>): (n: nat)
    ensures n <= |t|
  {
    if t == [] then 0 else Eligibles(t[..|t| - 1], skip) + if Eligible(t[|t| - 1], skip) then 1 else 0
  }

  lemma {:induction false} UsedSet(t: Table, i: nat, e: Option<Entry>)
    requires i < |t|
    ensures Used(t[i := e]) == Used(t) - (if t[i].Some? then 1 else 0) + (if e.Some? then 1 else 0)
    decreases |t|
  {
    var last := |t| - 1;
    if i == last {
      assert t[i := e][..last] == t[..last];
    } else {
      UsedSet(t[..last], i, e);
      assert t[i := e][..last] == t[..last][i := e];
    }
  }

  lemma {:induction false} UsedFull(t: Table)
    ensures Used(t) == |t| <==> forall i :: 0 <= i < |t| ==> t[i].Some?
    ensures Used(t) == 0 <==> forall i :: 0 <= i < |t| ==> t[i].None?
  {
    if t != [] {
      UsedFull(t[..|t| - 1]);
    }
  }

  lemma {:induction false} PeerUsedNone(t: Table, friend: nat)
    ensures PeerUsed(t, friend) == 0 <==> forall i :: 0 <= i < |t| ==> !Of(t[i], friend)
  {
    if t != [] {
      PeerUsedNone(t[..|t| - 1], friend);
    }
  }

  lemma {:induction false} PeerUsedSet(t: Table, friend: nat, i: nat, e: Option<Entry>)
    requires i < |t|
    ensures PeerUsed(t[i := e], friend)
         == PeerUsed(t, friend) - (if Of(t[i], friend) then 1 else 0) + (if Of(e, friend) then 1 else 0)
    decreases |t|
  {
    var last := |t| - 1;
    if i == last {
      assert t[i := e][..last] == t[..last];
    } else {
      PeerUsedSet(t[..last], friend, i, e);
      assert t[i := e][..last] == t[..last][i := e];
    }
  }

  lemma {:induction false} EligiblesDrop(t: Table, skip: seq<nat>, i: nat)
    requires i < |t| && Eligible(t[i], skip)
    ensures Eligibles(t[i := None], skip) == Eligibles(t, skip) - 1
    decreases |t|
  {
    var last := |t| - 1;
    if i == last {
      assert t[i := None][..last] == t[..last];
    } else {
      EligiblesDrop(t[..last], skip, i);
      assert t[i := None][..last] == t[..last][i := None];
    }
  }

  lemma {:induction false} EligiblesSkip(t: Table, skip: seq<nat>, friend: nat)
    ensures Eligibles(t, skip + [friend]) <= Eligibles(t, skip)
    ensures (exists i :: 0 <= i < |t| && Of(t[i], friend) && Eligible(t[i], skip)) ==>
              Eligibles(t, skip + [friend]) < Eligibles(t, skip)
  {
    if t != [] {
      EligiblesSkip(t[..|t| - 1], skip, friend);
    }
  }

  /** The entry served next: the lowest number among the peers not skipped. */
  predicate IsOldest(t: Table, skip: seq<nat>, i: nat) {
    && i < |t| && Eligible(t[i], skip)
    && forall k :: 0 <= k < |t| && Eligible(t[k], skip) ==> t[i].value.number <= t[k].value.number
  }

  // --- What has become of every accepted message -----------------------------------------------

  /** How a message left: one attempt to send it, one failure report, or its owner
      disconnected. */
  datatype How = Attempted | Reported | Dropped

  datatype Exit = Exit(ticket: nat, how: How)

  /** Tickets number the accepted messages, direct sends included, in submission
      order; `peers` gives the peer of each and `tickets` that of a queue number. */
  datatype History = History(peers: seq<nat>, tickets: map<nat, nat>, exits: seq<Exit>)

  ghost predicate Numbered(t: Table, next: nat) {
    && (forall i :: 0 <= i < |t| && t[i].Some? ==> t[i].value.number <= next)
    && (forall i, j :: 0 <= i < j < |t| && t[i].Some? && t[j].Some? ==> t[i].value.number != t[j].value.number)
  }

  predicate Ticketed(e: Entry, h: History) {
    e.number in h.tickets && h.tickets[e.number] < |h.peers| && h.peers[h.tickets[e.number]] == e.friend
  }

  /** Queue numbers follow the submission order. */
  predicate InSequence(a: Entry, b: Entry, h: History) {
    Ticketed(a, h) && Ticketed(b, h) && a.number < b.number ==> h.tickets[a.number] < h.tickets[b.number]
  }

  ghost predicate AllTicketed(t: Table, h: History) {
    && (forall i :: 0 <= i < |t| && t[i].Some? ==> Ticketed(t[i].value, h))
    && (forall i, j :: 0 <= i < |t| && 0 <= j < |t| && t[i].Some? && t[j].Some? ==>
          InSequence(t[i].value, t[j].value, h))
  }

  predicate Holds(e: Option<Entry>, h: History, ticket: nat) {
    e.Some? && e.value.number in h.tickets && h.tickets[e.value.number] == ticket
  }

  ghost predicate Held(t: Table, h: History, ticket: nat) {
    exists i :: 0 <= i < |t| && Holds(t[i], h, ticket)
  }

  ghost predicate Exited(h: History, ticket: nat) {
    exists i :: 0 <= i < |h.exits| && h.exits[i].ticket == ticket
  }

  /** Every message waits or has left, never both, and none leaves twice. */
  ghost predicate Conserved(t: Table, h: History) {
    && (forall k :: 0 <= k < |h.peers| ==> Held(t, h, k) || Exited(h, k))
    && (forall i, k :: 0 <= i < |t| && 0 <= k < |h.exits| ==> !Holds(t[i], h, h.exits[k].ticket))
    && (forall i, j :: 0 <= i < j < |h.exits| ==> h.exits[i].ticket != h.exits[j].ticket)
    && (forall k :: 0 <= k < |h.exits| ==> h.exits[k].ticket < |h.peers|)
  }

  predicate SamePeer(h: History, a: Exit, b: Exit) {
    a.ticket < |h.peers| && b.ticket < |h.peers| && h.peers[a.ticket] == h.peers[b.ticket]
  }

  predicate Orderly(h: History, a: Exit, b: Exit) {
    !a.how.Dropped? && !b.how.Dropped? && SamePeer(h, a, b) ==> a.ticket < b.ticket
  }

  /** Each peer's messages are attempted or reported in submission order. */
  ghost predicate InOrder(h: History) {
    forall i, j :: 0 <= i < j < |h.exits| ==> Orderly(h, h.exits[i], h.exits[j])
  }

  predicate Before(h: History, x: Exit, e: Entry) {
    !x.how.Dropped? && Ticketed(e, h) && x.ticket < |h.peers| && h.peers[x.ticket] == e.friend ==>
      x.ticket < h.tickets[e.number]
  }

  /** What is served already came before what still waits. */
  ghost predicate Behind(t: Table, h: History) {
    forall k, i :: 0 <= k < |h.exits| && 0 <= i < |t| && t[i].Some? ==> Before(h, h.exits[k], t[i].value)
  }

  ghost predicate Consistent(t: Table, next: nat, h: History) {
    Numbered(t, next) && AllTicketed(t, h) && Conserved(t, h) && InOrder(h) && Behind(t, h)
  }

  function Leaves(h: History, ticket: nat, how: How): History {
    h.(exits := h.exits + [Exit(ticket, how)])
  }

  function Submits(h: History, friend: nat, number: nat): History {
    h.(peers := h.peers + [friend], tickets := h.tickets[number := |h.peers|])
  }

  /** A direct send: accepted and attempted at once. */
  function SendsNow(h: History, friend: nat): History {
    Leaves(h.(peers := h.peers + [friend]), |h.peers|, Attempted)
  }

  lemma AddConsistent(t: Table, next: nat, h: History, i: nat, e: Entry)
    requires Consistent(t, next, h) && i < |t| && t[i].None? && e.number == next + 1
    ensures Consistent(t[i := Some(e)], next + 1, Submits(h, e.friend, next + 1))
  {
    var t', h' := t[i := Some(e)], Submits(h, e.friend, next + 1);
    forall k | 0 <= k < |t| && t[k].Some? ensures Ticketed(t[k].value, h) && Ticketed(t[k].value, h') { }
    AddConserved(t, next, h, i, e);
  }

  lemma AddConserved(t: Table, next: nat, h: History, i: nat, e: Entry)
    requires Consistent(t, next, h) && i < |t| && t[i].None? && e.number == next + 1
    ensures Conserved(t[i := Some(e)], Submits(h, e.friend, next + 1))
  {
    var t', h' := t[i := Some(e)], Submits(h, e.friend, next + 1);
    forall k | 0 <= k < |h'.peers| ensures Held(t', h', k) || Exited(h', k) {
      if k == |h.peers| {
        assert Holds(t'[i], h', k);
      } else if Held(t, h, k) {
        var j :| 0 <= j < |t| && Holds(t[j], h, k);
        assert Holds(t'[j], h', k);
      } else {
        var x :| 0 <= x < |h.exits| && h.exits[x].ticket == k;
        assert h'.exits[x].ticket == k;
      }
    }
    forall j, k | 0 <= j < |t'| && 0 <= k < |h'.exits| ensures !Holds(t'[j], h', h'.exits[k].ticket) {
      assert j != i ==> !Holds(t[j], h, h.exits[k].ticket);
    }
  }

  /** An entry leaves; unless it is dropped it must be its peer's first. */
  lemma LeaveConsistent(t: Table, next: nat, h: History, i: nat, how: How)
    requires Consistent(t, next, h) && i < |t| && t[i].Some?
    requires how.Dropped? || forall k :: 0 <= k < |t| && Of(t[k], t[i].value.friend) ==>
                               t[i].value.number <= t[k].value.number
    ensures Ticketed(t[i].value, h)
    ensures Consistent(t[i := None], next, Leaves(h, h.tickets[t[i].value.number], how))
  {
    var e := t[i].value;
    assert Ticketed(e, h);
    var x := Exit(h.tickets[e.number], how);
    var t', h' := t[i := None], Leaves(h, h.tickets[e.number], how);
    LeaveConserved(t, next, h, i, how);
    forall a, b | 0 <= a < b < |h'.exits| ensures Orderly(h', h'.exits[a], h'.exits[b]) {
      assert Before(h, h.exits[a], e);
      assert b < |h.exits| ==> Orderly(h, h.exits[a], h.exits[b]);
    }
    forall k, j | 0 <= k < |h'.exits| && 0 <= j < |t'| && t'[j].Some? ensures Before(h', h'.exits[k], t'[j].value) {
      if k < |h.exits| {
        assert Before(h, h.exits[k], t[j].value);
      } else {
        assert InSequence(e, t[j].value, h);
      }
    }
  }

  lemma LeaveConserved(t: Table, next: nat, h: History, i: nat, how: How)
    requires Numbered(t, next) && AllTicketed(t, h) && Conserved(t, h) && i < |t| && t[i].Some? && Ticketed(t[i].value, h)
    ensures Conserved(t[i := None], Leaves(h, h.tickets[t[i].value.number], how))
  {
    var ticket := h.tickets[t[i].value.number];
    var t', h' := t[i := None], Leaves(h, ticket, how);
    assert Holds(t[i], h, ticket);
    forall k | 0 <= k < |h'.peers| ensures Held(t', h', k) || Exited(h', k) {
      if k == ticket {
        assert h'.exits[|h.exits|].ticket == k;
      } else if Held(t, h, k) {
        var j :| 0 <= j < |t| && Holds(t[j], h, k);
        assert Holds(t'[j], h', k);
      } else {
        var x :| 0 <= x < |h.exits| && h.exits[x].ticket == k;
        assert h'.exits[x].ticket == k;
      }
    }
    forall j, k | 0 <= j < |t'| && 0 <= k < |h'.exits| ensures !Holds(t'[j], h', h'.exits[k].ticket) {
      if k < |h.exits| {
        assert !Holds(t[j], h, h.exits[k].ticket);
      } else if t'[j].Some? {
        assert InSequence(t[j].value, t[i].value, h) && InSequence(t[i].value, t[j].value, h);
      }
    }
    forall a, b | 0 <= a < b < |h'.exits| ensures h'.exits[a].ticket != h'.exits[b].ticket {
      assert !Holds(t[i], h, h.exits[a].ticket);
    }
  }

  lemma DirectConsistent(t: Table, next: nat, h: History, friend: nat)
    requires Consistent(t, next, h) && PeerUsed(t, friend) == 0
    ensures Consistent(t, next, SendsNow(h, friend))
  {
    var h' := SendsNow(h, friend);
    PeerUsedNone(t, friend);
    forall k | 0 <= k < |t| && t[k].Some? ensures Ticketed(t[k].value, h) && Ticketed(t[k].value, h') { }
    forall k | 0 <= k < |h'.peers| ensures Held(t, h', k) || Exited(h', k) {
      if k == |h.peers| {
        assert h'.exits[|h.exits|].ticket == k;
      } else if Held(t, h, k) {
        var j :| 0 <= j < |t| && Holds(t[j], h, k);
        assert Holds(t[j], h', k);
      } else {
        var x :| 0 <= x < |h.exits| && h.exits[x].ticket == k;
        assert h'.exits[x].ticket == k;
      }
    }
    forall j, k | 0 <= j < |t| && 0 <= k < |h'.exits| ensures !Holds(t[j], h', h'.exits[k].ticket) {
      assert k < |h.exits| ==> !Holds(t[j], h, h.exits[k].ticket);
    }
    forall a, b | 0 <= a < b < |h'.exits| ensures Orderly(h', h'.exits[a], h'.exits[b]) {
      assert b < |h.exits| ==> Orderly(h, h.exits[a], h.exits[b]);
    }
    forall k, j | 0 <= k < |h'.exits| && 0 <= j < |t| && t[j].Some? ensures Before(h', h'.exits[k], t[j].value) {
      assert k < |h.exits| ==> Before(h, h.exits[k], t[j].value);
    }
  }

  function FirstFree(t: Table): (i: nat)
    requires Used(t) < |t|
    ensures i < |t| && t[i].None? && forall k :: 0 <= k < i ==> t[k].Some?
  {
    UsedFull(t);
    FirstFreeFrom(t, 0)
  }

  function FirstFreeFrom(t: Table, from: nat): (i: nat)
    requires from <= |t| && (exists k :: from <= k < |t| && t[k].None?)
    ensures from <= i < |t| && t[i].None? && forall k :: from <= k < i ==> t[k].Some?
    decreases |t| - from
  {
    if t[from].None? then from else FirstFreeFrom(t, from + 1)
  }

  ghost predicate PeersBounded(t: Table) {
    forall friend :: PeerUsed(t, friend) <= PEER_MAX
  }

  /** `b` continues `a`: the same messages, and only served ones left since. */
  ghost predicate Served(a: History, b: History) {
    && b.peers == a.peers && b.tickets == a.tickets && a.exits <= b.exits
    && forall k :: |a.exits| <= k < |b.exits| ==> !b.exits[k].how.Dropped?
  }

  predicate DistinctPeers(s: seq<nat>) {
    forall i, j :: 0 <= i < j < |s| ==> s[i] != s[j]
  }

  class Mailer {
    const entries: array<Option<Entry>>
    var count: nat
    var nextNumber: nat
    var wake: bool
    var checkAt: int
    ghost var history: History

    ghost function Now(): Table
      reads entries
    {
      entries[..]
    }

    ghost predicate Valid()
      reads this, entries
    {
      && entries.Length == QUEUE_MAX && count == Used(Now()) && PeersBounded(Now())
      && Consistent(Now(), nextNumber, history)
    }

    constructor ()
      ensures Valid() && count == 0 && history == History([], map[], [])
    {
      entries := new Option<Entry>[QUEUE_MAX](_ => None);
      count, nextNumber, wake, checkAt := 0, 0, false, 0;
      history := History([], map[], []);
      new;
      UsedFull(Now());
      forall friend ensures PeerUsed(Now(), friend) == 0 { PeerUsedNone(Now(), friend); }
    }

    method PeerCount(friend: nat) returns (n: nat)
      requires Valid()
      ensures n == PeerUsed(Now(), friend)
    {
      n := 0;
      for i := 0 to QUEUE_MAX
        invariant n == PeerUsed(Now()[..i], friend)
      {
        assert Now()[..i + 1][..i] == Now()[..i];
        if entries[i].Some? && entries[i].value.friend == friend {
          n := n + 1;
        }
      }
      assert Now()[..QUEUE_MAX] == Now();
    }

    /** -1: the message is malformed; -2: the queue or the peer's share is full. */
    method Add(owner: int, friend: nat, message: Message, now: int) returns (rc: int)
      requires Valid()
      modifies this`count, this`nextNumber, this`history, entries
      ensures Valid()
      ensures var t := old(Now());
              rc == if now < 0 || now > CLOCK_MAX - WAIT_MS || !Fits(message) then -1
                    else if Used(t) >= QUEUE_MAX || PeerUsed(t, friend) >= PEER_MAX then -2 else 0
      ensures rc != 0 ==> Now() == old(Now()) && history == old(history)
      ensures rc == 0 ==>
                var e := Entry(owner, friend, old(nextNumber) + 1, now + WAIT_MS, message);
                && Now() == old(Now())[FirstFree(old(Now())) := Some(e)]
                && nextNumber == e.number && history == Submits(old(history), friend, e.number)
    {
      if now < 0 || now > CLOCK_MAX - WAIT_MS || !Fits(message) {
        return -1;
      }
      var share := PeerCount(friend);
      if count >= QUEUE_MAX || share >= PEER_MAX {
        return -2;
      }
      ghost var t := Now();
      UsedFull(t);
      var i := 0;
      while i < QUEUE_MAX && entries[i].Some?
        invariant i <= QUEUE_MAX && forall k :: 0 <= k < i ==> entries[k].Some?
      {
        i := i + 1;
      }
      if i == QUEUE_MAX {
        return -2;
      }
      var e := Entry(owner, friend, nextNumber + 1, now + WAIT_MS, message);
      Place(i, e);
      return 0;
    }

    method Place(i: nat, e: Entry)
      requires Valid() && i < QUEUE_MAX && entries[i].None? && e.number == nextNumber + 1
      requires PeerUsed(Now(), e.friend) < PEER_MAX
      modifies this`count, this`nextNumber, this`history, entries
      ensures Valid() && Now() == old(Now())[i := Some(e)]
      ensures nextNumber == e.number && history == Submits(old(history), e.friend, e.number)
    {
      ghost var t := Now();
      entries[i] := Some(e);
      nextNumber := e.number;
      count := count + 1;
      history := Submits(history, e.friend, e.number);
      assert Now() == t[i := Some(e)];
      UsedSet(t, i, Some(e));
      AddConsistent(t, old(nextNumber), old(history), i, e);
      forall friend ensures PeerUsed(Now(), friend) <= PEER_MAX {
        PeerUsedSet(t, friend, i, Some(e));
        assert PeerUsed(t, friend) <= PEER_MAX;
      }
    }

    method Oldest(skip: array<nat>, skipped: nat) returns (index: int)
      requires Valid() && skipped <= skip.Length
      ensures index >= 0 ==> IsOldest(Now(), skip[..skipped], index)
      ensures index < 0 ==> forall k :: 0 <= k < QUEUE_MAX ==> !Eligible(entries[k], skip[..skipped])
    {
      index := -1;
      for i := 0 to QUEUE_MAX
        invariant index < i
        invariant index < 0 ==> forall k :: 0 <= k < i ==> !Eligible(entries[k], skip[..skipped])
        invariant index >= 0 ==> Eligible(entries[index], skip[..skipped])
        invariant index >= 0 ==> forall k :: 0 <= k < i && Eligible(entries[k], skip[..skipped]) ==>
                                   entries[index].value.number <= entries[k].value.number
      {
        if entries[i].None? {
          continue;
        }
        var inSkip := false;
        for j := 0 to skipped
          invariant inSkip <==> entries[i].value.friend in skip[..j]
        {
          if skip[j] == entries[i].value.friend {
            inSkip := true;
          }
        }
        if !inSkip && (index < 0 || entries[i].value.number < entries[index].value.number) {
          index := i;
        }
      }
    }

    method Owned(owner: int) returns (index: int)
      requires Valid()
      ensures index >= 0 ==> index < QUEUE_MAX && entries[index].Some? && entries[index].value.owner == owner
      ensures index < 0 ==> forall k :: 0 <= k < QUEUE_MAX && entries[k].Some? ==> entries[k].value.owner != owner
    {
      for i := 0 to QUEUE_MAX
        invariant forall k :: 0 <= k < i && entries[k].Some? ==> entries[k].value.owner != owner
      {
        if entries[i].Some? && entries[i].value.owner == owner {
          return i;
        }
      }
      return -1;
    }

    method Remove(index: int, ghost how: How)
      requires Valid()
      requires 0 <= index < QUEUE_MAX && entries[index].Some? ==>
                 how.Dropped? || forall k :: 0 <= k < QUEUE_MAX && Of(entries[k], entries[index].value.friend) ==>
                                   entries[index].value.number <= entries[k].value.number
      modifies this`count, this`history, entries
      ensures Valid()
      ensures if 0 <= index < QUEUE_MAX && old(entries[index]).Some? then
                && Now() == old(Now())[index := None] && count == old(count) - 1
                && Ticketed(old(entries[index]).value, old(history))
                && history == Leaves(old(history), old(history).tickets[old(entries[index]).value.number], how)
              else Now() == old(Now()) && history == old(history)
    {
      if index < 0 || index >= QUEUE_MAX || entries[index].None? {
        return;
      }
      ghost var t := Now();
      var number := entries[index].value.number;
      LeaveConsistent(t, nextNumber, history, index, how);
      UsedSet(t, index, None);
      entries[index] := None;
      count := count - 1;
      history := Leaves(history, history.tickets[number], how);
      assert Now() == t[index := None];
      forall friend ensures PeerUsed(Now(), friend) <= PEER_MAX {
        PeerUsedSet(t, friend, index, None);
        assert PeerUsed(t, friend) <= PEER_MAX;
      }
    }

    /** Shutting down: every message is reported, oldest first. */
    method FailAll()
      requires Valid()
      modifies this`count, this`history, entries
      ensures Valid() && count == 0 && Served(old(history), history)
    {
      var none := new nat[0];
      while true
        invariant Valid() && Served(old(history), history)
        decreases count
      {
        var index := Oldest(none, 0);
        if index < 0 {
          UsedFull(Now());
          break;
        }
        Remove(index, Reported);
      }
    }

    /** A client goes away: its messages are dropped, all others stay. */
    method OwnerDisconnect(owner: int)
      requires Valid()
      modifies this`count, this`history, entries
      ensures Valid()
      ensures forall i :: 0 <= i < QUEUE_MAX ==>
                entries[i] == if old(entries[i]).Some? && old(entries[i]).value.owner == owner then None
                              else old(entries[i])
    {
      while true
        invariant Valid()
        invariant forall i :: 0 <= i < QUEUE_MAX ==>
                    entries[i] == old(entries[i]) ||
                    (entries[i].None? && old(entries[i]).Some? && old(entries[i]).value.owner == owner)
        decreases count
      {
        var index := Owned(owner);
        if index < 0 {
          break;
        }
        Remove(index, Dropped);
      }
    }

    /** Serves the queue: at each turn the oldest message of a peer not yet found
        waiting is attempted, reported, or puts its peer on the waiting list. */
    method Service(now: int, shutdown: bool)
      requires Valid()
      modifies this, entries
      ensures Valid() && Served(old(history), history)
      ensures shutdown ==> count == 0
    {
      if count == 0 {
        return;
      }
      if shutdown {
        FailAll();
        return;
      }
      if now < 0 || (!wake && now < checkAt) {
        return;
      }
      wake := false;
      checkAt := now + CHECK_MS;
      ghost var found := ServeOnce();
    }

    /** The peer at `index` joins the waiting list. */
    method NoteWaiting(waiting: array<nat>, n: nat, index: nat)
      requires Valid() && n < waiting.Length && index < QUEUE_MAX && Eligible(entries[index], waiting[..n])
      modifies waiting
      ensures waiting[..n + 1] == old(waiting[..n]) + [entries[index].value.friend]
      ensures Eligibles(Now(), waiting[..n + 1]) < Eligibles(Now(), old(waiting[..n]))
    {
      var friend := entries[index].value.friend;
      EligiblesSkip(Now(), waiting[..n], friend);
      assert Of(Now()[index], friend) && Eligible(Now()[index], waiting[..n]);
      ghost var before := waiting[..n];
      waiting[n] := friend;
      assert waiting[..n + 1] == before + [friend];
    }

    /** `found` lists the peers found waiting: distinct, at most 64, and the only
        ones with messages left. */
    method ServeOnce() returns (ghost found: seq<nat>)
      requires Valid()
      modifies this`count, this`history, entries
      ensures Valid() && Served(old(history), history)
      ensures |found| <= QUEUE_MAX && DistinctPeers(found)
      ensures forall k :: 0 <= k < QUEUE_MAX && entries[k].Some? ==> entries[k].value.friend in found
    {
      var waiting := new nat[QUEUE_MAX];
      var waitingCount := 0;
      while true
        invariant Valid() && Served(old(history), history)
        invariant waitingCount <= QUEUE_MAX && waitingCount + Eligibles(Now(), waiting[..waitingCount]) <= QUEUE_MAX
        invariant DistinctPeers(waiting[..waitingCount])
        decreases Eligibles(Now(), waiting[..waitingCount])
      {
        var index := Oldest(waiting, waitingCount);
        if index < 0 {
          break;
        }
        EligiblesDrop(Now(), waiting[..waitingCount], index);
        var ready, blocked := *, *;
        if !ready && !blocked {
          NoteWaiting(waiting, waitingCount, index);
          waitingCount := waitingCount + 1;
        } else {
          Remove(index, if blocked then Reported else Attempted);
        }
      }
      found := waiting[..waitingCount];
      assert forall k :: 0 <= k < QUEUE_MAX ==> !Eligible(entries[k], found);
    }

    /** A client's direct message: at once if nothing of the peer's waits and there
        is a session, else behind what waits. */
    method Send(owner: int, friend: nat, message: Message, now: int, hasSession: bool) returns (accepted: bool)
      requires Valid()
      modifies this, entries
      ensures Valid()
      ensures !accepted ==> history == old(history) && Now() == old(Now())
      ensures accepted ==> history.peers == old(history).peers + [friend]
      ensures hasSession && old(PeerUsed(Now(), friend)) == 0 ==> accepted && history == SendsNow(old(history), friend)
    {
      var share := PeerCount(friend);
      if share > 0 || !hasSession {
        var requested: bool := *;
        if now < 0 || (share == 0 && !requested) {
          return false;
        }
        var rc := Add(owner, friend, message, now);
        if rc != 0 {
          return false;
        }
        wake := true;
        return true;
      }
      DirectConsistent(Now(), nextNumber, history, friend);
      history := SendsNow(history, friend);
      return true;
    }
  }

  // --- What consistency means for the peers ----------------------------------------------------

  /** The tickets of one peer's messages in the order in which they left, the
      dropped ones left out. */
  function Deliveries(h: History, friend: nat, n: nat): seq<nat>
    requires n <= |h.exits|
  {
    if n == 0 then []
    else if ToPeer(h, h.exits[n - 1], friend) then Deliveries(h, friend, n - 1) + [h.exits[n - 1].ticket]
    else Deliveries(h, friend, n - 1)
  }

  predicate ToPeer(h: History, x: Exit, friend: nat) {
    !x.how.Dropped? && x.ticket < |h.peers| && h.peers[x.ticket] == friend
  }

  lemma {:induction false} DeliveriesAre(h: History, friend: nat, n: nat, k: nat) returns (j: nat)
    requires n <= |h.exits| && k < |Deliveries(h, friend, n)|
    ensures j < n && ToPeer(h, h.exits[j], friend) && h.exits[j].ticket == Deliveries(h, friend, n)[k]
  {
    if k == |Deliveries(h, friend, n)| - 1 && ToPeer(h, h.exits[n - 1], friend) {
      j := n - 1;
    } else {
      j := DeliveriesAre(h, friend, n - 1, k);
    }
  }

  predicate Increasing(d: seq<nat>) {
    forall i, j :: 0 <= i < j < |d| ==> d[i] < d[j]
  }

  lemma IncreasingSnoc(d: seq<nat>, x: nat)
    requires Increasing(d) && forall k :: 0 <= k < |d| ==> d[k] < x
    ensures Increasing(d + [x])
  {
  }

  /** In every state a peer's messages have been served in the order in which they
      were submitted. */
  lemma {:induction false} DeliveredInOrder(t: Table, next: nat, h: History, friend: nat, n: nat)
    requires Consistent(t, next, h) && n <= |h.exits|
    ensures Increasing(Deliveries(h, friend, n))
  {
    if n > 0 {
      DeliveredInOrder(t, next, h, friend, n - 1);
      var x, front := h.exits[n - 1], Deliveries(h, friend, n - 1);
      if ToPeer(h, x, friend) {
        forall k | 0 <= k < |front| ensures front[k] < x.ticket {
          var j := DeliveriesAre(h, friend, n - 1, k);
          assert Orderly(h, h.exits[j], x);
        }
        IncreasingSnoc(front, x.ticket);
      }
    }
  }

  /** The tickets that have left, in any way. */
  function Left(exits: seq<Exit>): set<nat> {
    if exits == [] then {} else Left(exits[..|exits| - 1]) + {exits[|exits| - 1].ticket}
  }

  lemma {:induction false} LeftHolds(exits: seq<Exit>, k: nat)
    ensures k in Left(exits) <==> exists i :: 0 <= i < |exits| && exits[i].ticket == k
  {
    if exits != [] {
      var front, last := exits[..|exits| - 1], exits[|exits| - 1];
      LeftHolds(front, k);
      if k in Left(front) {
        var i :| 0 <= i < |front| && front[i].ticket == k;
        assert exits[i].ticket == k;
      } else if exists i :: 0 <= i < |exits| && exits[i].ticket == k {
        var i :| 0 <= i < |exits| && exits[i].ticket == k;
        assert i < |front| ==> front[i].ticket == k;
      }
    }
  }

  lemma {:induction false} LeftMeans(exits: seq<Exit>)
    requires forall i, j :: 0 <= i < j < |exits| ==> exits[i].ticket != exits[j].ticket
    ensures |Left(exits)| == |exits|
    ensures forall k :: k in Left(exits) <==> exists i :: 0 <= i < |exits| && exits[i].ticket == k
  {
    if exits != [] {
      LeftMeans(exits[..|exits| - 1]);
    }
    forall k ensures k in Left(exits) <==> exists i :: 0 <= i < |exits| && exits[i].ticket == k {
      LeftHolds(exits, k);
    }
  }

  function Below(n: nat): (s: set<nat>)
    ensures |s| == n && forall k :: k in s <==> 0 <= k < n
  {
    if n == 0 then {} else Below(n - 1) + {n - 1}
  }

  /** Once the queue is empty, every accepted message has left exactly once. */
  lemma AllLeftOnce(t: Table, next: nat, h: History)
    requires Consistent(t, next, h) && Used(t) == 0
    ensures |h.exits| == |h.peers| && Left(h.exits) == Below(|h.peers|)
  {
    UsedFull(t);
    LeftMeans(h.exits);
    forall k | k in Below(|h.peers|) ensures k in Left(h.exits) {
      assert Held(t, h, k) || Exited(h, k);
    }
    assert Left(h.exits) == Below(|h.peers|);
  }
}
