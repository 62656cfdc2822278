/** How a call ends (helper/omaq.c, helper/av.c): the pending end, the requests that
    wait for it and the ring of results that answers them. */
module CallEnd {
  import opened Basics

  const CLIENTS: nat := 8
  const RESULTS: nat := CLIENTS + 1

  /** The result one requester gets; an empty request is nobody's. */
  datatype Record = Record(friend: nat, key: string, callId: string, request: string, reason: string, audio: bool)

  function Newest(s: seq<Record>, n: nat): (r: seq<Record>)
    ensures |r| == if |s| <= n then |s| else n
    ensures forall k :: 0 <= k < |r| ==> r[k] == s[|s| - |r| + k]
  {
    if |s| <= n then s else s[|s| - n..]
  }

  predicate Has(s: seq<Record>, callId: string, request: string) {
    exists i :: 0 <= i < |s| && s[i].callId == callId && s[i].request == request
  }

  predicate Knows(s: seq<Record>, callId: string) {
    exists i :: 0 <= i < |s| && s[i].callId == callId
  }

  /** Remembers a result unless its requester already has one. */
  function Remembered(s: seq<Record>, r: Record): seq<Record> {
    if Has(s, r.callId, r.request) then s else Newest(s + [r], RESULTS)
  }

  // --- The ring --------------------------------------------------------------------------------

  class Ring {
    const slots: array<Record>
    var next: nat
    var count: nat

    ghost predicate Valid()
      reads this
    {
      slots.Length == RESULTS && next < RESULTS && count <= RESULTS
    }

    /** The place of the `k`-th oldest result. */
    function Index(k: nat): nat
      reads this
      requires Valid() && k < count
    {
      Place(next, count, k)
    }

    ghost function Contents(): (s: seq<Record>)
      reads this, slots
      requires Valid()
      ensures |s| == count && forall k :: 0 <= k < count ==> s[k] == slots[Index(k)]
    {
      var n, c := next, count;
      seq(c, k requires 0 <= k < c && n < RESULTS && c <= RESULTS && slots.Length == RESULTS reads slots =>
        slots[Place(n, c, k)])
    }

    constructor ()
      ensures Valid() && Contents() == [] && fresh(slots)
    {
      slots := new Record[RESULTS](_ => Record(0, "", "", "", "", false));
      next, count := 0, 0;
    }

    method Find(callId: string, request: string) returns (index: Option<nat>)
      requires Valid()
      ensures index.Some? <==> Has(Contents(), callId, request)
      ensures index.Some? ==> index.value < RESULTS && slots[index.value] in Contents()
                              && slots[index.value].callId == callId && slots[index.value].request == request
    {
      for offset := 0 to count
        invariant forall k :: count - offset <= k < count ==>
                    Contents()[k].callId != callId || Contents()[k].request != request
      {
        var i := (next + RESULTS - 1 - offset) % RESULTS;
        PlaceIsModulo(next, count, count - 1 - offset);
        assert slots[i] == Contents()[count - 1 - offset];
        if slots[i].callId == callId && slots[i].request == request {
          return Some(i);
        }
      }
      return None;
    }

    /** The result found for a call id, the one for `request` if there is one. */
    method FindCall(callId: string, request: string) returns (found: Option<Record>)
      requires Valid()
      ensures found.Some? <==> callId != "" && Knows(Contents(), callId)
      ensures found.Some? ==> found.value in Contents() && found.value.callId == callId
      ensures found.Some? && request != "" && Has(Contents(), callId, request) ==> found.value.request == request
    {
      if callId == "" {
        return None;
      }
      found := None;
      for offset := 0 to count
        invariant found.None? ==> forall k :: count - offset <= k < count ==> Contents()[k].callId != callId
        invariant found.Some? ==> found.value in Contents() && found.value.callId == callId
        invariant request != "" ==> forall k :: count - offset <= k < count ==>
                    Contents()[k].callId != callId || Contents()[k].request != request
      {
        var i := (next + RESULTS - 1 - offset) % RESULTS;
        PlaceIsModulo(next, count, count - 1 - offset);
        assert slots[i] == Contents()[count - 1 - offset];
        if slots[i].callId == callId {
          if found.None? {
            found := Some(slots[i]);
          }
          if request != "" && slots[i].request == request {
            return Some(slots[i]);
          }
        }
      }
    }

    method Remember(r: Record)
      requires Valid()
      modifies this, slots
      ensures Valid() && Contents() == Remembered(old(Contents()), r)
    {
      var at := Find(r.callId, r.request);
      if at.Some? {
        return;
      }
      Store(r);
    }

    method Store(r: Record)
      requires Valid()
      modifies this, slots
      ensures Valid() && Contents() == Newest(old(Contents()) + [r], RESULTS)
    {
      ghost var was := Contents();
      ghost var all := was + [r];
      slots[next] := r;
      next := (next + 1) % RESULTS;
      if count < RESULTS {
        count := count + 1;
      }
      forall k | 0 <= k < count ensures Contents()[k] == Newest(all, RESULTS)[k] {
        Shifted(old(next), old(count), k);
        assert k < count - 1 ==> slots[Place(next, count, k)] == was[if old(count) < RESULTS then k else k + 1];
      }
      assert Contents() == Newest(all, RESULTS);
    }
  }

  function Place(next: nat, count: nat, k: nat): (i: nat)
    requires next < RESULTS && count <= RESULTS && k < count
    ensures i < RESULTS
  {
    var x := next + RESULTS - count + k;
    if x >= RESULTS then x - RESULTS else x
  }

  lemma PlaceIsModulo(next: nat, count: nat, k: nat)
    requires next < RESULTS && count <= RESULTS && k < count
    ensures Place(next, count, k) == (next + RESULTS - count + k) % RESULTS
  {
  }

  lemma Shifted(next: nat, count: nat, k: nat)
    requires next < RESULTS && count <= RESULTS && k < (if count < RESULTS then count + 1 else count)
    ensures var next', count' := (next + 1) % RESULTS, if count < RESULTS then count + 1 else count;
            && (k == count' - 1 ==> Place(next', count', k) == next)
            && (k < count' - 1 ==>
                  && Place(next', count', k) != next
                  && Place(next', count', k) == Place(next, count, if count < RESULTS then k else k + 1))
  {
  }

  // --- The pending end ----------------------------------------------------------------------------

  datatype Pending = Pending(friend: nat, key: string, callId: string, request: string, reason: string)

  class CallControl {
    const ring: Ring
    // helper/av.c
    var call: Option<nat>
    var active: bool
    var incoming: bool
    var audio: bool
    // helper/omaq.c
    var callId: string
    var callFriend: Option<nat>
    var callKey: string
    var ownerRequest: string
    var pending: Option<Pending>
    var aliases: seq<string>
    var resetRequested: bool

    predicate LocalStopped()
      reads this
    {
      !audio && call.None? && !active && !incoming
    }

    /** While an end is pending nothing of the call is left, a transport reset is
        requested, and the ring knows nothing of the call yet. */
    ghost predicate Valid()
      reads this, ring, ring.slots
    {
      && ring.Valid()
      && (call.None? ==> LocalStopped())
      && (callId != "" ==> !Knows(ring.Contents(), callId))
      && |aliases| <= CLIENTS
      && (pending.Some? ==>
            && LocalStopped() && resetRequested && pending.value.callId == callId != "")
    }

    constructor ()
      ensures Valid() && pending.None? && call.None? && !resetRequested
      ensures fresh(ring) && fresh(ring.slots)
    {
      ring := new Ring();
      call, active, incoming, audio := None, false, false, false;
      callId, callFriend, callKey, ownerRequest := "", None, "", "";
      pending, aliases, resetRequested := None, [], false;
    }

    /** Everybody who waits to hear that the call has ended. */
    ghost predicate Waits(request: string)
      reads this
    {
      pending.Some? && request != "" && (request == pending.value.request || request in aliases)
    }

    // --- helper/av.c ---

    method AudioStop()
      modifies this`audio
      ensures !audio
    {
      audio := false;
    }

    method NoteIncoming(friend: nat, blocked: bool) returns (transition: int)
      modifies this`call, this`active, this`incoming
      ensures transition == 1 <==> old(call).None? && !blocked
      ensures transition < 0 <==> if old(call).None? then blocked else old(call).value != friend
      ensures if transition == 1 then call == Some(friend) && !active && incoming
              else call == old(call) && active == old(active) && incoming == old(incoming)
    {
      if (call.None? && blocked) || (call.Some? && call.value != friend) {
        return -1;
      }
      if call == Some(friend) {
        return 0;
      }
      call, active, incoming := Some(friend), false, true;
      return 1;
    }

    method NoteActive(friend: nat, blocked: bool) returns (transition: int)
      modifies this`call, this`active, this`audio
      ensures transition < 0 <==> if old(call).None? then blocked else old(call).value != friend
      ensures if transition < 0 then call == old(call) && active == old(active) && audio == old(audio)
              else call == Some(friend) && (old(call).None? || old(call) == Some(friend)) && active
    {
      if (call.None? && blocked) || (call.Some? && call.value != friend) {
        return -1;
      }
      call := Some(friend);
      if active {
        return 0;
      }
      active := true;
      audio := *;
      return 1;
    }

    /** Stops the local side; the result tells whether the other side was told. */
    method AvStop(friend: nat) returns (stopped: int)
      modifies this`call, this`active, this`incoming, this`audio
      ensures stopped < 0 <==> old(call) != Some(friend)
      ensures if stopped < 0 then call == old(call) && active == old(active) && incoming == old(incoming) && audio == old(audio)
              else LocalStopped()
    {
      if call != Some(friend) {
        return -1;
      }
      AudioStop();
      active := false;
      var told: bool := *;
      call, incoming := None, false;
      return if told then 0 else 1;
    }

    // --- helper/omaq.c ---

    /** One more requester; -1 when all places are taken. */
    method AddAlias(request: string) returns (rc: int)
      requires Valid() && pending.Some?
      modifies this`aliases
      ensures Valid()
      ensures rc == 0 <==> Waits(request)
      ensures forall r :: old(Waits(r)) ==> Waits(r)
      ensures rc != 0 ==> aliases == old(aliases) && (request == "" || |aliases| == CLIENTS)
    {
      if request == "" {
        return -1;
      }
      if pending.value.request == request {
        return 0;
      }
      for i := 0 to |aliases|
        invariant request !in aliases[..i]
      {
        if aliases[i] == request {
          return 0;
        }
      }
      if |aliases| >= CLIENTS {
        return -1;
      }
      aliases := aliases + [request];
      return 0;
    }

    method QueueCallEnd(friend: nat, key: string, request: string, reason: string) returns (ok: bool)
      requires Valid() && LocalStopped()
      modifies this`pending, this`aliases, this`ownerRequest, this`resetRequested
      ensures Valid()
      ensures ok <==> old(pending).None? && callId != ""
      ensures ok ==> pending == Some(Pending(friend, key, callId, request, reason)) && resetRequested
      ensures ok ==> (request != "" ==> Waits(request)) && (old(ownerRequest) != "" ==> Waits(old(ownerRequest)))
      ensures !ok ==> pending == old(pending) && resetRequested == old(resetRequested)
    {
      if pending.Some? || callId == "" {
        return false;
      }
      aliases := if ownerRequest != "" && ownerRequest != request then [ownerRequest] else [];
      pending := Some(Pending(friend, key, callId, request, reason));
      ownerRequest := "";
      resetRequested := true;
      return true;
    }

    /** Ends the live call from this side. */
    method BeginCallEnd(friend: nat, request: string, reason: string) returns (ok: bool)
      requires Valid()
      modifies this
      ensures Valid()
      ensures old(pending.Some? || call != Some(friend)) ==>
                !ok && pending == old(pending) && call == old(call) && aliases == old(aliases)
      ensures ok <==> old(pending.None? && call == Some(friend) && callFriend == Some(friend) && callKey != "" && callId != "")
      ensures ok ==> pending.Some? && pending.value.callId == old(callId) && (request != "" ==> Waits(request))
      ensures ok && old(ownerRequest) != "" ==> Waits(old(ownerRequest))
      ensures !old(pending.Some? || call != Some(friend)) ==> call.None? && resetRequested
    {
      if pending.Some? || call != Some(friend) {
        return false;
      }
      var stopped := AvStop(friend);
      if stopped < 0 {
        return false;
      }
      resetRequested := true;
      if callFriend != Some(friend) || callKey == "" {
        return false;
      }
      ok := QueueCallEnd(friend, callKey, request, reason);
    }

    /** A client starts a call; the identifier drawn for it is new. */
    method Start(friend: nat, key: string, request: string, id: string, blocked: bool) returns (ok: bool)
      requires Valid() && id != "" && !Knows(ring.Contents(), id)
      modifies this
      ensures Valid()
      ensures old(pending.Some? || resetRequested || call.Some?) ==>
                !ok && call == old(call) && pending == old(pending) && callId == old(callId) && aliases == old(aliases)
      ensures ok ==> call == Some(friend) && callId == id && ownerRequest == request
    {
      if pending.Some? || resetRequested || call.Some? || blocked {
        return false;
      }
      var placed: bool := *;
      if !placed {
        return false;
      }
      call, active, incoming := Some(friend), false, false;
      callId, callFriend, callKey := id, Some(friend), key;
      var owned: bool := *;
      if !owned {
        var ended := BeginCallEnd(friend, request, "control_unavailable");
        return false;
      }
      ownerRequest := request;
      return true;
    }

    /** A client answers; `matches` says that it names the current call. */
    method Answer(friend: nat, request: string, matches: bool) returns (ok: bool)
      requires Valid()
      modifies this
      ensures Valid()
      ensures old(pending.Some? || resetRequested) ==>
                !ok && call == old(call) && pending == old(pending) && aliases == old(aliases)
      ensures ok ==> call == Some(friend) && active && ownerRequest == request && pending.None?
    {
      if !matches || pending.Some? || resetRequested {
        return false;
      }
      var answered: bool := *;
      if (call.Some? && call.value != friend) || !answered {
        return false;
      }
      call := Some(friend);
      var transition := NoteActive(friend, false);
      var owned: bool := *;
      if !owned {
        var ended := BeginCallEnd(friend, request, "control_unavailable");
        return false;
      }
      ownerRequest := request;
      return true;
    }

    /** The transport reports an incoming call; `id` is newly drawn, unless drawing
        it or reading the friend's key failed. */
    method HookIncoming(friend: nat, key: string, id: string, drawn: bool, blocked: bool, clients: nat)
      requires Valid() && id != "" && !Knows(ring.Contents(), id)
      modifies this
      ensures Valid()
      ensures old(pending.Some? || resetRequested) ==>
                call == old(call) && pending == old(pending) && resetRequested == old(resetRequested)
                && aliases == old(aliases)
      ensures call.Some? && old(call).None? ==> call == Some(friend) && callId == id
      ensures old(pending.None? && !resetRequested && call.None?) && !blocked && drawn && clients > 0 ==>
                call == Some(friend) && incoming && !active && callId == id
      ensures old(pending.None? && !resetRequested && call.None?) && (blocked || !drawn) ==> call.None? && resetRequested
    {
      if pending.Some? || resetRequested {
        return;
      }
      var transition := NoteIncoming(friend, blocked);
      if transition < 0 && call.None? {
        resetRequested := true;
      }
      if transition != 1 {
        return;
      }
      if !drawn {
        var stopped := AvStop(friend);
        resetRequested := true;
        callId, callFriend, callKey := "", None, "";
        return;
      }
      callId, callFriend, callKey := id, Some(friend), key;
      if clients == 0 {
        var ended := BeginCallEnd(friend, "", "control_lost");
      }
    }

    method HookActive(friend: nat, blocked: bool)
      requires Valid()
      modifies this`call, this`active, this`audio, this`resetRequested
      ensures Valid()
      ensures old(pending.Some? || resetRequested) ==> call == old(call) && resetRequested == old(resetRequested)
      ensures !old(pending.Some? || resetRequested) ==>
                if old(call) == Some(friend) || (old(call).None? && !blocked) then call == Some(friend) && active
                else call == old(call) && (call.None? ==> resetRequested)
    {
      if pending.Some? || resetRequested {
        return;
      }
      var transition := NoteActive(friend, blocked);
      if transition < 0 && call.None? {
        resetRequested := true;
      }
    }

    /** The other side ended the call. */
    method HookEnd(friend: nat)
      requires Valid()
      modifies this
      ensures Valid()
      ensures old(pending.Some? || resetRequested) ==>
                call == old(call) && pending == old(pending) && aliases == old(aliases)
      ensures !old(pending.Some? || resetRequested) && old(call) == Some(friend) ==>
                && call.None? && resetRequested
                && (old(callId != "" && callFriend == Some(friend) && callKey != "") ==>
                      pending.Some? && (old(ownerRequest) != "" ==> Waits(old(ownerRequest))))
    {
      if pending.Some? || resetRequested {
        return;
      }
      if call != Some(friend) {
        return;
      }
      AudioStop();
      call, active, incoming := None, false, false;
      resetRequested := true;
      if callFriend == Some(friend) && callKey != "" {
        var queued := QueueCallEnd(friend, callKey, ownerRequest, "remote");
      }
    }

    /** A client asks for the end of call `id`. */
    method Stop(friend: nat, key: string, id: string, request: string) returns (accepted: bool)
      requires Valid() && id != "" && request != ""
      modifies this, ring, ring.slots
      ensures Valid()
      ensures old(pending).Some? ==>
                && pending.Some? && call == old(call) && ring.Contents() == old(ring.Contents())
                && (accepted <==> Waits(request) && old(pending).value.friend == friend
                                  && old(pending).value.callId == id && old(pending).value.key == key)
                && forall r :: old(Waits(r)) ==> Waits(r)
      ensures accepted && old(pending).None? && old(call).None? ==> Has(ring.Contents(), id, request)
      ensures accepted && old(call).Some? ==> Waits(request) && call.None?
    {
      if pending.Some? {
        if friend != pending.value.friend || id != pending.value.callId || key != pending.value.key {
          return false;
        }
        if pending.value.request == "" {
          pending := Some(pending.value.(request := request));
          return true;
        }
        var rc := AddAlias(request);
        return rc == 0;
      }
      if call.Some? && (call.value != friend || id != callId) {
        return false;
      }
      if call.None? {
        accepted := Replay(friend, key, id, request);
        return;
      }
      accepted := BeginCallEnd(friend, request, "local");
    }

    /** Answers for a call that has ended already, from the ring. */
    method Replay(friend: nat, key: string, id: string, request: string) returns (found: bool)
      requires Valid() && pending.None? && call.None? && id != "" && request != ""
      modifies ring, ring.slots
      ensures Valid()
      ensures found ==> Has(ring.Contents(), id, request)
    {
      var previous := ring.FindCall(id, request);
      if previous.None? || previous.value.friend != friend || previous.value.key != key {
        return false;
      }
      ghost var s := ring.Contents();
      var r := previous.value.(request := request);
      RememberedHas(s, r);
      ring.Remember(r);
      return true;
    }

    /** Leaves the result of the ended call for everybody who waits for it. */
    method Finalize(audioAvailable: bool)
      requires Valid() && pending.Some?
      modifies this`pending, this`aliases, this`callId, this`callFriend, this`callKey, ring, ring.slots
      ensures Valid() && pending.None? && callId == ""
      ensures forall r :: old(Waits(r)) ==> Has(ring.Contents(), old(pending).value.callId, r)
    {
      var p := pending.value;
      var result := Record(p.friend, p.key, p.callId, p.request, p.reason, audioAvailable);
      Settle(result, aliases);
      ghost var served := aliases;
      assert forall r :: r in served ==> exists j :: 0 <= j < |served| && served[j] == r;
      pending, aliases := None, [];
      callId, callFriend, callKey := "", None, "";
    }

    method Settle(result: Record, requests: seq<string>)
      requires ring.Valid() && !Knows(ring.Contents(), result.callId) && |requests| <= CLIENTS
      modifies ring, ring.slots
      ensures ring.Valid() && Has(ring.Contents(), result.callId, result.request)
      ensures forall j :: 0 <= j < |requests| ==> Has(ring.Contents(), result.callId, requests[j])
    {
      ghost var s := ring.Contents();
      FirstResult(s, result);
      ring.Remember(result);
      RememberAliases(result, requests, s, [result]);
      AllServed(s, result, requests);
    }

    method RememberAliases(result: Record, requests: seq<string>, ghost s: seq<Record>, ghost first: seq<Record>)
      requires ring.Valid() && !Knows(s, result.callId) && |first| == 1 && |requests| <= CLIENTS
      requires ring.Contents() == Newest(s + first, RESULTS)
      modifies ring, ring.slots
      ensures ring.Valid() && ring.Contents() == Newest(s + GrownAll(first, result, requests), RESULTS)
    {
      for i := 0 to |requests|
        invariant ring.Valid() && ring.Contents() == Newest(s + GrownAll(first, result, requests[..i]), RESULTS)
      {
        ghost var added := GrownAll(first, result, requests[..i]);
        GrownAllHas(first, result, requests[..i]);
        var alias := result.(request := requests[i]);
        RememberStep(s, added, alias);
        ring.Remember(alias);
        assert requests[..i + 1][..i] == requests[..i];
      }
      assert requests[..|requests|] == requests;
    }

    /** Replaces the transport; an end that is pending is settled by it. */
    method ResetTransport(due: bool, destroyed: bool, created: bool)
      requires Valid()
      modifies this, ring, ring.slots
      ensures Valid()
      ensures old(pending).Some? && due && destroyed ==>
                && pending.None?
                && forall r :: old(Waits(r)) ==> Has(ring.Contents(), old(pending).value.callId, r)
      ensures old(resetRequested && (call.None? || pending.Some?)) && due && destroyed ==>
                call.None? && pending.None? && callId == "" && resetRequested == !created
      ensures !(old(resetRequested && (call.None? || pending.Some?)) && due && destroyed) ==>
                pending == old(pending) && aliases == old(aliases) && call == old(call)
                && resetRequested == old(resetRequested)
    {
      if !resetRequested || (call.Some? && pending.None?) || !due || !destroyed {
        return;
      }
      AudioStop();
      call, active, incoming := None, false, false;
      if pending.Some? {
        Finalize(created);
      } else {
        ownerRequest, callId, callFriend, callKey := "", "", None, "";
      }
      if !created {
        return;
      }
      resetRequested := false;
    }
  }

  // --- Nine places are enough -----------------------------------------------------------------------

  lemma RememberedHas(s: seq<Record>, r: Record)
    ensures Has(Remembered(s, r), r.callId, r.request)
    ensures forall id :: Knows(Remembered(s, r), id) ==> Knows(s, id) || id == r.callId
  {
    if !Has(s, r.callId, r.request) {
      var t := Newest(s + [r], RESULTS);
      assert t[|t| - 1] == r;
      forall id | Knows(t, id) ensures Knows(s, id) || id == r.callId {
        var i :| 0 <= i < |t| && t[i].callId == id;
        var j := |s| + 1 - |t| + i;
        assert (s + [r])[j] == t[i];
        assert j < |s| ==> s[j].callId == id;
      }
    }
  }

  /** The new results, one more requester served. */
  function Grown(added: seq<Record>, r: Record): seq<Record> {
    if Has(added, r.callId, r.request) then added else added + [r]
  }

  lemma GrownHas(added: seq<Record>, r: Record)
    ensures Has(Grown(added, r), r.callId, r.request)
    ensures forall id, request :: Has(added, id, request) ==> Has(Grown(added, r), id, request)
  {
    var g := Grown(added, r);
    assert !Has(added, r.callId, r.request) ==> g[|added|] == r;
    forall id, request | Has(added, id, request) ensures Has(g, id, request) {
      var i :| 0 <= i < |added| && added[i].callId == id && added[i].request == request;
      assert g[i] == added[i];
    }
  }

  function GrownAll(first: seq<Record>, result: Record, requests: seq<string>): seq<Record> {
    if requests == [] then first
    else
      var last := |requests| - 1;
      Grown(GrownAll(first, result, requests[..last]), result.(request := requests[last]))
  }

  lemma {:induction false} GrownAllHas(first: seq<Record>, result: Record, requests: seq<string>)
    ensures var all := GrownAll(first, result, requests);
            && |all| <= |first| + |requests|
            && (forall id, request :: Has(first, id, request) ==> Has(all, id, request))
            && (forall j :: 0 <= j < |requests| ==> Has(all, result.callId, requests[j]))
  {
    if requests != [] {
      var last := |requests| - 1;
      GrownAllHas(first, result, requests[..last]);
      GrownHas(GrownAll(first, result, requests[..last]), result.(request := requests[last]));
      assert forall j :: 0 <= j < last ==> requests[j] == requests[..last][j];
    }
  }

  lemma NewestHas(s: seq<Record>, added: seq<Record>)
    requires |added| <= RESULTS
    ensures forall id, request :: Has(added, id, request) ==> Has(Newest(s + added, RESULTS), id, request)
  {
    var all, t := s + added, Newest(s + added, RESULTS);
    forall id, request | Has(added, id, request) ensures Has(t, id, request) {
      var i :| 0 <= i < |added| && added[i].callId == id && added[i].request == request;
      assert t[|t| - |added| + i] == all[|s| + i] == added[i];
    }
  }

  lemma FirstResult(s: seq<Record>, result: Record)
    requires !Knows(s, result.callId) && |s| <= RESULTS
    ensures Remembered(s, result) == Newest(s + [result], RESULTS)
  {
  }

  lemma AllServed(s: seq<Record>, result: Record, requests: seq<string>)
    requires |requests| <= CLIENTS
    ensures var t := Newest(s + GrownAll([result], result, requests), RESULTS);
            && Has(t, result.callId, result.request)
            && forall j :: 0 <= j < |requests| ==> Has(t, result.callId, requests[j])
  {
    GrownAllHas([result], result, requests);
    NewestHas(s, GrownAll([result], result, requests));
    assert [result][0] == result;
    assert Has([result], result.callId, result.request);
  }

  /** A result for an unknown call is among the new ones. */
  lemma OnlyAdded(s: seq<Record>, added: seq<Record>, callId: string, request: string)
    requires !Knows(s, callId) && Has(Newest(s + added, RESULTS), callId, request)
    ensures Has(added, callId, request)
  {
    var c := Newest(s + added, RESULTS);
    var i :| 0 <= i < |c| && c[i].callId == callId && c[i].request == request;
    InAdded(s, added, |s| + |added| - |c| + i, c[i]);
  }

  lemma InAdded(s: seq<Record>, added: seq<Record>, j: nat, r: Record)
    requires j < |s| + |added| && (s + added)[j] == r && !Knows(s, r.callId)
    ensures Has(added, r.callId, r.request)
  {
    assert j >= |s|;
    assert added[j - |s|] == r;
  }

  lemma RememberStep(s: seq<Record>, added: seq<Record>, r: Record)
    requires !Knows(s, r.callId) && |added| < RESULTS
    ensures Remembered(Newest(s + added, RESULTS), r) == Newest(s + Grown(added, r), RESULTS)
  {
    NewestHas(s, added);
    if Has(Newest(s + added, RESULTS), r.callId, r.request) {
      OnlyAdded(s, added, r.callId, r.request);
    } else {
      NewestSnoc(s + added, r);
      assert s + (added + [r]) == (s + added) + [r];
    }
  }

  lemma NewestSnoc(all: seq<Record>, r: Record)
    ensures Newest(Newest(all, RESULTS) + [r], RESULTS) == Newest(all + [r], RESULTS)
  {
  }
}
