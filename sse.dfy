/**
 * The server-sent-event subscriber registry (infrastructure/sse/SeatSseBroadcaster.java):
 * per screening, the list of open emitters; a publish sends one event, carrying only the
 * changed seat ids, to every subscriber and drops those whose send failed.
 *
 * Emitters are identified by number; `send` succeeding or failing is the oracle `sendOk`,
 * and the event's UUID is the parameter `eventId`.
 */
module SeatSse {
  import opened Common
  import opened Seqs

  /** `SSE_TIMEOUT_MS`: thirty minutes. */
  const SseTimeoutMillis: int := 30 * 60 * 1000

  const EventName: string := "seat-status-changed"

  /** `SeatEventPayload`: the event id, the screening and only the seats that changed. */
  datatype SeatEventPayload = SeatEventPayload(eventId: string, screeningId: nat, seatIds: seq<nat>)

  /** One `emitter.send(...)`: the emitter, the event id, the event name and the payload. */
  datatype Delivery = Delivery(emitter: nat, id: string, name: string, data: SeatEventPayload)

  /** Screening id to its subscribers, in registration order. */
  type Registry = map<nat, seq<nat>>

  /** The registry never keeps a screening whose list is empty. */
  predicate NoEmptyLists(subs: Registry)
  {
    forall s :: s in subs ==> subs[s] != []
  }

  /** The subscribers of a screening; an absent key reads as no subscribers. */
  function SubscribersOf(subs: Registry, screeningId: nat): seq<nat>
  {
    if screeningId in subs then subs[screeningId] else []
  }

  /** `computeIfAbsent(...).add(emitter)`. */
  function RegisterStep(subs: Registry, screeningId: nat, emitter: nat): (r: Registry)
    ensures screeningId in r && r[screeningId] == SubscribersOf(subs, screeningId) + [emitter]
    ensures forall s :: s != screeningId ==> SubscribersOf(r, s) == SubscribersOf(subs, s)
    ensures NoEmptyLists(subs) ==> NoEmptyLists(r)
  {
    subs[screeningId := SubscribersOf(subs, screeningId) + [emitter]]
  }

  /** `List.remove(Object)`: drops the first occurrence, if any. */
  function RemoveFirst(l: seq<nat>, e: nat): (r: seq<nat>)
    ensures e !in l ==> r == l
    ensures e in l ==> |r| == |l| - 1
    ensures multiset(r) == multiset(l) - multiset{e}
    ensures forall x :: x in r ==> x in l
  {
    if l == [] then []
    else
      assert l == [l[0]] + l[1..];
      if l[0] == e then l[1..]
      else [l[0]] + RemoveFirst(l[1..], e)
  }

  /** Store a screening's list, deleting the key when the list is empty. */
  function Put(subs: Registry, screeningId: nat, l: seq<nat>): (r: Registry)
    ensures SubscribersOf(r, screeningId) == l
    ensures forall s :: s != screeningId ==> SubscribersOf(r, s) == SubscribersOf(subs, s)
    ensures NoEmptyLists(subs) ==> NoEmptyLists(r)
  {
    if l == [] then subs - {screeningId} else subs[screeningId := l]
  }

  /** `unregister`: remove the emitter; drop the screening once nobody is left. */
  function UnregisterStep(subs: Registry, screeningId: nat, emitter: nat): Registry
  {
    if screeningId !in subs then subs
    else Put(subs, screeningId, RemoveFirst(subs[screeningId], emitter))
  }

  /** The `for (SseEmitter e : dead) unregister(...)` loop. */
  function UnregisterEach(subs: Registry, screeningId: nat, dead: seq<nat>): Registry
    decreases |dead|
  {
    if dead == [] then subs else UnregisterEach(UnregisterStep(subs, screeningId, dead[0]), screeningId, dead[1..])
  }

  /** Removing each of `dead` in turn from a list. */
  function RemoveEach(l: seq<nat>, dead: seq<nat>): seq<nat>
    decreases |dead|
  {
    if dead == [] then l else RemoveEach(RemoveFirst(l, dead[0]), dead[1..])
  }

  /** The attempted send to one emitter. */
  function DeliveryTo(eventId: string, screeningId: nat, seatIds: seq<nat>, emitter: nat): Delivery
  {
    Delivery(emitter, eventId, EventName, SeatEventPayload(eventId, screeningId, seatIds))
  }

  /** Publishing does nothing for a null screening, a null or empty seat list, or a screening nobody follows. */
  predicate PublishSkipped(subs: Registry, screeningId: Option<nat>, seatIds: Option<seq<nat>>)
  {
    screeningId.None? || seatIds.None? || seatIds.value == [] || SubscribersOf(subs, screeningId.value) == []
  }

  /**
   * `publishSeatStatusChanged`: the sends attempted, in subscriber order, and the registry
   * after the emitters whose send failed are unregistered.
   */
  function PublishStep(subs: Registry, screeningId: Option<nat>, seatIds: Option<seq<nat>>, eventId: string,
                       sendOk: nat -> bool): (seq<Delivery>, Registry)
  {
    if PublishSkipped(subs, screeningId, seatIds) then ([], subs)
    else
      var l := subs[screeningId.value];
      (Map(l, e => DeliveryTo(eventId, screeningId.value, seatIds.value, e)),
       UnregisterEach(subs, screeningId.value, Filter(l, e => !sendOk(e))))
  }

  /** Unregistering removes one occurrence of the emitter and leaves every other screening alone. */
  lemma UnregisterSpec(subs: Registry, screeningId: nat, emitter: nat)
    ensures var r := UnregisterStep(subs, screeningId, emitter);
      && SubscribersOf(r, screeningId) == RemoveFirst(SubscribersOf(subs, screeningId), emitter)
      && (forall s :: s != screeningId ==> SubscribersOf(r, s) == SubscribersOf(subs, s))
      && (NoEmptyLists(subs) ==> NoEmptyLists(r))
      && (SubscribersOf(r, screeningId) == [] ==> screeningId !in r)
  {
  }

  /** Unregistering a list of emitters is removing each from the screening's list, then storing the rest. */
  lemma {:induction false} UnregisterEachIsRemoveEach(subs: Registry, screeningId: nat, l: seq<nat>, dead: seq<nat>)
    ensures UnregisterEach(Put(subs, screeningId, l), screeningId, dead) == Put(subs, screeningId, RemoveEach(l, dead))
    decreases |dead|
  {
    if dead != [] {
      UnregisterPut(subs, screeningId, l, dead[0]);
      UnregisterEachIsRemoveEach(subs, screeningId, RemoveFirst(l, dead[0]), dead[1..]);
    }
  }

  /** Unregistering from a stored list stores that list with the emitter removed. */
  lemma UnregisterPut(subs: Registry, screeningId: nat, l: seq<nat>, emitter: nat)
    ensures UnregisterStep(Put(subs, screeningId, l), screeningId, emitter) == Put(subs, screeningId, RemoveFirst(l, emitter))
  {
    if l == [] {
      assert screeningId !in Put(subs, screeningId, l);
    } else {
      PutOverPut(subs, screeningId, l, RemoveFirst(l, emitter));
    }
  }

  /** Storing a list over a stored non-empty list forgets the first. */
  lemma PutOverPut(subs: Registry, screeningId: nat, l: seq<nat>, l1: seq<nat>)
    requires l != []
    ensures Put(subs[screeningId := l], screeningId, l1) == Put(subs, screeningId, l1)
  {
    var m := subs[screeningId := l];
    if l1 == [] {
      assert m - {screeningId} == subs - {screeningId};
    } else {
      assert m[screeningId := l1] == subs[screeningId := l1];
    }
  }

  /** Removing a value that is not at the head keeps the head. */
  lemma RemoveFirstPastHead(x: nat, t: seq<nat>, e: nat)
    requires x != e
    ensures RemoveFirst([x] + t, e) == [x] + RemoveFirst(t, e)
  {
    assert ([x] + t)[1..] == t;
  }

  /** Removing values none of which is the head keeps the head. */
  lemma {:induction false} RemoveEachPastHead(x: nat, t: seq<nat>, dead: seq<nat>)
    requires x !in dead
    ensures RemoveEach([x] + t, dead) == [x] + RemoveEach(t, dead)
    decreases |dead|
  {
    if dead != [] {
      RemoveFirstPastHead(x, t, dead[0]);
      RemoveEachPastHead(x, RemoveFirst(t, dead[0]), dead[1..]);
    }
  }

  /** Removing the failed emitters, one occurrence per failed send, leaves exactly those whose send succeeded. */
  lemma {:induction false} RemoveFailedKeepsSucceeded(l: seq<nat>, sendOk: nat -> bool)
    ensures RemoveEach(l, Filter(l, e => !sendOk(e))) == Filter(l, sendOk)
    decreases |l|
  {
    if l != [] {
      var t := l[1..];
      assert l == [l[0]] + t;
      RemoveFailedKeepsSucceeded(t, sendOk);
      if sendOk(l[0]) {
        assert Filter(l, e => !sendOk(e)) == Filter(t, e => !sendOk(e));
        assert l[0] !in Filter(t, e => !sendOk(e));
        RemoveEachPastHead(l[0], t, Filter(t, e => !sendOk(e)));
      } else {
        assert Filter(l, e => !sendOk(e)) == [l[0]] + Filter(t, e => !sendOk(e));
        assert RemoveFirst(l, l[0]) == t;
      }
    }
  }

  /**
   * A publish that goes ahead sends to every subscriber in order, all with one event id and the
   * given seat ids; afterwards the screening keeps exactly the emitters whose send succeeded
   * (and is dropped when none did), and no other screening changes.
   */
  lemma PublishSpec(subs: Registry, screeningId: Option<nat>, seatIds: Option<seq<nat>>, eventId: string,
                    sendOk: nat -> bool)
    requires NoEmptyLists(subs)
    ensures var (sent, r) := PublishStep(subs, screeningId, seatIds, eventId, sendOk);
      && NoEmptyLists(r)
      && (PublishSkipped(subs, screeningId, seatIds) <==> sent == [])
      && (PublishSkipped(subs, screeningId, seatIds) ==> r == subs)
      && (!PublishSkipped(subs, screeningId, seatIds) ==>
            var l := subs[screeningId.value];
            && |sent| == |l|
            && (forall i :: 0 <= i < |sent| ==>
                  sent[i].emitter == l[i] && sent[i].id == eventId && sent[i].name == EventName
                  && sent[i].data == SeatEventPayload(eventId, screeningId.value, seatIds.value))
            && SubscribersOf(r, screeningId.value) == Filter(l, sendOk)
            && (forall s :: s != screeningId.value ==> SubscribersOf(r, s) == SubscribersOf(subs, s)))
  {
    if !PublishSkipped(subs, screeningId, seatIds) {
      var sid := screeningId.value;
      var l := subs[sid];
      assert Put(subs, sid, l) == subs;
      UnregisterEachIsRemoveEach(subs, sid, l, Filter(l, e => !sendOk(e)));
      RemoveFailedKeepsSucceeded(l, sendOk);
    }
  }

  /** An emitter whose send failed is gone from its screening; one whose send succeeded is still there. */
  lemma PublishDropsExactlyTheFailed(subs: Registry, screeningId: nat, seatIds: seq<nat>, eventId: string,
                                     sendOk: nat -> bool, e: nat)
    requires NoEmptyLists(subs) && seatIds != []
    ensures var r := PublishStep(subs, Some(screeningId), Some(seatIds), eventId, sendOk).1;
      e in SubscribersOf(subs, screeningId) ==> (e in SubscribersOf(r, screeningId) <==> sendOk(e))
  {
    PublishSpec(subs, Some(screeningId), Some(seatIds), eventId, sendOk);
  }

  /** The send loop of a publish: one attempt per subscriber, collecting the emitters whose send failed. */
  method SendToEach(list: seq<nat>, eventId: string, screeningId: nat, seatIds: seq<nat>, sendOk: nat -> bool)
    returns (sent: seq<Delivery>, dead: seq<nat>)
    ensures sent == Map(list, e => DeliveryTo(eventId, screeningId, seatIds, e))
    ensures dead == Filter(list, e => !sendOk(e))
  {
    ghost var f := e => DeliveryTo(eventId, screeningId, seatIds, e);
    ghost var failed := e => !sendOk(e);
    sent := [];
    dead := [];
    var i := 0;
    while i < |list|
      invariant 0 <= i <= |list|
      invariant sent == Map(list[..i], f)
      invariant dead == Filter(list[..i], failed)
    {
      var e := list[i];
      PrefixExtend(list, i, f, failed);
      sent := sent + [DeliveryTo(eventId, screeningId, seatIds, e)];
      if !sendOk(e) {
        dead := dead + [e];
      }
      i := i + 1;
    }
    assert list[..i] == list;
  }

  /** Every registered emitter is numbered below `bound`. */
  predicate NumberedBelow(subs: Registry, bound: nat)
  {
    forall s, e :: s in subs && e in subs[s] ==> e < bound
  }

  /** Unregistering hands out no new numbers. */
  lemma UnregisterKeepsNumbering(subs: Registry, screeningId: nat, emitter: nat, bound: nat)
    requires NumberedBelow(subs, bound)
    ensures NumberedBelow(UnregisterStep(subs, screeningId, emitter), bound)
  {
    var r := UnregisterStep(subs, screeningId, emitter);
    forall s, e | s in r && e in r[s]
      ensures e < bound
    {
      if s == screeningId {
        assert e in RemoveFirst(subs[s], emitter);
      } else {
        assert r[s] == subs[s];
      }
    }
  }

  class SeatSseBroadcaster {
    /** `screeningSubscribers`. */
    var subscribers: Registry
    /** Every emitter handed out so far is numbered below this. */
    var nextEmitter: nat

    predicate Valid()
      reads this
    {
      NoEmptyLists(subscribers) && NumberedBelow(subscribers, nextEmitter)
    }

    constructor ()
      ensures Valid() && subscribers == map[]
    {
      subscribers := map[];
      nextEmitter := 0;
    }

    /** `register`: a new emitter, appended to the screening's list. */
    method Register(screeningId: nat) returns (emitter: nat)
      requires Valid()
      modifies this
      ensures Valid()
      ensures subscribers == RegisterStep(old(subscribers), screeningId, emitter)
      ensures forall s :: emitter !in SubscribersOf(old(subscribers), s)
    {
      emitter := nextEmitter;
      nextEmitter := nextEmitter + 1;
      var current := if screeningId in subscribers then subscribers[screeningId] else [];
      subscribers := subscribers[screeningId := current + [emitter]];
    }

    /** `unregister`, run when an emitter completes, times out or fails. */
    method Unregister(screeningId: nat, emitter: nat)
      requires Valid()
      modifies this
      ensures Valid()
      ensures subscribers == UnregisterStep(old(subscribers), screeningId, emitter)
      ensures nextEmitter == old(nextEmitter)
    {
      UnregisterKeepsNumbering(subscribers, screeningId, emitter, nextEmitter);
      if screeningId in subscribers {
        var list := RemoveFirst(subscribers[screeningId], emitter);
        if list == [] {
          subscribers := subscribers - {screeningId};
        } else {
          subscribers := subscribers[screeningId := list];
        }
      }
    }

    /** `publishSeatStatusChanged`: send to each subscriber, then unregister the ones that failed. */
    method PublishSeatStatusChanged(screeningId: Option<nat>, seatIds: Option<seq<nat>>, eventId: string,
                                    sendOk: nat -> bool) returns (sent: seq<Delivery>)
      requires Valid()
      modifies this
      ensures Valid()
      ensures (sent, subscribers) == PublishStep(old(subscribers), screeningId, seatIds, eventId, sendOk)
    {
      if screeningId.None? || seatIds.None? || seatIds.value == [] {
        return [];
      }
      var sid := screeningId.value;
      if sid !in subscribers || subscribers[sid] == [] {
        return [];
      }
      var list := subscribers[sid];
      var dead;
      sent, dead := SendToEach(list, eventId, sid, seatIds.value, sendOk);
      var j := 0;
      while j < |dead|
        invariant 0 <= j <= |dead| && Valid()
        invariant UnregisterEach(subscribers, sid, dead[j..]) == UnregisterEach(old(subscribers), sid, dead)
      {
        assert dead[j..][0] == dead[j] && dead[j..][1..] == dead[j + 1..];
        Unregister(sid, dead[j]);
        j := j + 1;
      }
      assert dead[j..] == [];
    }
  }
}
