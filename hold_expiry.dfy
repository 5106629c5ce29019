/**
 * The hold-expiry sweep (domain/screening/scheduler/HoldExpiryScheduler.java): find the
 * expired holds, group their seat ids by screening, delete each hold entry, release the
 * rows in bulk with the same `now`, then per screening invalidate the layout cache and
 * publish one seat event.
 *
 * The store's availability during the sweep is the parameter `up`; the UUID of the event
 * published for a screening is `eventIdFor(screeningId)`; `sendOk` says which emitters'
 * sends succeed.
 */
module HoldExpiry {
  import opened Common
  import opened Seqs
  import opened ScreeningSeats
  import opened SeatRepository
  import opened RedisHolds
  import opened SeatSse
  import SeatQuery

  /** Reference definition: the seat ids of a screening's expired seats, in discovery order. */
  function SeatIdsIn(expired: seq<SeatRecord>, screeningId: nat): seq<nat>
  {
    Map(Filter(expired, (r: SeatRecord) => r.screeningId == screeningId), (r: SeatRecord) => r.SeatId())
  }

  /** One step of the grouping loop: `computeIfAbsent(screeningId, ...).add(seatId)`. */
  function AddToGroup(groups: map<nat, seq<nat>>, order: seq<nat>, r: SeatRecord): (map<nat, seq<nat>>, seq<nat>)
  {
    if r.screeningId in groups then (groups[r.screeningId := groups[r.screeningId] + [r.SeatId()]], order)
    else (groups[r.screeningId := [r.SeatId()]], order + [r.screeningId])
  }

  /**
   * The grouping map built by the loop over `expired`, and its keys in the order they were
   * first met (the order the model walks the map's entries in).
   */
  function Grouping(expired: seq<SeatRecord>): (map<nat, seq<nat>>, seq<nat>)
    decreases |expired|
  {
    if expired == [] then (map[], [])
    else
      var (g, order) := Grouping(expired[..|expired| - 1]);
      AddToGroup(g, order, expired[|expired| - 1])
  }

  /** `redisService.deleteHold` for each expired seat in turn. */
  function DeleteEach(rs: RedisState, expired: seq<SeatRecord>, up: bool): RedisState
    decreases |expired|
  {
    if expired == [] then rs
    else
      var last := expired[|expired| - 1];
      DeleteHoldStep(DeleteEach(rs, expired[..|expired| - 1], up), HoldKey(last.screeningId, last.SeatId()), up)
  }

  /** `invalidateSeatStatusCache` for each affected screening in turn. */
  function InvalidateEach(rs: RedisState, screenings: seq<nat>, up: bool): RedisState
    decreases |screenings|
  {
    if screenings == [] then rs
    else InvalidateSeatStatusStep(InvalidateEach(rs, screenings[..|screenings| - 1], up), StatusKey(screenings[|screenings| - 1]), up)
  }

  /** `publishSeatStatusChanged` for each affected screening in turn: the sends made and the registry after. */
  function PublishEach(subs: Registry, groups: map<nat, seq<nat>>, screenings: seq<nat>,
                       eventIdFor: nat -> string, sendOk: nat -> bool): (seq<Delivery>, Registry)
    decreases |screenings|
  {
    if screenings == [] then ([], subs)
    else
      var s := screenings[|screenings| - 1];
      var (sent, r) := PublishEach(subs, groups, screenings[..|screenings| - 1], eventIdFor, sendOk);
      var ids := if s in groups then groups[s] else [];
      var (more, r') := PublishStep(r, Some(s), Some(ids), eventIdFor(s), sendOk);
      (sent + more, r')
  }

  /** The whole sweep: rows, store, subscriber registry after it, and the events sent. */
  function SweepStep(rows: seq<SeatRecord>, rs: RedisState, subs: Registry, now: int, up: bool,
                     eventIdFor: nat -> string, sendOk: nat -> bool): (seq<SeatRecord>, RedisState, Registry, seq<Delivery>)
  {
    var expired := FindExpiredHolds(rows, now);
    if expired == [] then (rows, rs, subs, [])
    else
      var (groups, order) := Grouping(expired);
      var (sent, subs') := PublishEach(subs, groups, order, eventIdFor, sendOk);
      (ReleaseRows(rows, now), InvalidateEach(DeleteEach(rs, expired, up), order, up), subs', sent)
  }

  /** Each affected screening is listed once, in discovery order, and only affected screenings get a group. */
  lemma {:induction false} GroupingKeys(expired: seq<SeatRecord>)
    ensures var (g, order) := Grouping(expired);
      && Distinct(order)
      && (forall s :: s in g <==> s in order)
      && (forall s :: s in order <==> exists r :: r in expired && r.screeningId == s)
    decreases |expired|
  {
    if expired != [] {
      var init := expired[..|expired| - 1];
      var last := expired[|expired| - 1];
      assert expired == init + [last];
      GroupingKeys(init);
      var (g0, o0) := Grouping(init);
      var (g, order) := Grouping(expired);
      forall s | s in order
        ensures exists r :: r in expired && r.screeningId == s
      {
        if s in o0 {
          var r :| r in init && r.screeningId == s;
          assert r in expired;
        } else {
          assert last in expired;
        }
      }
      forall s | exists r :: r in expired && r.screeningId == s
        ensures s in order
      {
        var r :| r in expired && r.screeningId == s;
        if r != last {
          assert r in init;
        }
      }
    }
  }

  /** Each group holds exactly the seat ids of its own screening's expired seats, in discovery order. */
  lemma {:induction false} GroupingValues(expired: seq<SeatRecord>)
    ensures var (g, order) := Grouping(expired);
      forall s :: s in g ==> g[s] == SeatIdsIn(expired, s)
    decreases |expired|
  {
    if expired != [] {
      var init := expired[..|expired| - 1];
      var last := expired[|expired| - 1];
      assert expired == init + [last];
      GroupingValues(init);
      GroupingKeys(init);
      var (g0, o0) := Grouping(init);
      forall s | s in AddToGroup(g0, o0, last).0
        ensures AddToGroup(g0, o0, last).0[s] == SeatIdsIn(init + [last], s)
      {
        AddToGroupValue(g0, o0, init, last, s);
      }
    }
  }

  /** One more seat keeps every group equal to its screening's seat ids. */
  lemma AddToGroupValue(g0: map<nat, seq<nat>>, o0: seq<nat>, init: seq<SeatRecord>, last: SeatRecord, s: nat)
    requires forall t :: t in g0 ==> g0[t] == SeatIdsIn(init, t)
    requires forall t :: t in g0 <==> t in o0
    requires forall t :: t in o0 <==> exists r :: r in init && r.screeningId == t
    requires s in AddToGroup(g0, o0, last).0
    ensures AddToGroup(g0, o0, last).0[s] == SeatIdsIn(init + [last], s)
  {
    SeatIdsInAppend(init, last, s);
    if s !in g0 {
      SeatIdsInNone(init, s);
    }
  }

  /** The seat ids of a screening, one seat later. */
  lemma SeatIdsInAppend(init: seq<SeatRecord>, last: SeatRecord, s: nat)
    ensures SeatIdsIn(init + [last], s) == SeatIdsIn(init, s) + (if last.screeningId == s then [last.SeatId()] else [])
  {
    var inS := (r: SeatRecord) => r.screeningId == s;
    FilterAppend(init, [last], inS);
    MapAppend(Filter(init, inS), Filter([last], inS), (r: SeatRecord) => r.SeatId());
  }

  /** A screening none of whose seats expired has no seat ids. */
  lemma SeatIdsInNone(expired: seq<SeatRecord>, s: nat)
    requires forall r :: r in expired ==> r.screeningId != s
    ensures SeatIdsIn(expired, s) == []
  {
    FilterKeepsNone(expired, (r: SeatRecord) => r.screeningId == s);
  }

  /**
   * Each affected screening is listed once, in discovery order, and its group holds exactly the
   * seat ids of its own expired seats, in discovery order, so none is empty; no other screening gets a group.
   */
  lemma GroupingSpec(expired: seq<SeatRecord>)
    ensures var (g, order) := Grouping(expired);
      && Distinct(order)
      && (forall s :: s in g <==> s in order)
      && (forall s :: s in order <==> exists r :: r in expired && r.screeningId == s)
      && (forall s :: s in g ==> g[s] == SeatIdsIn(expired, s) && g[s] != [])
  {
    GroupingKeys(expired);
    GroupingValues(expired);
    var (g, order) := Grouping(expired);
    forall s | s in g
      ensures g[s] != []
    {
      var r :| r in expired && r.screeningId == s;
      assert r in Filter(expired, (r: SeatRecord) => r.screeningId == s);
    }
  }

  /** Deleting the expired holds removes each of their entries where the store call went. */
  lemma {:induction false} DeleteEachSpec(rs: RedisState, expired: seq<SeatRecord>, up: bool)
    ensures var r := DeleteEach(rs, expired, up);
      && r.statusCache == rs.statusCache
      && (expired != [] ==> r.available == up)
      && (forall x :: x in expired ==>
            if up then HoldKey(x.screeningId, x.SeatId()) !in r.holds
            else HoldKey(x.screeningId, x.SeatId()) !in r.localHolds)
    decreases |expired|
  {
    if expired != [] {
      var init := expired[..|expired| - 1];
      DeleteEachSpec(rs, init, up);
      assert forall x :: x in expired ==> x in init || x == expired[|expired| - 1];
    }
  }

  /** Invalidation touches only the layout cache, and drops each affected screening's entry when the store answers. */
  lemma {:induction false} InvalidateEachSpec(rs: RedisState, screenings: seq<nat>, up: bool)
    ensures var r := InvalidateEach(rs, screenings, up);
      && r.holds == rs.holds && r.localHolds == rs.localHolds
      && (screenings != [] ==> r.available == up)
      && (up ==> forall s :: s in screenings ==> StatusKey(s) !in r.statusCache)
    decreases |screenings|
  {
    if screenings != [] {
      var init := screenings[..|screenings| - 1];
      InvalidateEachSpec(rs, init, up);
      assert forall s :: s in screenings ==> s in init || s == screenings[|screenings| - 1];
    }
  }

  /** Every event sent belongs to one listed screening, carries that screening's event id and its group's seat ids. */
  lemma {:induction false} PublishEachSpec(subs: Registry, groups: map<nat, seq<nat>>, screenings: seq<nat>,
                                           eventIdFor: nat -> string, sendOk: nat -> bool)
    requires NoEmptyLists(subs)
    ensures var (sent, r) := PublishEach(subs, groups, screenings, eventIdFor, sendOk);
      && NoEmptyLists(r)
      && (forall i :: 0 <= i < |sent| ==>
            var s := sent[i].data.screeningId;
            s in screenings && s in groups && sent[i].data.seatIds == groups[s] != []
            && sent[i].id == eventIdFor(s) && sent[i].data.eventId == eventIdFor(s) && sent[i].name == EventName)
    decreases |screenings|
  {
    if screenings != [] {
      var init := screenings[..|screenings| - 1];
      var s := screenings[|screenings| - 1];
      PublishEachSpec(subs, groups, init, eventIdFor, sendOk);
      var (sent0, r0) := PublishEach(subs, groups, init, eventIdFor, sendOk);
      var ids := if s in groups then groups[s] else [];
      PublishSpec(r0, Some(s), Some(ids), eventIdFor(s), sendOk);
      var (more, r1) := PublishStep(r0, Some(s), Some(ids), eventIdFor(s), sendOk);
      var sent := sent0 + more;
      forall i | 0 <= i < |sent|
        ensures var t := sent[i].data.screeningId;
          t in screenings && t in groups && sent[i].data.seatIds == groups[t] != []
          && sent[i].id == eventIdFor(t) && sent[i].data.eventId == eventIdFor(t) && sent[i].name == EventName
      {
        if i < |sent0| {
          assert sent[i] == sent0[i];
          assert sent0[i].data.screeningId in init;
        } else {
          assert sent[i] == more[i - |sent0|];
        }
      }
    }
  }

  /**
   * After the sweep no expired hold is left in the table (so a second sweep with the same `now`
   * finds nothing), every expired hold entry is deleted where the store call went, each affected
   * screening's cached layout is dropped when the store answers, and each event carries one
   * affected screening's own expired seat ids.
   */
  lemma SweepSpec(rows: seq<SeatRecord>, rs: RedisState, subs: Registry, now: int, up: bool,
                  eventIdFor: nat -> string, sendOk: nat -> bool)
    requires NoEmptyLists(subs)
    ensures var expired := FindExpiredHolds(rows, now);
      var (rows', rs', subs', sent) := SweepStep(rows, rs, subs, now, up, eventIdFor, sendOk);
      && FindExpiredHolds(rows', now) == []
      && NoEmptyLists(subs')
      && (forall x :: x in expired ==>
            if up then HoldKey(x.screeningId, x.SeatId()) !in rs'.holds
            else HoldKey(x.screeningId, x.SeatId()) !in rs'.localHolds)
      && (up ==> forall x :: x in expired ==> StatusKey(x.screeningId) !in rs'.statusCache)
      && (forall i :: 0 <= i < |sent| ==>
            var s := sent[i].data.screeningId;
            sent[i].data.seatIds == SeatIdsIn(expired, s) != [] && sent[i].id == eventIdFor(s))
  {
    var expired := FindExpiredHolds(rows, now);
    if expired == [] {
      FindExpiredHoldsSpec(rows, now);
      assert forall r :: r in rows ==> !ExpiredHold(r, now);
      FilterKeepsNone(rows, r => ExpiredHold(r, now));
    } else {
      ReleaseRowsIdempotent(rows, now);
      GroupingSpec(expired);
      var (groups, order) := Grouping(expired);
      DeleteEachSpec(rs, expired, up);
      InvalidateEachSpec(DeleteEach(rs, expired, up), order, up);
      PublishEachSpec(subs, groups, order, eventIdFor, sendOk);
    }
  }

  class HoldExpiryScheduler {
    const repository: ScreeningSeatRepository
    const redis: RedisService
    const seatStatusQuery: SeatQuery.SeatStatusQueryService
    const publisher: SeatSseBroadcaster

    predicate Valid()
      reads this, repository, publisher, seatStatusQuery
    {
      repository.Valid() && publisher.Valid() && seatStatusQuery.redis == redis
    }

    constructor (repository: ScreeningSeatRepository, redis: RedisService,
                 seatStatusQuery: SeatQuery.SeatStatusQueryService, publisher: SeatSseBroadcaster)
      requires repository.Valid() && publisher.Valid() && seatStatusQuery.redis == redis
      ensures Valid()
      ensures this.repository == repository && this.redis == redis
      ensures this.seatStatusQuery == seatStatusQuery && this.publisher == publisher
    {
      this.repository := repository;
      this.redis := redis;
      this.seatStatusQuery := seatStatusQuery;
      this.publisher := publisher;
    }

    /** `releaseExpiredHolds`, run every minute; `now` is read once and used for both the query and the update. */
    method ReleaseExpiredHolds(now: int, up: bool, eventIdFor: nat -> string, sendOk: nat -> bool)
      returns (sent: seq<Delivery>)
      requires Valid()
      modifies repository, redis, publisher
      ensures Valid()
      ensures (repository.rows, redis.State(), publisher.subscribers, sent)
              == SweepStep(old(repository.rows), old(redis.State()), old(publisher.subscribers), now, up, eventIdFor, sendOk)
    {
      var expired := repository.FindExpired(now);
      if expired == [] {
        return [];
      }
      var groups, order := GroupAndDelete(expired, up);
      var _ := repository.ReleaseExpiredHolds(now);
      GroupingSpec(expired);
      sent := InvalidateAndPublish(groups, order, up, eventIdFor, sendOk);
    }

    /** The loop over the expired seats: group the seat ids by screening and delete each hold entry. */
    method GroupAndDelete(expired: seq<SeatRecord>, up: bool) returns (groups: map<nat, seq<nat>>, order: seq<nat>)
      modifies redis
      ensures (groups, order) == Grouping(expired)
      ensures redis.State() == DeleteEach(old(redis.State()), expired, up)
    {
      groups := map[];
      order := [];
      var i := 0;
      while i < |expired|
        invariant 0 <= i <= |expired|
        invariant (groups, order) == Grouping(expired[..i])
        invariant redis.State() == DeleteEach(old(redis.State()), expired[..i], up)
      {
        var ss := expired[i];
        assert expired[..i + 1][..i] == expired[..i];
        if ss.screeningId in groups {
          groups := groups[ss.screeningId := groups[ss.screeningId] + [ss.SeatId()]];
        } else {
          groups := groups[ss.screeningId := [ss.SeatId()]];
          order := order + [ss.screeningId];
        }
        redis.DeleteHold(ss.screeningId, ss.SeatId(), up);
        i := i + 1;
      }
      assert expired[..i] == expired;
    }

    /** The loop over the grouping map: invalidate each screening's cached layout, then publish its seats. */
    method InvalidateAndPublish(groups: map<nat, seq<nat>>, order: seq<nat>, up: bool,
                                eventIdFor: nat -> string, sendOk: nat -> bool) returns (sent: seq<Delivery>)
      requires Valid()
      requires forall s :: s in order ==> s in groups
      modifies redis, publisher
      ensures Valid()
      ensures redis.State() == InvalidateEach(old(redis.State()), order, up)
      ensures (sent, publisher.subscribers) == PublishEach(old(publisher.subscribers), groups, order, eventIdFor, sendOk)
    {
      sent := [];
      var j := 0;
      while j < |order|
        invariant 0 <= j <= |order| && Valid()
        invariant redis.State() == InvalidateEach(old(redis.State()), order[..j], up)
        invariant (sent, publisher.subscribers) == PublishEach(old(publisher.subscribers), groups, order[..j], eventIdFor, sendOk)
      {
        var s := order[j];
        assert order[..j + 1][..j] == order[..j];
        seatStatusQuery.InvalidateSeatStatusCache(s, up);
        var more := publisher.PublishSeatStatusChanged(Some(s), Some(groups[s]), eventIdFor(s), sendOk);
        sent := sent + more;
        j := j + 1;
      }
      assert order[..j] == order;
    }
  }
}
