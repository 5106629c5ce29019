/**
 * The seat-layout read (domain/screening/service/SeatStatusQueryService.java):
 * cache-aside over the layout cache, then a per-caller pass that marks the
 * caller's own holds.
 *
 * The screening store is a parameter mapping a screening id to its seat rows
 * in collection order. How each store call goes is an oracle parameter:
 * `readUp` for the cache read, `writeUp` for the cache write and `holdUp` for
 * the hold lookups of the per-caller pass.
 */
module SeatQuery {
  import opened Common
  import opened SeatStatuses
  import opened ScreeningSeats
  import opened SeatLayouts
  import opened RedisHolds

  /** `seat.status.cache-ttl-minutes` default. */
  const CacheTtlMinutes: int := 5

  /** `toSeatStatusItem`: the shared columns of a row; never a hold token. */
  function ToSeatStatusItem(ss: SeatRecord): (item: SeatStatusItem)
    ensures item.seatId == ss.SeatId() && item.status == ss.status
    ensures item.rowLabel == ss.seat.rowLabel && item.seatNo == ss.seat.seatNo
    ensures item.holdExpireAt == ss.holdExpireAt
    ensures item.holdToken.None? && item.isHeldByCurrentUser.None?
  {
    SeatStatusItem(ss.SeatId(), ss.status, ss.seat.rowLabel, ss.seat.seatNo, ss.holdExpireAt, None, None)
  }

  /** The layout built from a screening's rows. */
  function BuildLayout(screeningId: nat, seats: seq<SeatRecord>): (layout: SeatLayout)
    ensures layout.screeningId == screeningId && |layout.seats| == |seats|
    ensures forall i :: 0 <= i < |seats| ==> layout.seats[i] == ToSeatStatusItem(seats[i])
  {
    SeatLayout(screeningId, seq(|seats|, i requires 0 <= i < |seats| => ToSeatStatusItem(seats[i])))
  }

  /**
   * `enrichWithMyHold`, given what the hold lookup found (`found`, looked up only
   * for HOLD seats): the token and `true` exactly for a HOLD seat whose hold
   * belongs to the caller; otherwise no token and `false`.
   */
  function EnrichItem(item: SeatStatusItem, found: Option<HoldInfo>, memberId: nat): (r: SeatStatusItem)
    ensures SamePublicFields(r, item)
    ensures var mine := item.status == HOLD && found.Some? && found.value.memberId == memberId;
      && r.isHeldByCurrentUser == Some(mine)
      && (mine ==> r.holdToken == Some(found.value.holdToken))
      && (!mine ==> r.holdToken.None?)
  {
    if item.status != HOLD then item.(holdToken := None, isHeldByCurrentUser := Some(false))
    else if found.Some? && found.value.memberId == memberId then
      item.(holdToken := Some(found.value.holdToken), isHeldByCurrentUser := Some(true))
    else item.(holdToken := None, isHeldByCurrentUser := Some(false))
  }

  /** The per-caller pass over the items, left to right; HOLD items look their hold up. */
  function EnrichAll(items: seq<SeatStatusItem>, rs: RedisState, screeningId: nat, memberId: nat,
                     now: int, up: bool): (r: (seq<SeatStatusItem>, RedisState))
    ensures |r.0| == |items|
    decreases |items|
  {
    if items == [] then ([], rs)
    else
      var item := items[0];
      var (found, rs1) := if item.status == HOLD then GetHoldStep(rs, HoldKey(screeningId, item.seatId), now, up)
                          else (None, rs);
      var rest := EnrichAll(items[1..], rs1, screeningId, memberId, now, up);
      ([EnrichItem(item, found, memberId)] + rest.0, rest.1)
  }

  /**
   * The pass keeps length, order and every shared field, and marks each item
   * from the hold store as it stood before the pass.
   */
  lemma {:induction false} EnrichAllSpec(items: seq<SeatStatusItem>, rs: RedisState, screeningId: nat, memberId: nat,
                                         now: int, up: bool)
    ensures var r := EnrichAll(items, rs, screeningId, memberId, now, up).0;
      forall i :: 0 <= i < |items| ==>
        r[i] == EnrichItem(items[i], HoldView(rs, HoldKey(screeningId, items[i].seatId), now, up), memberId)
    ensures var r := EnrichAll(items, rs, screeningId, memberId, now, up).1;
      r.holds == rs.holds && r.statusCache == rs.statusCache
    decreases |items|
  {
    if items != [] {
      var item := items[0];
      var (found, rs1) := if item.status == HOLD then GetHoldStep(rs, HoldKey(screeningId, item.seatId), now, up)
                          else (None, rs);
      EnrichAllSpec(items[1..], rs1, screeningId, memberId, now, up);
      var r := EnrichAll(items, rs, screeningId, memberId, now, up).0;
      forall i | 0 <= i < |items|
        ensures r[i] == EnrichItem(items[i], HoldView(rs, HoldKey(screeningId, items[i].seatId), now, up), memberId)
      {
        if i > 0 {
          if item.status == HOLD {
            GetHoldKeepsViews(rs, HoldKey(screeningId, item.seatId), now, up, HoldKey(screeningId, items[i].seatId), up);
          }
          assert items[1..][i - 1] == items[i];
        }
      }
    }
  }

  /** The layout shown to a caller: what the pass makes of every item. */
  lemma EnrichedLayoutShowsOwnHolds(items: seq<SeatStatusItem>, rs: RedisState, screeningId: nat, memberId: nat,
                                    now: int, up: bool, i: nat)
    requires i < |items|
    ensures var r := EnrichAll(items, rs, screeningId, memberId, now, up).0;
      && SamePublicFields(r[i], items[i])
      && (r[i].isHeldByCurrentUser == Some(true) <==>
            items[i].status == HOLD
            && HoldView(rs, HoldKey(screeningId, items[i].seatId), now, up).Some?
            && HoldView(rs, HoldKey(screeningId, items[i].seatId), now, up).value.memberId == memberId)
  {
    EnrichAllSpec(items, rs, screeningId, memberId, now, up);
  }

  /**
   * `getFromDbAndCache` followed by the return: SCREENING_NOT_FOUND for an
   * unknown screening; a screening without rows is read again after its seats
   * are created (`seatsAfterEnsure`); the built layout is offered to the cache
   * and returned whatever the write does.
   */
  function FromDbStep(rs: RedisState, screenings: map<nat, seq<SeatRecord>>, screeningId: nat,
                      seatsAfterEnsure: seq<SeatRecord>, now: int, writeUp: bool): (r: (Result<SeatLayout>, RedisState))
    ensures screeningId !in screenings ==> r == (Err(SCREENING_NOT_FOUND), rs)
  {
    if screeningId !in screenings then (Err(SCREENING_NOT_FOUND), rs)
    else
      var seats := if screenings[screeningId] == [] then seatsAfterEnsure else screenings[screeningId];
      var layout := BuildLayout(screeningId, seats);
      (Ok(layout), SaveSeatStatusStep(rs, StatusKey(screeningId), layout, CacheTtlMinutes, now, writeUp))
  }

  /** `getSeatLayoutInternal`: the cache first, the database on a miss. */
  function LayoutInternalStep(rs: RedisState, screenings: map<nat, seq<SeatRecord>>, screeningId: nat,
                              seatsAfterEnsure: seq<SeatRecord>, now: int, readUp: bool, writeUp: bool)
    : (Result<SeatLayout>, RedisState)
  {
    var (cached, rs1) := GetSeatStatusStep(rs, StatusKey(screeningId), now, readUp);
    if cached.Some? then (Ok(cached.value), rs1)
    else FromDbStep(rs1, screenings, screeningId, seatsAfterEnsure, now, writeUp)
  }

  /** A cache hit is returned as stored, whatever the database holds. */
  lemma CacheHitSkipsDatabase(rs: RedisState, screenings: map<nat, seq<SeatRecord>>, other: map<nat, seq<SeatRecord>>,
                              screeningId: nat, seatsAfterEnsure: seq<SeatRecord>, now: int, writeUp: bool)
    requires StatusKey(screeningId) in rs.statusCache && now < rs.statusCache[StatusKey(screeningId)].expireAt
    ensures LayoutInternalStep(rs, screenings, screeningId, seatsAfterEnsure, now, true, writeUp)
            == LayoutInternalStep(rs, other, screeningId, seatsAfterEnsure, now, true, writeUp)
    ensures LayoutInternalStep(rs, screenings, screeningId, seatsAfterEnsure, now, true, writeUp).0
            == Ok(rs.statusCache[StatusKey(screeningId)].layout)
  {
  }

  /**
   * On a miss the layout has one item per row of the screening, copied by
   * `toSeatStatusItem`, and does not depend on whether the cache write succeeds;
   * a successful write makes the next read within the TTL a hit on that layout.
   */
  lemma CacheMissBuildsFromRows(rs: RedisState, screenings: map<nat, seq<SeatRecord>>, screeningId: nat,
                                seatsAfterEnsure: seq<SeatRecord>, now: int, readUp: bool, writeUp: bool, later: int)
    requires screeningId in screenings && screenings[screeningId] != []
    requires !(readUp && StatusKey(screeningId) in rs.statusCache && now < rs.statusCache[StatusKey(screeningId)].expireAt)
    requires now <= later < now + CacheTtlMinutes * MillisPerMinute
    ensures var (r, rs1) := LayoutInternalStep(rs, screenings, screeningId, seatsAfterEnsure, now, readUp, writeUp);
      && r == Ok(BuildLayout(screeningId, screenings[screeningId]))
      && r == LayoutInternalStep(rs, screenings, screeningId, seatsAfterEnsure, now, readUp, !writeUp).0
      && (writeUp ==> GetSeatStatusStep(rs1, StatusKey(screeningId), later, true).0 == Some(r.value))
  {
  }

  /** No layout item, cached or freshly built, carries a hold token or an ownership flag. */
  lemma SharedLayoutCarriesNoToken(rs: RedisState, screenings: map<nat, seq<SeatRecord>>, screeningId: nat,
                                   seatsAfterEnsure: seq<SeatRecord>, now: int, readUp: bool, writeUp: bool)
    requires forall k | k in rs.statusCache :: forall i | 0 <= i < |rs.statusCache[k].layout.seats| ::
      rs.statusCache[k].layout.seats[i].holdToken.None? && rs.statusCache[k].layout.seats[i].isHeldByCurrentUser.None?
    ensures var (r, rs1) := LayoutInternalStep(rs, screenings, screeningId, seatsAfterEnsure, now, readUp, writeUp);
      && (r.Ok? ==> forall i | 0 <= i < |r.value.seats| :: r.value.seats[i].holdToken.None?)
      && (forall k | k in rs1.statusCache :: forall i | 0 <= i < |rs1.statusCache[k].layout.seats| ::
           rs1.statusCache[k].layout.seats[i].holdToken.None? && rs1.statusCache[k].layout.seats[i].isHeldByCurrentUser.None?)
  {
  }

  class SeatStatusQueryService {
    const redis: RedisService

    constructor (redis: RedisService)
      ensures this.redis == redis
    {
      this.redis := redis;
    }

    /** `getSeatLayoutInternal`. */
    method GetSeatLayoutInternal(screenings: map<nat, seq<SeatRecord>>, screeningId: nat, seatsAfterEnsure: seq<SeatRecord>,
                                 now: int, readUp: bool, writeUp: bool) returns (r: Result<SeatLayout>)
      modifies redis
      ensures (r, redis.State())
              == LayoutInternalStep(old(redis.State()), screenings, screeningId, seatsAfterEnsure, now, readUp, writeUp)
    {
      var cached := redis.GetSeatStatus(screeningId, now, readUp);
      if cached.Some? {
        return Ok(cached.value);
      }
      if screeningId !in screenings {
        return Err(SCREENING_NOT_FOUND);
      }
      var seats := screenings[screeningId];
      if seats == [] {
        seats := seatsAfterEnsure;
      }
      var layout := BuildLayout(screeningId, seats);
      redis.SaveSeatStatus(screeningId, layout, CacheTtlMinutes, now, writeUp);
      r := Ok(layout);
    }

    /** The per-caller pass of `getSeatLayout`, one hold lookup per HOLD item. */
    method EnrichWithMyHold(screeningId: nat, items: seq<SeatStatusItem>, memberId: nat, now: int, up: bool)
      returns (enriched: seq<SeatStatusItem>)
      modifies redis
      ensures (enriched, redis.State()) == EnrichAll(items, old(redis.State()), screeningId, memberId, now, up)
    {
      enriched := [];
      var i := 0;
      assert items[0..] == items;
      assert redis.State() == old(redis.State());
      assert [] + EnrichAll(items, redis.State(), screeningId, memberId, now, up).0
             == EnrichAll(items, redis.State(), screeningId, memberId, now, up).0;
      while i < |items|
        invariant 0 <= i <= |items|
        invariant var rest := EnrichAll(items[i..], redis.State(), screeningId, memberId, now, up);
          (enriched + rest.0, rest.1) == EnrichAll(items, old(redis.State()), screeningId, memberId, now, up)
      {
        var item := items[i];
        assert items[i..][0] == item && items[i..][1..] == items[i + 1..];
        ghost var before := redis.State();
        var found := None;
        if item.status == HOLD {
          found := redis.GetHold(screeningId, item.seatId, now, up);
        }
        ghost var rest := EnrichAll(items[i + 1..], redis.State(), screeningId, memberId, now, up);
        assert EnrichAll(items[i..], before, screeningId, memberId, now, up)
               == ([EnrichItem(item, found, memberId)] + rest.0, rest.1);
        assert (enriched + [EnrichItem(item, found, memberId)]) + rest.0 == enriched + ([EnrichItem(item, found, memberId)] + rest.0);
        enriched := enriched + [EnrichItem(item, found, memberId)];
        i := i + 1;
      }
      assert items[i..] == [];
      assert enriched + [] == enriched;
    }

    /**
     * `getSeatLayout`: without a caller the shared layout as it is; with one,
     * the same layout after the per-caller pass.
     */
    method GetSeatLayout(screenings: map<nat, seq<SeatRecord>>, screeningId: nat, memberId: Option<nat>,
                         seatsAfterEnsure: seq<SeatRecord>, now: int, readUp: bool, writeUp: bool, holdUp: bool)
      returns (r: Result<SeatLayout>)
      modifies redis
      ensures var (raw, rs1) := LayoutInternalStep(old(redis.State()), screenings, screeningId, seatsAfterEnsure, now, readUp, writeUp);
        && (raw.Err? ==> r == raw && redis.State() == rs1)
        && (raw.Ok? && memberId.None? ==> r == raw && redis.State() == rs1)
        && (raw.Ok? && memberId.Some? ==>
              var (items, rs2) := EnrichAll(raw.value.seats, rs1, raw.value.screeningId, memberId.value, now, holdUp);
              r == Ok(SeatLayout(raw.value.screeningId, items)) && redis.State() == rs2)
    {
      var raw := GetSeatLayoutInternal(screenings, screeningId, seatsAfterEnsure, now, readUp, writeUp);
      if raw.Err? || memberId.None? {
        return raw;
      }
      var items := EnrichWithMyHold(raw.value.screeningId, raw.value.seats, memberId.value, now, holdUp);
      r := Ok(SeatLayout(raw.value.screeningId, items));
    }

    /** `invalidateSeatStatusCache`: never fails. */
    method InvalidateSeatStatusCache(screeningId: nat, up: bool)
      modifies redis
      ensures redis.State() == InvalidateSeatStatusStep(old(redis.State()), StatusKey(screeningId), up)
    {
      redis.InvalidateSeatStatus(screeningId, up);
    }
  }
}
