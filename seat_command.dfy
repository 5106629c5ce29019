/**
 * The single entry point for hold and release (domain/screening/service/
 * SeatCommandService.java): take the per-seat lock or fail fast, do the work,
 * give the lock back on every path.
 *
 * The work is specified by functions on `Tables` (the seat rows and the hold
 * store); the service class performs it on the repository and store objects.
 * Members and screenings are read-only inputs. The entity change is written
 * back with the repository's `save` (a managed entity is flushed the same way).
 */
module SeatCommands {
  import opened Common
  import opened SeatStatuses
  import opened ScreeningSeats
  import opened SeatRepository
  import opened RedisHolds
  import opened LockManager
  import Screenings
  import SeatQuery

  /** `seat.hold.ttl-minutes` default. */
  const HoldTtlMinutes: int := 7
  /** `seat.hold.max-seats-per-user` default. */
  const MaxSeatsPerUser: int := 4

  datatype SeatHoldResponse = SeatHoldResponse(
    holdToken: string, screeningId: nat, seatId: nat, holdExpireAt: int, ttlSeconds: int)

  /** How each outside call of one request goes: the lock store, the hold store, the layout cache. */
  datatype Calls = Calls(lockReply: StoreReply, unlockAnswered: bool, holdUp: bool, cacheUp: bool, storeTtl: Option<int>)

  /** The seat rows and the hold store together. */
  datatype Tables = Tables(rows: seq<SeatRecord>, store: RedisState)

  /** Step 8 of `doHold`: the store's TTL, unless it is null or negative. */
  function TtlOrFallback(ttl: Option<int>): (s: int)
    ensures ttl.Some? && ttl.value >= 0 ==> s == ttl.value
    ensures !(ttl.Some? && ttl.value >= 0) ==> s == HoldTtlMinutes * 60
  {
    if ttl.None? || ttl.value < 0 then HoldTtlMinutes * 60 else ttl.value
  }

  /** The checks `doHold` makes before it touches anything, in order. */
  function HoldGuard(rows: seq<SeatRecord>, members: set<nat>, screenings: map<nat, Screenings.ScreeningInfo>,
                     screeningId: nat, seatId: nat, memberId: nat, now: int): Outcome
  {
    if memberId !in members then Fail(MEMBER_NOT_FOUND)
    else if |FindHoldsByMember(rows, memberId)| >= MaxSeatsPerUser then Fail(INVALID_INPUT)
    else if screeningId !in screenings then Fail(SCREENING_NOT_FOUND)
    else if !Screenings.IsBookable(screenings[screeningId], now) then Fail(SCREENING_NOT_BOOKABLE)
    else if FindRow(rows, screeningId, seatId).None? then Fail(SEAT_NOT_FOUND)
    else Pass
  }

  /**
   * `doHold` as written: after the checks the hold entry is saved under the
   * fresh token, and only then does the entity refuse a seat that is not AVAILABLE.
   */
  function DoHoldStep(t: Tables, members: set<nat>, screenings: map<nat, Screenings.ScreeningInfo>,
                      screeningId: nat, seatId: nat, memberId: nat, now: int, token: string, c: Calls)
    : (Result<SeatHoldResponse>, Tables)
  {
    var guard := HoldGuard(t.rows, members, screenings, screeningId, seatId, memberId, now);
    if guard.Fail? then (Err(guard.error), t)
    else
      HoldRowStep(t, FindRow(t.rows, screeningId, seatId).value, screeningId, seatId, memberId, now, token, c)
  }

  /** Steps 5 to 8 of `doHold`, on the seat row the checks found. */
  function HoldRowStep(t: Tables, row: SeatRecord, screeningId: nat, seatId: nat, memberId: nat, now: int, token: string, c: Calls)
    : (Result<SeatHoldResponse>, Tables)
  {
    var key := HoldKey(screeningId, seatId);
    var rs1 := SaveHoldStep(t.store, key, memberId, HoldTtlMinutes, token, now, c.holdUp);
    var held := HoldSeat(row, memberId, token, HoldTtlMinutes, now);
    if held.Err? then (Err(held.error), Tables(t.rows, rs1))
    else
      var rs2 := InvalidateSeatStatusStep(rs1, StatusKey(screeningId), c.cacheUp);
      var (ttl, rs3) := GetHoldTtlStep(rs2, key, now, c.holdUp, c.storeTtl);
      (Ok(SeatHoldResponse(token, screeningId, seatId, PlusMinutes(now, HoldTtlMinutes), TtlOrFallback(ttl))),
       Tables(StoreRow(t.rows, held.value), rs3))
  }

  /** `doHold` with the entity's status check moved before the hold entry is written. */
  function DoHoldCheckedStep(t: Tables, members: set<nat>, screenings: map<nat, Screenings.ScreeningInfo>,
                             screeningId: nat, seatId: nat, memberId: nat, now: int, token: string, c: Calls)
    : (Result<SeatHoldResponse>, Tables)
  {
    var guard := HoldGuard(t.rows, members, screenings, screeningId, seatId, memberId, now);
    if guard.Pass? && !FindRow(t.rows, screeningId, seatId).value.status.CanHold() then (Err(SEAT_NOT_AVAILABLE), t)
    else DoHoldStep(t, members, screenings, screeningId, seatId, memberId, now, token, c)
  }

  /**
   * `doReleaseHold`: the token must match the hold store and then the entity;
   * the entity's `releaseHold` runs, the hold entry is deleted and the layout
   * cache invalidated.
   */
  function DoReleaseStep(t: Tables, screeningId: nat, seatId: nat, token: string, now: int, c: Calls): (Outcome, Tables)
  {
    var key := HoldKey(screeningId, seatId);
    var (valid, rs1) := ValidateHoldTokenStep(t.store, key, token, now, c.holdUp);
    if !valid then (Fail(INVALID_HOLD_TOKEN), Tables(t.rows, rs1))
    else if FindRow(t.rows, screeningId, seatId).None? then (Fail(SEAT_NOT_FOUND), Tables(t.rows, rs1))
    else
      var row := FindRow(t.rows, screeningId, seatId).value;
      if !ValidateHoldToken(row, token) then (Fail(INVALID_HOLD_TOKEN), Tables(t.rows, rs1))
      else
        var rs2 := DeleteHoldStep(rs1, key, c.holdUp);
        (Pass, Tables(StoreRow(t.rows, ReleaseSeatHold(row)), InvalidateSeatStatusStep(rs2, StatusKey(screeningId), c.cacheUp)))
  }

  /**
   * A hold succeeds exactly when every check passes and the seat is AVAILABLE.
   * Then the seat is HOLD for the caller under the returned token, which is also
   * the token the hold store returns; the layout cache of the screening is
   * dropped; no other seat changes; and `ttlSeconds` is the store's answer or
   * the 420-second fallback. A refusal by one of the checks changes nothing,
   * and no refusal changes a seat.
   */
  lemma DoHoldSpec(t: Tables, members: set<nat>, screenings: map<nat, Screenings.ScreeningInfo>,
                   screeningId: nat, seatId: nat, memberId: nat, now: int, token: string, c: Calls)
    requires KeysUnique(t.rows)
    ensures var (r, t') := DoHoldStep(t, members, screenings, screeningId, seatId, memberId, now, token, c);
      && (r.Ok? <==> HoldGuard(t.rows, members, screenings, screeningId, seatId, memberId, now).Pass?
                     && FindRow(t.rows, screeningId, seatId).value.status == AVAILABLE)
      && (r.Err? ==> t'.rows == t.rows)
      && (HoldGuard(t.rows, members, screenings, screeningId, seatId, memberId, now).Fail? ==> t' == t)
      && (r.Ok? ==>
            var seat := FindRow(t'.rows, screeningId, seatId);
            && seat.Some? && seat.value.status == HOLD
            && seat.value.holdToken == Some(token) && seat.value.holdMember == Some(memberId)
            && seat.value.holdExpireAt == Some(PlusMinutes(now, HoldTtlMinutes))
            && r.value.holdToken == token
            && HoldView(t'.store, HoldKey(screeningId, seatId), now, c.holdUp) == Some(HoldInfo(token, memberId, now))
            && (c.cacheUp ==> StatusKey(screeningId) !in t'.store.statusCache)
            && (forall s, u :: !(s == screeningId && u == seatId) ==> FindRow(t'.rows, s, u) == FindRow(t.rows, s, u))
            && (c.holdUp ==> r.value.ttlSeconds == TtlOrFallback(c.storeTtl))
            && (!c.holdUp ==> r.value.ttlSeconds == HoldTtlMinutes * 60))
  {
    var guard := HoldGuard(t.rows, members, screenings, screeningId, seatId, memberId, now);
    if guard.Pass? {
      var row := FindRow(t.rows, screeningId, seatId).value;
      var held := HoldSeat(row, memberId, token, HoldTtlMinutes, now);
      if held.Ok? {
        StoreRowSpec(t.rows, held.value);
        StatusKeyInjective(screeningId, screeningId, screeningId, seatId);
      }
    }
  }

  /**
   * A release succeeds exactly when the hold store and the seat both carry the
   * token; then the seat gets the entity's `releaseHold`, the hold entry is
   * deleted and no other seat changes. Every failure leaves the seats alone.
   */
  lemma DoReleaseSpec(t: Tables, screeningId: nat, seatId: nat, token: string, now: int, c: Calls)
    requires KeysUnique(t.rows)
    ensures var (r, t') := DoReleaseStep(t, screeningId, seatId, token, now, c);
      var key := HoldKey(screeningId, seatId);
      var row := FindRow(t.rows, screeningId, seatId);
      && (r.Pass? <==> HoldView(t.store, key, now, c.holdUp).Some?
                       && HoldView(t.store, key, now, c.holdUp).value.holdToken == token
                       && row.Some? && row.value.holdToken == Some(token))
      && (r.Fail? ==> t'.rows == t.rows)
      && (r.Fail? ==> r.error == if HoldView(t.store, key, now, c.holdUp).Some?
                                     && HoldView(t.store, key, now, c.holdUp).value.holdToken == token
                                     && row.None? then SEAT_NOT_FOUND else INVALID_HOLD_TOKEN)
      && (r.Pass? ==>
            && FindRow(t'.rows, screeningId, seatId) == Some(ReleaseSeatHold(row.value))
            && HoldView(t'.store, key, now, c.holdUp).None?
            && (forall s, u :: !(s == screeningId && u == seatId) ==> FindRow(t'.rows, s, u) == FindRow(t.rows, s, u)))
  {
    var r := DoReleaseStep(t, screeningId, seatId, token, now, c);
    if r.0.Pass? {
      var row := FindRow(t.rows, screeningId, seatId).value;
      assert ReleaseSeatHold(row).screeningId == screeningId && ReleaseSeatHold(row).SeatId() == seatId;
      StoreRowSpec(t.rows, ReleaseSeatHold(row));
    }
  }

  /**
   * Hold then release: a successful hold followed, before it expires, by a
   * release with the returned token (the hold store reached the same way)
   * succeeds, and every seat is then as it was before the hold.
   */
  lemma HoldThenReleaseRestoresSeats(t: Tables, members: set<nat>, screenings: map<nat, Screenings.ScreeningInfo>,
                                     screeningId: nat, seatId: nat, memberId: nat, now: int, token: string,
                                     c: Calls, later: int, c2: Calls)
    requires KeysUnique(t.rows)
    requires FindRow(t.rows, screeningId, seatId).Some? ==> NoHoldInfo(FindRow(t.rows, screeningId, seatId).value)
    requires DoHoldStep(t, members, screenings, screeningId, seatId, memberId, now, token, c).0.Ok?
    requires now <= later < now + HoldTtlMinutes * MillisPerMinute
    requires c2.holdUp == c.holdUp
    ensures var t1 := DoHoldStep(t, members, screenings, screeningId, seatId, memberId, now, token, c).1;
      var (r, t2) := DoReleaseStep(t1, screeningId, seatId, token, later, c2);
      && r.Pass?
      && (forall s, u :: FindRow(t2.rows, s, u) == FindRow(t.rows, s, u))
  {
    DoHoldSpec(t, members, screenings, screeningId, seatId, memberId, now, token, c);
    var t1 := DoHoldStep(t, members, screenings, screeningId, seatId, memberId, now, token, c).1;
    var key := HoldKey(screeningId, seatId);
    var row := FindRow(t.rows, screeningId, seatId).value;
    var held := HoldSeat(row, memberId, token, HoldTtlMinutes, now).value;
    StoreRowSpec(t.rows, held);
    assert HoldView(t1.store, key, later, c.holdUp) == Some(HoldInfo(token, memberId, now)) by {
      var rs1 := SaveHoldStep(t.store, key, memberId, HoldTtlMinutes, token, now, c.holdUp);
      var rs2 := InvalidateSeatStatusStep(rs1, StatusKey(screeningId), c.cacheUp);
      assert HoldView(rs2, key, later, c.holdUp) == Some(HoldInfo(token, memberId, now));
      assert t1.store == GetHoldTtlStep(rs2, key, now, c.holdUp, c.storeTtl).1;
    }
    DoReleaseSpec(t1, screeningId, seatId, token, later, c2);
    var t2 := DoReleaseStep(t1, screeningId, seatId, token, later, c2).1;
    assert ReleaseSeatHold(held) == row;
    forall s: nat, u: nat ensures FindRow(t2.rows, s, u) == FindRow(t.rows, s, u) {
      if s == screeningId && u == seatId {
        FindRowUnique(t.rows, s, u, KeyIndex(t.rows, s, u));
      }
    }
  }

  /**
   * The hold-entry ordering, as written: while one member holds a seat, another
   * member's hold request is refused with SEAT_NOT_AVAILABLE, yet it has already
   * replaced the hold entry with its own token, so the holder's release with the
   * token they were given now fails with INVALID_HOLD_TOKEN.
   */
  lemma RefusedHoldLocksOutHolder(t: Tables, members: set<nat>, screenings: map<nat, Screenings.ScreeningInfo>,
                                  screeningId: nat, seatId: nat, other: nat, now: int,
                                  holderToken: string, otherToken: string, c: Calls)
    requires HoldGuard(t.rows, members, screenings, screeningId, seatId, other, now).Pass?
    requires FindRow(t.rows, screeningId, seatId).value.status == HOLD
    requires FindRow(t.rows, screeningId, seatId).value.holdToken == Some(holderToken)
    requires otherToken != holderToken
    ensures var (r, t1) := DoHoldStep(t, members, screenings, screeningId, seatId, other, now, otherToken, c);
      && r == Err(SEAT_NOT_AVAILABLE)
      && DoReleaseStep(t1, screeningId, seatId, holderToken, now, c).0 == Fail(INVALID_HOLD_TOKEN)
  {
  }

  /**
   * The checked hold: a refused request leaves the seats and the hold store
   * exactly as they were, so the holder can still release; and it answers and
   * acts exactly like `doHold` on every seat that can be held.
   */
  lemma CheckedHoldKeepsHolderEntry(t: Tables, members: set<nat>, screenings: map<nat, Screenings.ScreeningInfo>,
                                    screeningId: nat, seatId: nat, memberId: nat, now: int, token: string, c: Calls)
    ensures var (r, t1) := DoHoldCheckedStep(t, members, screenings, screeningId, seatId, memberId, now, token, c);
      && (r.Err? ==> t1 == t)
      && (r.Err? ==> forall tok :: DoReleaseStep(t1, screeningId, seatId, tok, now, c).0
                                   == DoReleaseStep(t, screeningId, seatId, tok, now, c).0)
      && (HoldGuard(t.rows, members, screenings, screeningId, seatId, memberId, now).Pass?
          && FindRow(t.rows, screeningId, seatId).value.status.CanHold() ==>
            (r, t1) == DoHoldStep(t, members, screenings, screeningId, seatId, memberId, now, token, c))
      && (r.Err? ==> r == DoHoldStep(t, members, screenings, screeningId, seatId, memberId, now, token, c).0)
  {
  }

  /**
   * `startPayment` keeps the hold columns, so a release presented with the
   * token while the seat is PAYMENT_PENDING reports success, deletes the hold
   * entry, and leaves the seat PAYMENT_PENDING.
   */
  lemma ReleaseDuringPaymentKeepsSeatPending(t: Tables, screeningId: nat, seatId: nat, token: string, now: int, c: Calls)
    requires KeysUnique(t.rows)
    requires FindRow(t.rows, screeningId, seatId).Some?
    requires FindRow(t.rows, screeningId, seatId).value.status == PAYMENT_PENDING
    requires FindRow(t.rows, screeningId, seatId).value.holdToken == Some(token)
    requires HoldView(t.store, HoldKey(screeningId, seatId), now, c.holdUp).Some?
    requires HoldView(t.store, HoldKey(screeningId, seatId), now, c.holdUp).value.holdToken == token
    ensures var (r, t1) := DoReleaseStep(t, screeningId, seatId, token, now, c);
      && r.Pass?
      && FindRow(t1.rows, screeningId, seatId).Some?
      && FindRow(t1.rows, screeningId, seatId).value.status == PAYMENT_PENDING
      && HoldView(t1.store, HoldKey(screeningId, seatId), now, c.holdUp).None?
  {
    DoReleaseSpec(t, screeningId, seatId, token, now, c);
  }

  class SeatCommandService {
    const locks: DistributedLockManager
    const redis: RedisService
    const seats: ScreeningSeatRepository
    const query: SeatQuery.SeatStatusQueryService

    predicate Valid()
      reads this, seats
    {
      query.redis == redis && seats.Valid()
    }

    function Current(): Tables
      reads seats, redis
    {
      Tables(seats.rows, redis.State())
    }

    constructor (locks: DistributedLockManager, redis: RedisService, seats: ScreeningSeatRepository,
                 query: SeatQuery.SeatStatusQueryService)
      requires query.redis == redis && seats.Valid()
      ensures this.locks == locks && this.redis == redis && this.seats == seats && this.query == query
      ensures Valid()
    {
      this.locks := locks;
      this.redis := redis;
      this.seats := seats;
      this.query := query;
    }

    /**
     * `hold`: SEAT_LOCK_FAILED with nothing read or written when the seat lock
     * is not acquired; otherwise `doHold`, and the lock is given back whatever it returns.
     */
    method Hold(screeningId: nat, seatId: nat, memberId: nat, members: set<nat>,
                screenings: map<nat, Screenings.ScreeningInfo>, thread: nat, now: int, freshToken: string, c: Calls)
      returns (r: Result<SeatHoldResponse>)
      requires Valid()
      modifies locks, redis, seats
      ensures Valid()
      ensures var (ok, t1) := TryLockStep(old(locks.Tables()), locks.hasClient, SeatLockKey(screeningId, seatId),
                                          DefaultWaitTime, thread, c.lockReply, false);
        && (!ok ==> r == Err(SEAT_LOCK_FAILED) && Current() == old(Current()) && locks.Tables() == t1)
        && (ok ==> (r, Current()) == DoHoldStep(old(Current()), members, screenings, screeningId, seatId, memberId, now, freshToken, c)
                   && locks.Tables() == UnlockStep(t1, locks.hasClient, SeatLockKey(screeningId, seatId), thread, c.unlockAnswered))
    {
      var acquired := locks.TryLockSeat(screeningId, seatId, thread, c.lockReply);
      if !acquired {
        return Err(SEAT_LOCK_FAILED);
      }
      r := DoHold(screeningId, seatId, memberId, members, screenings, now, freshToken, c);
      locks.UnlockSeat(screeningId, seatId, thread, c.unlockAnswered);
    }

    /** `doHold`. */
    method DoHold(screeningId: nat, seatId: nat, memberId: nat, members: set<nat>,
                  screenings: map<nat, Screenings.ScreeningInfo>, now: int, freshToken: string, c: Calls)
      returns (r: Result<SeatHoldResponse>)
      requires Valid()
      modifies redis, seats
      ensures Valid()
      ensures (r, Current()) == DoHoldStep(old(Current()), members, screenings, screeningId, seatId, memberId, now, freshToken, c)
    {
      if memberId !in members {
        return Err(MEMBER_NOT_FOUND);
      }
      var memberHolds := seats.FindHoldsByMemberId(memberId);
      if |memberHolds| >= MaxSeatsPerUser {
        return Err(INVALID_INPUT);
      }
      if screeningId !in screenings {
        return Err(SCREENING_NOT_FOUND);
      }
      if !Screenings.IsBookable(screenings[screeningId], now) {
        return Err(SCREENING_NOT_BOOKABLE);
      }
      var found := seats.FindByScreeningIdAndSeatId(screeningId, seatId);
      if found.None? {
        return Err(SEAT_NOT_FOUND);
      }
      r := HoldRow(found.value, screeningId, seatId, memberId, now, freshToken, c);
    }

    /** Steps 5 to 8 of `doHold`: save the hold entry, hold the entity, invalidate the layout, read the TTL. */
    method HoldRow(row: SeatRecord, screeningId: nat, seatId: nat, memberId: nat, now: int, freshToken: string, c: Calls)
      returns (r: Result<SeatHoldResponse>)
      requires Valid()
      modifies redis, seats
      ensures Valid()
      ensures (r, Current()) == HoldRowStep(old(Current()), row, screeningId, seatId, memberId, now, freshToken, c)
    {
      var holdToken := redis.SaveHold(screeningId, seatId, memberId, HoldTtlMinutes, freshToken, now, c.holdUp);
      var held := HoldSeat(row, memberId, holdToken, HoldTtlMinutes, now);
      if held.Err? {
        return Err(held.error);
      }
      seats.Save(held.value);
      var holdExpireAt := PlusMinutes(now, HoldTtlMinutes);
      query.InvalidateSeatStatusCache(screeningId, c.cacheUp);
      var ttl := redis.GetHoldTtl(screeningId, seatId, now, c.holdUp, c.storeTtl);
      var ttlSeconds := if ttl.None? || ttl.value < 0 then HoldTtlMinutes * 60 else ttl.value;
      r := Ok(SeatHoldResponse(holdToken, screeningId, seatId, holdExpireAt, ttlSeconds));
    }

    /**
     * `releaseHold`: SEAT_LOCK_FAILED with nothing read or written when the seat
     * lock is not acquired; otherwise `doReleaseHold`, and the lock is given back.
     */
    method ReleaseHold(screeningId: nat, seatId: nat, holdToken: string, thread: nat, now: int, c: Calls)
      returns (outcome: Outcome)
      requires Valid()
      modifies locks, redis, seats
      ensures Valid()
      ensures var (ok, t1) := TryLockStep(old(locks.Tables()), locks.hasClient, SeatLockKey(screeningId, seatId),
                                          DefaultWaitTime, thread, c.lockReply, false);
        && (!ok ==> outcome == Fail(SEAT_LOCK_FAILED) && Current() == old(Current()) && locks.Tables() == t1)
        && (ok ==> (outcome, Current()) == DoReleaseStep(old(Current()), screeningId, seatId, holdToken, now, c)
                   && locks.Tables() == UnlockStep(t1, locks.hasClient, SeatLockKey(screeningId, seatId), thread, c.unlockAnswered))
    {
      var acquired := locks.TryLockSeat(screeningId, seatId, thread, c.lockReply);
      if !acquired {
        return Fail(SEAT_LOCK_FAILED);
      }
      outcome := DoReleaseHold(screeningId, seatId, holdToken, now, c);
      locks.UnlockSeat(screeningId, seatId, thread, c.unlockAnswered);
    }

    /** `doReleaseHold`. */
    method DoReleaseHold(screeningId: nat, seatId: nat, holdToken: string, now: int, c: Calls) returns (outcome: Outcome)
      requires Valid()
      modifies redis, seats
      ensures Valid()
      ensures (outcome, Current()) == DoReleaseStep(old(Current()), screeningId, seatId, holdToken, now, c)
    {
      var valid := redis.ValidateHoldToken(screeningId, seatId, holdToken, now, c.holdUp);
      if !valid {
        return Fail(INVALID_HOLD_TOKEN);
      }
      var found := seats.FindByScreeningIdAndSeatId(screeningId, seatId);
      if found.None? {
        return Fail(SEAT_NOT_FOUND);
      }
      if !ValidateHoldToken(found.value, holdToken) {
        return Fail(INVALID_HOLD_TOKEN);
      }
      seats.Save(ReleaseSeatHold(found.value));
      redis.DeleteHold(screeningId, seatId, c.holdUp);
      query.InvalidateSeatStatusCache(screeningId, c.cacheUp);
      outcome := Pass;
    }
  }
}
