/**
 * The hold store and the layout cache (infrastructure/redis/RedisService.java).
 *
 * The shared store keeps each entry until its expiry time; when a call to it
 * fails (`up == false`), holds fall back to an in-process map with their own
 * expiry, and the layout cache simply misses. The outcome of each store call,
 * the current time, the fresh hold token and the store's own TTL answer are
 * parameters. Every call records in `available` whether the store answered.
 */
module RedisHolds {
  import opened Common
  import Text
  import opened SeatLayouts

  const SeatHoldPrefix: string := "seat:hold:"
  const SeatStatusPrefix: string := "seat:status:"
  const RefreshTokenPrefix: string := "refresh:token:"

  /** `createHoldKey`. */
  function HoldKey(screeningId: nat, seatId: nat): (key: string)
    ensures Text.StartsWith(key, SeatHoldPrefix)
  {
    SeatHoldPrefix + Text.NatToString(screeningId) + ":" + Text.NatToString(seatId)
  }

  /** `createSeatStatusKey`. */
  function StatusKey(screeningId: nat): (key: string)
    ensures Text.StartsWith(key, SeatStatusPrefix)
  {
    SeatStatusPrefix + Text.NatToString(screeningId)
  }

  /** `createRefreshTokenKey`. */
  function RefreshTokenKey(memberId: nat): (key: string)
    ensures Text.StartsWith(key, RefreshTokenPrefix)
  {
    RefreshTokenPrefix + Text.NatToString(memberId)
  }

  /** Distinct seats of distinct screenings have distinct hold keys. */
  lemma HoldKeyInjective(s1: nat, t1: nat, s2: nat, t2: nat)
    ensures HoldKey(s1, t1) == HoldKey(s2, t2) <==> s1 == s2 && t1 == t2
  {
    if HoldKey(s1, t1) == HoldKey(s2, t2) {
      var p := SeatHoldPrefix;
      var x, y := Text.NatToString(s1), Text.NatToString(s2);
      var u, v := ":" + Text.NatToString(t1), ":" + Text.NatToString(t2);
      assert HoldKey(s1, t1) == p + (x + u);
      assert HoldKey(s2, t2) == p + (y + v);
      assert x + u == HoldKey(s1, t1)[|p|..];
      assert y + v == HoldKey(s2, t2)[|p|..];
      forall i | 0 <= i < |x| ensures x[i] !in {':'} {
        assert Text.IsDigit(x[i]);
      }
      forall i | 0 <= i < |y| ensures y[i] !in {':'} {
        assert Text.IsDigit(y[i]);
      }
      Text.SplitAtFirstIn(x, u, y, v, {':'});
      Text.NatToStringInjective(s1, s2);
      assert Text.NatToString(t1) == u[1..];
      assert Text.NatToString(t2) == v[1..];
      Text.NatToStringInjective(t1, t2);
    }
  }

  /** Each screening has its own layout-cache key, and no layout key is a hold key. */
  lemma StatusKeyInjective(s1: nat, s2: nat, s: nat, t: nat)
    ensures StatusKey(s1) == StatusKey(s2) <==> s1 == s2
    ensures StatusKey(s1) != HoldKey(s, t)
  {
    if StatusKey(s1) == StatusKey(s2) {
      assert Text.NatToString(s1) == StatusKey(s1)[|SeatStatusPrefix|..];
      assert Text.NatToString(s2) == StatusKey(s2)[|SeatStatusPrefix|..];
      Text.NatToStringInjective(s1, s2);
    }
    assert StatusKey(s1)[5] == 's' && HoldKey(s, t)[5] == 'h';
  }

  /** `HoldInfo`: the token, the holder and when the hold was taken. */
  datatype HoldInfo = HoldInfo(holdToken: string, memberId: nat, holdAt: int)

  /** A stored hold and the time it expires. */
  datatype TimedHold = TimedHold(info: HoldInfo, expireAt: int)

  /** A cached layout and the time it expires. */
  datatype TimedLayout = TimedLayout(layout: SeatLayout, expireAt: int)

  datatype RedisState = RedisState(
    available: bool,
    holds: map<string, TimedHold>,
    localHolds: map<string, TimedHold>,
    statusCache: map<string, TimedLayout>)

  /** What the shared store returns for a hold key: entries are gone once their expiry time is reached. */
  function StoredHold(rs: RedisState, key: string, now: int): Option<HoldInfo>
  {
    if key in rs.holds && now < rs.holds[key].expireAt then Some(rs.holds[key].info) else None
  }

  /** What the local fallback returns: an entry counts as expired only strictly after its expiry time. */
  function LocalHoldView(local: map<string, TimedHold>, key: string, now: int): Option<HoldInfo>
  {
    if key in local && !(now > local[key].expireAt) then Some(local[key].info) else None
  }

  /** The hold a lookup finds, depending on whether the store answers. */
  function HoldView(rs: RedisState, key: string, now: int, up: bool): Option<HoldInfo>
  {
    if up then StoredHold(rs, key, now) else LocalHoldView(rs.localHolds, key, now)
  }

  /** `saveHold`: the new hold goes to the store, or to the local map when the store fails. */
  function SaveHoldStep(rs: RedisState, key: string, memberId: nat, ttlMinutes: int, token: string,
                        now: int, up: bool): (r: RedisState)
    ensures r.available == up && r.statusCache == rs.statusCache
  {
    var entry := TimedHold(HoldInfo(token, memberId, now), now + ttlMinutes * MillisPerMinute);
    if up then rs.(available := true, holds := rs.holds[key := entry])
    else rs.(available := false, localHolds := rs.localHolds[key := entry])
  }

  /** `getLocalHold`: a missing entry gives nothing; an expired one is removed and gives nothing. */
  function GetLocalHoldStep(local: map<string, TimedHold>, key: string, now: int): (r: (Option<HoldInfo>, map<string, TimedHold>))
    ensures r.0 == LocalHoldView(local, key, now)
    ensures key in local && now > local[key].expireAt ==> r.1 == local - {key}
    ensures !(key in local && now > local[key].expireAt) ==> r.1 == local
  {
    if key !in local then (None, local)
    else if now > local[key].expireAt then (None, local - {key})
    else (Some(local[key].info), local)
  }

  /** `getHold`. */
  function GetHoldStep(rs: RedisState, key: string, now: int, up: bool): (r: (Option<HoldInfo>, RedisState))
    ensures r.0 == HoldView(rs, key, now, up)
    ensures r.1.available == up && r.1.holds == rs.holds && r.1.statusCache == rs.statusCache
  {
    if up then (StoredHold(rs, key, now), rs.(available := true))
    else
      var (h, local) := GetLocalHoldStep(rs.localHolds, key, now);
      (h, rs.(available := false, localHolds := local))
  }

  /** A lookup removes only entries no lookup at that time could see: every view at `now` is unchanged. */
  lemma GetHoldKeepsViews(rs: RedisState, key: string, now: int, up: bool, k: string, up2: bool)
    ensures HoldView(GetHoldStep(rs, key, now, up).1, k, now, up2) == HoldView(rs, k, now, up2)
  {
  }

  /** `validateHoldToken`: true iff a hold is found and carries exactly this token. */
  function ValidateHoldTokenStep(rs: RedisState, key: string, token: string, now: int, up: bool): (r: (bool, RedisState))
    ensures r.0 <==> HoldView(rs, key, now, up).Some? && HoldView(rs, key, now, up).value.holdToken == token
    ensures r.1 == GetHoldStep(rs, key, now, up).1
  {
    var (h, rs') := GetHoldStep(rs, key, now, up);
    (h.Some? && h.value.holdToken == token, rs')
  }

  /** `deleteHold`: the store entry on success; the local entry only when the store fails. */
  function DeleteHoldStep(rs: RedisState, key: string, up: bool): (r: RedisState)
    ensures r.available == up && r.statusCache == rs.statusCache
    ensures up ==> key !in r.holds && r.localHolds == rs.localHolds
    ensures !up ==> key !in r.localHolds && r.holds == rs.holds
  {
    if up then rs.(available := true, holds := rs.holds - {key})
    else rs.(available := false, localHolds := rs.localHolds - {key})
  }

  /**
   * `getLocalHoldTtlSeconds`: -1 for a missing entry or one whose time is up
   * (which is removed), otherwise the whole seconds left.
   */
  function GetLocalHoldTtlStep(local: map<string, TimedHold>, key: string, now: int): (r: (int, map<string, TimedHold>))
    ensures r.0 == -1 <==> key !in local || local[key].expireAt <= now
    ensures r.0 >= 0 ==> r.0 * MillisPerSecond <= local[key].expireAt - now < (r.0 + 1) * MillisPerSecond
    ensures r.0 >= -1
    ensures r.1 == if key in local && local[key].expireAt <= now then local - {key} else local
  {
    if key !in local then (-1, local)
    else
      var remain := local[key].expireAt - now;
      if remain <= 0 then (-1, local - {key})
      else (if remain / MillisPerSecond < 0 then 0 else remain / MillisPerSecond, local)
  }

  /** `getHoldTtl`: the store's own answer (`storeTtl`, possibly null), or the local estimate when the store fails. */
  function GetHoldTtlStep(rs: RedisState, key: string, now: int, up: bool, storeTtl: Option<int>): (r: (Option<int>, RedisState))
    ensures r.1.available == up && r.1.holds == rs.holds && r.1.statusCache == rs.statusCache
    ensures up ==> r.0 == storeTtl && r.1.localHolds == rs.localHolds
    ensures !up ==> r.0 == Some(GetLocalHoldTtlStep(rs.localHolds, key, now).0)
  {
    if up then (storeTtl, rs.(available := true))
    else
      var (ttl, local) := GetLocalHoldTtlStep(rs.localHolds, key, now);
      (Some(ttl), rs.(available := false, localHolds := local))
  }

  /** `saveSeatStatus`: a failed write is only recorded as unavailability. */
  function SaveSeatStatusStep(rs: RedisState, key: string, layout: SeatLayout, ttlMinutes: int, now: int, up: bool): (r: RedisState)
    ensures r.available == up && r.holds == rs.holds && r.localHolds == rs.localHolds
    ensures up ==> r.statusCache == rs.statusCache[key := TimedLayout(layout, now + ttlMinutes * MillisPerMinute)]
    ensures !up ==> r.statusCache == rs.statusCache
  {
    if up then rs.(available := true, statusCache := rs.statusCache[key := TimedLayout(layout, now + ttlMinutes * MillisPerMinute)])
    else rs.(available := false)
  }

  /** `getSeatStatus`: the cached layout if present and unexpired; empty on a miss or a store failure. */
  function GetSeatStatusStep(rs: RedisState, key: string, now: int, up: bool): (r: (Option<SeatLayout>, RedisState))
    ensures r.1 == rs.(available := up)
    ensures r.0.Some? <==> up && key in rs.statusCache && now < rs.statusCache[key].expireAt
    ensures r.0.Some? ==> r.0.value == rs.statusCache[key].layout
  {
    if up && key in rs.statusCache && now < rs.statusCache[key].expireAt then
      (Some(rs.statusCache[key].layout), rs.(available := true))
    else (None, rs.(available := up))
  }

  /** `invalidateSeatStatus`. */
  function InvalidateSeatStatusStep(rs: RedisState, key: string, up: bool): (r: RedisState)
    ensures r.available == up && r.holds == rs.holds && r.localHolds == rs.localHolds
    ensures up ==> r.statusCache == rs.statusCache - {key}
    ensures !up ==> r.statusCache == rs.statusCache
  {
    if up then rs.(available := true, statusCache := rs.statusCache - {key}) else rs.(available := false)
  }

  /** A saved hold is found, with its token and holder, until it expires, as long as lookups reach the same place. */
  lemma SavedHoldValidates(rs: RedisState, key: string, memberId: nat, ttlMinutes: int, token: string,
                           now: int, up: bool, later: int)
    requires now <= later < now + ttlMinutes * MillisPerMinute
    ensures var rs1 := SaveHoldStep(rs, key, memberId, ttlMinutes, token, now, up);
      && HoldView(rs1, key, later, up) == Some(HoldInfo(token, memberId, now))
      && ValidateHoldTokenStep(rs1, key, token, later, up).0
  {
  }

  /** A hold saved while the store answered is invisible once lookups fall back to the local map, and vice versa. */
  lemma SavedHoldNotSeenAcrossStores(rs: RedisState, key: string, memberId: nat, ttlMinutes: int, token: string,
                                     now: int, up: bool, later: int)
    ensures HoldView(SaveHoldStep(rs, key, memberId, ttlMinutes, token, now, up), key, later, !up)
            == HoldView(rs, key, later, !up)
  {
  }

  /** After `deleteHold`, a lookup that reaches the same place finds nothing. */
  lemma DeletedHoldIsGone(rs: RedisState, key: string, now: int, up: bool)
    ensures HoldView(DeleteHoldStep(rs, key, up), key, now, up).None?
  {
  }

  /**
   * A hold written to the local map during an outage survives a `deleteHold`
   * that reaches the store, and is found again at the next outage.
   */
  lemma LocalHoldSurvivesStoreDelete(rs: RedisState, key: string, memberId: nat, ttlMinutes: int, token: string,
                                     now: int, later: int)
    requires now <= later <= now + ttlMinutes * MillisPerMinute
    ensures var rs1 := DeleteHoldStep(SaveHoldStep(rs, key, memberId, ttlMinutes, token, now, false), key, true);
      HoldView(rs1, key, later, false) == Some(HoldInfo(token, memberId, now))
  {
  }

  /**
   * At the very millisecond of expiry the local map still returns the hold,
   * while the local TTL already reports -1 and removes the entry.
   */
  lemma LocalHoldExpiryBoundary(local: map<string, TimedHold>, key: string)
    requires key in local
    ensures GetLocalHoldStep(local, key, local[key].expireAt).0 == Some(local[key].info)
    ensures GetLocalHoldTtlStep(local, key, local[key].expireAt) == (-1, local - {key})
  {
  }

  /** A layout written and read back before it expires, with the store answering both times, is the same layout. */
  lemma CachedLayoutRoundTrip(rs: RedisState, key: string, layout: SeatLayout, ttlMinutes: int, now: int, later: int)
    requires now <= later < now + ttlMinutes * MillisPerMinute
    ensures GetSeatStatusStep(SaveSeatStatusStep(rs, key, layout, ttlMinutes, now, true), key, later, true).0 == Some(layout)
  {
  }

  /** After invalidation, a read that reaches the store misses. */
  lemma InvalidatedLayoutMisses(rs: RedisState, key: string, now: int)
    ensures GetSeatStatusStep(InvalidateSeatStatusStep(rs, key, true), key, now, true).0.None?
  {
  }

  class RedisService {
    var redisAvailable: bool
    var holds: map<string, TimedHold>
    var localHolds: map<string, TimedHold>
    var statusCache: map<string, TimedLayout>

    function State(): RedisState
      reads this
    {
      RedisState(redisAvailable, holds, localHolds, statusCache)
    }

    constructor ()
      ensures State() == RedisState(true, map[], map[], map[])
    {
      redisAvailable := true;
      holds := map[];
      localHolds := map[];
      statusCache := map[];
    }

    /** `isAvailable`. */
    method IsAvailable() returns (available: bool)
      ensures available == redisAvailable
    {
      available := redisAvailable;
    }

    /** `saveHold`; `freshToken` is the UUID it generates, and it is always returned. */
    method SaveHold(screeningId: nat, seatId: nat, memberId: nat, ttlMinutes: int, freshToken: string,
                    now: int, up: bool) returns (token: string)
      modifies this
      ensures token == freshToken
      ensures State() == SaveHoldStep(old(State()), HoldKey(screeningId, seatId), memberId, ttlMinutes, freshToken, now, up)
    {
      var key := HoldKey(screeningId, seatId);
      var entry := TimedHold(HoldInfo(freshToken, memberId, now), now + ttlMinutes * MillisPerMinute);
      if up {
        holds := holds[key := entry];
        redisAvailable := true;
      } else {
        redisAvailable := false;
        localHolds := localHolds[key := entry];
      }
      token := freshToken;
    }

    /** `getLocalHold`. */
    method GetLocalHold(key: string, now: int) returns (h: Option<HoldInfo>)
      modifies this
      ensures (h, localHolds) == GetLocalHoldStep(old(localHolds), key, now)
      ensures redisAvailable == old(redisAvailable) && holds == old(holds) && statusCache == old(statusCache)
    {
      if key !in localHolds {
        return None;
      }
      if now > localHolds[key].expireAt {
        localHolds := localHolds - {key};
        return None;
      }
      h := Some(localHolds[key].info);
    }

    /** `getHold`. */
    method GetHold(screeningId: nat, seatId: nat, now: int, up: bool) returns (h: Option<HoldInfo>)
      modifies this
      ensures (h, State()) == GetHoldStep(old(State()), HoldKey(screeningId, seatId), now, up)
    {
      var key := HoldKey(screeningId, seatId);
      if up {
        redisAvailable := true;
        h := StoredHold(State(), key, now);
      } else {
        redisAvailable := false;
        h := GetLocalHold(key, now);
      }
    }

    /** `validateHoldToken`. */
    method ValidateHoldToken(screeningId: nat, seatId: nat, holdToken: string, now: int, up: bool) returns (valid: bool)
      modifies this
      ensures (valid, State()) == ValidateHoldTokenStep(old(State()), HoldKey(screeningId, seatId), holdToken, now, up)
    {
      var h := GetHold(screeningId, seatId, now, up);
      valid := h.Some? && h.value.holdToken == holdToken;
    }

    /** `deleteHold`. */
    method DeleteHold(screeningId: nat, seatId: nat, up: bool)
      modifies this
      ensures State() == DeleteHoldStep(old(State()), HoldKey(screeningId, seatId), up)
    {
      var key := HoldKey(screeningId, seatId);
      if up {
        holds := holds - {key};
        redisAvailable := true;
      } else {
        redisAvailable := false;
        localHolds := localHolds - {key};
      }
    }

    /** `getLocalHoldTtlSeconds`. */
    method GetLocalHoldTtlSeconds(key: string, now: int) returns (ttl: int)
      modifies this
      ensures (ttl, localHolds) == GetLocalHoldTtlStep(old(localHolds), key, now)
      ensures redisAvailable == old(redisAvailable) && holds == old(holds) && statusCache == old(statusCache)
    {
      if key !in localHolds {
        return -1;
      }
      var remain := localHolds[key].expireAt - now;
      if remain <= 0 {
        localHolds := localHolds - {key};
        return -1;
      }
      ttl := if remain / MillisPerSecond < 0 then 0 else remain / MillisPerSecond;
    }

    /** `getHoldTtl`. */
    method GetHoldTtl(screeningId: nat, seatId: nat, now: int, up: bool, storeTtl: Option<int>) returns (ttl: Option<int>)
      modifies this
      ensures (ttl, State()) == GetHoldTtlStep(old(State()), HoldKey(screeningId, seatId), now, up, storeTtl)
    {
      var key := HoldKey(screeningId, seatId);
      if up {
        redisAvailable := true;
        ttl := storeTtl;
      } else {
        redisAvailable := false;
        var seconds := GetLocalHoldTtlSeconds(key, now);
        ttl := Some(seconds);
      }
    }

    /** `saveSeatStatus`. */
    method SaveSeatStatus(screeningId: nat, layout: SeatLayout, ttlMinutes: int, now: int, up: bool)
      modifies this
      ensures State() == SaveSeatStatusStep(old(State()), StatusKey(screeningId), layout, ttlMinutes, now, up)
    {
      if up {
        statusCache := statusCache[StatusKey(screeningId) := TimedLayout(layout, now + ttlMinutes * MillisPerMinute)];
        redisAvailable := true;
      } else {
        redisAvailable := false;
      }
    }

    /** `getSeatStatus`: never fails; a store failure reads as a miss. */
    method GetSeatStatus(screeningId: nat, now: int, up: bool) returns (cached: Option<SeatLayout>)
      modifies this
      ensures (cached, State()) == GetSeatStatusStep(old(State()), StatusKey(screeningId), now, up)
    {
      var key := StatusKey(screeningId);
      if up {
        redisAvailable := true;
        if key in statusCache && now < statusCache[key].expireAt {
          return Some(statusCache[key].layout);
        }
        return None;
      }
      redisAvailable := false;
      cached := None;
    }

    /** `invalidateSeatStatus`. */
    method InvalidateSeatStatus(screeningId: nat, up: bool)
      modifies this
      ensures State() == InvalidateSeatStatusStep(old(State()), StatusKey(screeningId), up)
    {
      if up {
        statusCache := statusCache - {StatusKey(screeningId)};
        redisAvailable := true;
      } else {
        redisAvailable := false;
      }
    }
  }
}
