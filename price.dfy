/**
 * Server-side pricing (domain/screening/service/PriceCalculateService.java):
 * each requested seat is priced by its seat type from a configured table, and
 * the total is the sum of the per-seat prices.
 */
module Pricing {
  import opened Common
  import opened Seqs
  import Seats
  import opened ScreeningSeats
  import opened SeatRepository

  /** The `price.default.*` properties. */
  datatype PriceConfig = PriceConfig(normal: int, premium: int, vip: int, couple: int, wheelchair: int)

  const DefaultPrices: PriceConfig := PriceConfig(10000, 15000, 20000, 25000, 10000)

  /** `basePriceFor`: the switch over all five seat types. */
  function BasePriceFor(config: PriceConfig, t: Seats.SeatType): int
  {
    match t
    case NORMAL => config.normal
    case PREMIUM => config.premium
    case VIP => config.vip
    case COUPLE => config.couple
    case WHEELCHAIR => config.wheelchair
  }

  /** With the defaults every type has a positive price, and the two standard types share the lowest one. */
  lemma DefaultPriceTable(t: Seats.SeatType)
    ensures BasePriceFor(DefaultPrices, t) >= BasePriceFor(DefaultPrices, Seats.NORMAL) > 0
    ensures BasePriceFor(DefaultPrices, t) == 10000 <==> t in {Seats.NORMAL, Seats.WHEELCHAIR}
    ensures BasePriceFor(DefaultPrices, t) <= 25000
  {
  }

  /** `PriceResult`: the price of each requested seat and their total. */
  datatype PriceResult = PriceResult(priceBySeatId: map<nat, int>, totalAmount: int)

  /** The sum of `m[id]` over the ids in `ids`. */
  function SumOver(ids: seq<nat>, m: map<nat, int>): int
    requires forall i :: 0 <= i < |ids| ==> ids[i] in m
  {
    if ids == [] then 0 else m[ids[0]] + SumOver(ids[1..], m)
  }

  /** The rows for the requested ids, looked up one by one in request order; the first missing one fails. */
  function LookupSeats(rows: seq<SeatRecord>, screeningId: nat, seatIds: seq<nat>): (res: Result<seq<SeatRecord>>)
    ensures res.Err? <==> exists i :: 0 <= i < |seatIds| && FindRow(rows, screeningId, seatIds[i]).None?
    ensures res.Err? ==> res.error == SEAT_NOT_FOUND
    ensures res.Ok? ==> |res.value| == |seatIds|
    ensures res.Ok? ==> forall i :: 0 <= i < |seatIds| ==> Some(res.value[i]) == FindRow(rows, screeningId, seatIds[i])
  {
    if seatIds == [] then Ok([])
    else
      var first := FindRow(rows, screeningId, seatIds[0]);
      if first.None? then Err(SEAT_NOT_FOUND)
      else
        var rest := LookupSeats(rows, screeningId, seatIds[1..]);
        assert forall i :: 1 <= i < |seatIds| ==> seatIds[i] == seatIds[1..][i - 1];
        if rest.Err? then
          assert exists i :: 0 <= i < |seatIds| && FindRow(rows, screeningId, seatIds[i]).None? by {
            var j :| 0 <= j < |seatIds[1..]| && FindRow(rows, screeningId, seatIds[1..][j]).None?;
            assert FindRow(rows, screeningId, seatIds[j + 1]).None?;
          }
          rest
        else Ok([first.value] + rest.value)
  }

  /** The seat id of each row, in order. */
  function SeatIds(seats: seq<SeatRecord>): (ids: seq<nat>)
    ensures |ids| == |seats|
    ensures forall i :: 0 <= i < |seats| ==> ids[i] == seats[i].SeatId()
  {
    if seats == [] then [] else [seats[0].SeatId()] + SeatIds(seats[1..])
  }

  /**
   * `Collectors.toMap(seatId, price)` over the looked-up seats, in order. A repeated
   * seat id is an IllegalStateException, modelled as DUPLICATE_KEY.
   */
  function ToPriceMap(config: PriceConfig, seats: seq<SeatRecord>): (res: Result<map<nat, int>>)
    ensures res.Ok? <==> Distinct(SeatIds(seats))
    ensures res.Err? ==> res.error == DUPLICATE_KEY
    ensures res.Ok? ==> forall id :: id in res.value <==> exists i :: 0 <= i < |seats| && seats[i].SeatId() == id
    ensures res.Ok? ==> forall i :: 0 <= i < |seats| ==> res.value[seats[i].SeatId()] == BasePriceFor(config, seats[i].seat.seatType)
    decreases |seats|
  {
    if seats == [] then Ok(map[])
    else
      var ids := SeatIds(seats);
      var rest := ToPriceMap(config, seats[1..]);
      assert ids[1..] == SeatIds(seats[1..]);
      DistinctCons(ids);
      if rest.Err? then rest
      else if seats[0].SeatId() in rest.value then Err(DUPLICATE_KEY)
      else
        var m := rest.value[seats[0].SeatId() := BasePriceFor(config, seats[0].seat.seatType)];
        assert forall i :: 1 <= i < |seats| ==> seats[i] == seats[1..][i - 1];
        Ok(m)
  }

  /**
   * `calculate(screeningId, seatIds)`: INVALID_INPUT for no seats, SEAT_NOT_FOUND for
   * the first unknown seat, DUPLICATE_KEY for a repeated one; otherwise the price of
   * every requested seat and their sum.
   */
  function Calculate(rows: seq<SeatRecord>, config: PriceConfig, screeningId: nat, seatIds: seq<nat>): (res: Result<PriceResult>)
    ensures seatIds == [] ==> res == Err(INVALID_INPUT)
    ensures seatIds != [] && (exists i :: 0 <= i < |seatIds| && FindRow(rows, screeningId, seatIds[i]).None?) ==>
      res == Err(SEAT_NOT_FOUND)
  {
    if seatIds == [] then Err(INVALID_INPUT)
    else
      var seats := LookupSeats(rows, screeningId, seatIds);
      if seats.Err? then Err(seats.error)
      else
        var prices := ToPriceMap(config, seats.value);
        if prices.Err? then Err(prices.error)
        else
          var ids := SeatIds(seats.value);
          Ok(PriceResult(prices.value, SumOver(ids, prices.value)))
  }

  /**
   * A successful calculation prices exactly the requested seats, each at the base
   * price of its type, lists no seat twice, and totals the prices.
   */
  lemma CalculateOk(rows: seq<SeatRecord>, config: PriceConfig, screeningId: nat, seatIds: seq<nat>)
    requires Calculate(rows, config, screeningId, seatIds).Ok?
    ensures var r := Calculate(rows, config, screeningId, seatIds).value;
      seatIds != [] && Distinct(seatIds)
      && (forall id :: id in r.priceBySeatId <==> id in seatIds)
      && (forall i :: 0 <= i < |seatIds| ==>
            FindRow(rows, screeningId, seatIds[i]).Some?
            && r.priceBySeatId[seatIds[i]] == BasePriceFor(config, FindRow(rows, screeningId, seatIds[i]).value.seat.seatType))
      && r.totalAmount == SumOver(seatIds, r.priceBySeatId)
  {
    var seats := LookupSeats(rows, screeningId, seatIds).value;
    var ids := SeatIds(seats);
    assert ids == seatIds by {
      forall i | 0 <= i < |seatIds| ensures ids[i] == seatIds[i] {
        assert HasKey(seats[i], screeningId, seatIds[i]);
      }
    }
    var r := Calculate(rows, config, screeningId, seatIds).value;
    forall id | id in r.priceBySeatId ensures id in seatIds {
      var i :| 0 <= i < |seats| && seats[i].SeatId() == id;
      assert ids[i] == id;
    }
    forall id | id in seatIds ensures id in r.priceBySeatId {
      var i :| 0 <= i < |seatIds| && seatIds[i] == id;
      assert seats[i].SeatId() == ids[i];
    }
  }

  /** When every seat is found, a repeated seat id makes `toMap` throw. */
  lemma CalculateRejectsRepeatedSeat(rows: seq<SeatRecord>, config: PriceConfig, screeningId: nat, seatIds: seq<nat>)
    requires forall i :: 0 <= i < |seatIds| ==> FindRow(rows, screeningId, seatIds[i]).Some?
    requires !Distinct(seatIds)
    ensures Calculate(rows, config, screeningId, seatIds) == Err(DUPLICATE_KEY)
  {
    var seats := LookupSeats(rows, screeningId, seatIds).value;
    var ids := SeatIds(seats);
    assert ids == seatIds by {
      forall i | 0 <= i < |seatIds| ensures ids[i] == seatIds[i] {
        assert HasKey(seats[i], screeningId, seatIds[i]);
      }
    }
  }

  lemma {:induction false} SumOverBounds(ids: seq<nat>, m: map<nat, int>, lo: int, hi: int)
    requires forall i :: 0 <= i < |ids| ==> ids[i] in m && lo <= m[ids[i]] <= hi
    ensures |ids| * lo <= SumOver(ids, m) <= |ids| * hi
    decreases |ids|
  {
    if ids != [] {
      SumOverBounds(ids[1..], m, lo, hi);
    }
  }

  /** Every seat costs between the cheapest and the dearest configured price, so the
    * total lies between `n * cheapest` and `n * dearest` for `n` requested seats. */
  lemma TotalWithinTable(rows: seq<SeatRecord>, config: PriceConfig, screeningId: nat, seatIds: seq<nat>, lo: int, hi: int)
    requires Calculate(rows, config, screeningId, seatIds).Ok?
    requires forall t: Seats.SeatType :: lo <= BasePriceFor(config, t) <= hi
    ensures |seatIds| * lo <= Calculate(rows, config, screeningId, seatIds).value.totalAmount <= |seatIds| * hi
  {
    CalculateOk(rows, config, screeningId, seatIds);
    var r := Calculate(rows, config, screeningId, seatIds).value;
    SumOverBounds(seatIds, r.priceBySeatId, lo, hi);
  }

  /** Removing one occurrence of `k` from a list. */
  function Without(ids: seq<nat>, k: nat): (r: seq<nat>)
    ensures forall x :: x in r ==> x in ids
    ensures |r| == |ids| - (if k in ids then 1 else 0)
  {
    if ids == [] then []
    else if ids[0] == k then ids[1..]
    else [ids[0]] + Without(ids[1..], k)
  }

  lemma {:induction false} SumOverWithout(ids: seq<nat>, m: map<nat, int>, k: nat)
    requires forall i :: 0 <= i < |ids| ==> ids[i] in m
    requires k in ids
    ensures forall i :: 0 <= i < |Without(ids, k)| ==> Without(ids, k)[i] in m
    ensures SumOver(ids, m) == m[k] + SumOver(Without(ids, k), m)
    decreases |ids|
  {
    if ids[0] != k {
      SumOverWithout(ids[1..], m, k);
      var w := Without(ids[1..], k);
      assert Without(ids, k) == [ids[0]] + w;
      assert (ids[0] in m);
      assert ([ids[0]] + w)[1..] == w;
    }
  }

  lemma WithoutKeepsDistinct(ids: seq<nat>, k: nat)
    requires Distinct(ids) && k in ids
    ensures Distinct(Without(ids, k))
    ensures forall x :: x in Without(ids, k) <==> x in ids && x != k
  {
    WithoutSpec(ids, k);
  }

  lemma {:induction false} WithoutSpec(ids: seq<nat>, k: nat)
    requires Distinct(ids)
    ensures Distinct(Without(ids, k))
    ensures forall x :: x in Without(ids, k) <==> x in ids && x != k
    decreases |ids|
  {
    if ids != [] {
      if ids[0] != k {
        assert Distinct(ids[1..]);
        WithoutSpec(ids[1..], k);
        assert ids[0] !in ids[1..];
        assert ids[0] !in Without(ids[1..], k);
      } else {
        assert k !in ids[1..];
      }
    }
  }

  /**
   * The total does not depend on the order the map's values are visited in: any two
   * duplicate-free listings of the same seat ids sum to the same amount. So the
   * sum over `priceBySeatId.values()` in hash order is the sum in request order.
   */
  lemma {:induction false} SumOverOrderIndependent(a: seq<nat>, b: seq<nat>, m: map<nat, int>)
    requires Distinct(a) && Distinct(b)
    requires forall x :: x in a <==> x in b
    requires forall i :: 0 <= i < |a| ==> a[i] in m
    ensures forall i :: 0 <= i < |b| ==> b[i] in m
    ensures SumOver(a, m) == SumOver(b, m)
    decreases |a|
  {
    assert forall i :: 0 <= i < |b| ==> b[i] in a;
    if a != [] {
      var k := a[0];
      assert k in b;
      SumOverWithout(b, m, k);
      WithoutKeepsDistinct(b, k);
      var b' := Without(b, k);
      assert Distinct(a[1..]);
      assert k !in a[1..];
      forall x ensures x in a[1..] <==> x in b' {
        if x in a[1..] {
          assert x in a && x != k;
        }
        if x in b' {
          assert x in a && x != k;
          var i :| 0 <= i < |a| && a[i] == x;
          assert i != 0;
          assert a[1..][i - 1] == x;
        }
      }
      SumOverOrderIndependent(a[1..], b', m);
    }
  }
}
