/**
 * The screening-seat table and its queries (domain/screening/repository/
 * ScreeningSeatRepository.java and ScreeningSeatRepositoryImpl.java): lookup by
 * (screening, seat), the expired-hold query and its bulk release, the holds of
 * a member, and the per-status counts of a screening.
 */
module SeatRepository {
  import opened Common
  import opened Seqs
  import opened SeatStatuses
  import opened ScreeningSeats

  /** The unique key `uk_screening_seat` (screening_id, seat_id). */
  predicate HasKey(r: SeatRecord, screeningId: nat, seatId: nat)
  {
    r.screeningId == screeningId && r.SeatId() == seatId
  }

  /** At most one row per (screening, seat). */
  predicate KeysUnique(rows: seq<SeatRecord>)
  {
    forall i, j :: 0 <= i < j < |rows| ==> !HasKey(rows[j], rows[i].screeningId, rows[i].SeatId())
  }

  /** `findByScreeningIdAndSeatId`: the row with this key, if any. */
  function FindRow(rows: seq<SeatRecord>, screeningId: nat, seatId: nat): (r: Option<SeatRecord>)
    ensures r.None? <==> forall i :: 0 <= i < |rows| ==> !HasKey(rows[i], screeningId, seatId)
    ensures r.Some? ==> r.value in rows && HasKey(r.value, screeningId, seatId)
  {
    if rows == [] then None
    else if HasKey(rows[0], screeningId, seatId) then Some(rows[0])
    else FindRow(rows[1..], screeningId, seatId)
  }

  /** With unique keys the row found is the only one with that key. */
  lemma FindRowUnique(rows: seq<SeatRecord>, screeningId: nat, seatId: nat, i: nat)
    requires KeysUnique(rows)
    requires i < |rows| && HasKey(rows[i], screeningId, seatId)
    ensures FindRow(rows, screeningId, seatId) == Some(rows[i])
  {
    var k :| 0 <= k < |rows| && rows[k] == FindRow(rows, screeningId, seatId).value;
    if k != i {
      assert !HasKey(rows[if k < i then i else k], rows[if k < i then k else i].screeningId, rows[if k < i then k else i].SeatId());
    }
  }

  /** The position of the row with this key, or |rows| when there is none. */
  function KeyIndex(rows: seq<SeatRecord>, screeningId: nat, seatId: nat): (i: nat)
    ensures i <= |rows|
    ensures forall j :: 0 <= j < i ==> !HasKey(rows[j], screeningId, seatId)
    ensures i < |rows| ==> HasKey(rows[i], screeningId, seatId)
  {
    if rows == [] then 0
    else if HasKey(rows[0], screeningId, seatId) then 0
    else 1 + KeyIndex(rows[1..], screeningId, seatId)
  }

  /** `save` of a row: overwrite the row with the same key in place, or append it. */
  function StoreRow(rows: seq<SeatRecord>, row: SeatRecord): seq<SeatRecord>
  {
    var i := KeyIndex(rows, row.screeningId, row.SeatId());
    if i == |rows| then rows + [row] else rows[i := row]
  }

  /**
   * After `save` the key of the row finds it, every other key finds what it found
   * before, keys stay unique, and an existing row is overwritten where it stands.
   */
  lemma StoreRowSpec(rows: seq<SeatRecord>, row: SeatRecord)
    requires KeysUnique(rows)
    ensures KeysUnique(StoreRow(rows, row))
    ensures FindRow(StoreRow(rows, row), row.screeningId, row.SeatId()) == Some(row)
    ensures forall s, t :: !(s == row.screeningId && t == row.SeatId()) ==>
      FindRow(StoreRow(rows, row), s, t) == FindRow(rows, s, t)
    ensures FindRow(rows, row.screeningId, row.SeatId()).Some? ==> |StoreRow(rows, row)| == |rows|
  {
    var i := KeyIndex(rows, row.screeningId, row.SeatId());
    var n := StoreRow(rows, row);
    FindRowStored(rows, n, i, row);
    forall s: nat, t: nat | !(s == row.screeningId && t == row.SeatId())
      ensures FindRow(n, s, t) == FindRow(rows, s, t)
    {
      FindRowOther(rows, n, i, row, s, t);
    }
  }

  /** The where-clause of `findExpiredHolds` and `releaseExpiredHolds`: HOLD and
    * `holdExpireAt < now` (a null expiry never compares). */
  predicate ExpiredHold(r: SeatRecord, now: int)
  {
    r.status == HOLD && r.holdExpireAt.Some? && r.holdExpireAt.value < now
  }

  /** The query predicate is the entity's own `isHoldExpired`. */
  lemma ExpiredHoldIsHoldExpired(r: SeatRecord, now: int)
    ensures ExpiredHold(r, now) <==> IsHoldExpired(r, now)
  {
  }

  function FindExpiredHolds(rows: seq<SeatRecord>, now: int): seq<SeatRecord>
  {
    Filter(rows, r => ExpiredHold(r, now))
  }

  /** `findExpiredHolds(now)` returns exactly the expired held rows, in table order. */
  lemma FindExpiredHoldsSpec(rows: seq<SeatRecord>, now: int)
    ensures forall r :: r in FindExpiredHolds(rows, now) <==>
      r in rows && r.status == HOLD && r.holdExpireAt.Some? && r.holdExpireAt.value < now
    ensures SubsequenceOf(FindExpiredHolds(rows, now), rows)
  {
    FilterIsSubsequence(rows, r => ExpiredHold(r, now));
  }

  /** The `set ... setNull ...` of the bulk update, on one matching row. */
  function ReleaseRow(r: SeatRecord, now: int): SeatRecord
  {
    if ExpiredHold(r, now) then r.(status := AVAILABLE, holdToken := None, holdMember := None, holdExpireAt := None)
    else r
  }

  function ReleaseRows(rows: seq<SeatRecord>, now: int): (n: seq<SeatRecord>)
    ensures |n| == |rows|
  {
    Map(rows, r => ReleaseRow(r, now))
  }

  /**
   * The bulk update does to each matching row what the entity's `releaseHold` does,
   * leaves every other row as it was, and keeps every row's key.
   */
  lemma ReleaseRowsSpec(rows: seq<SeatRecord>, now: int)
    ensures forall i :: 0 <= i < |rows| && ExpiredHold(rows[i], now) ==>
      ReleaseRows(rows, now)[i] == ReleaseSeatHold(rows[i])
    ensures forall i :: 0 <= i < |rows| && !ExpiredHold(rows[i], now) ==> ReleaseRows(rows, now)[i] == rows[i]
    ensures forall i :: 0 <= i < |rows| ==> SameSeat(ReleaseRows(rows, now)[i], rows[i])
  {
  }

  /** After the release nothing is left to release: the query is empty and a second run changes nothing. */
  lemma ReleaseRowsIdempotent(rows: seq<SeatRecord>, now: int)
    ensures FindExpiredHolds(ReleaseRows(rows, now), now) == []
    ensures ReleaseRows(ReleaseRows(rows, now), now) == ReleaseRows(rows, now)
  {
    var n := ReleaseRows(rows, now);
    FilterKeepsNone(n, r => ExpiredHold(r, now));
  }

  /** The release keeps the hold columns of every row consistent. */
  lemma ReleaseRowsKeepConsistency(rows: seq<SeatRecord>, now: int)
    requires forall i :: 0 <= i < |rows| ==> HoldColumnsConsistent(rows[i])
    ensures forall i :: 0 <= i < |rows| ==> HoldColumnsConsistent(ReleaseRows(rows, now)[i])
  {
  }

  /** `findHoldsByMemberId`: rows in HOLD whose holder is the member. */
  predicate HeldBy(r: SeatRecord, memberId: nat)
  {
    r.holdMember == Some(memberId) && r.status == HOLD
  }

  function FindHoldsByMember(rows: seq<SeatRecord>, memberId: nat): seq<SeatRecord>
  {
    Filter(rows, r => HeldBy(r, memberId))
  }

  lemma FindHoldsByMemberSpec(rows: seq<SeatRecord>, memberId: nat)
    ensures forall r :: r in FindHoldsByMember(rows, memberId) <==>
      r in rows && r.status == HOLD && r.holdMember == Some(memberId)
    ensures |FindHoldsByMember(rows, memberId)| == Count(rows, r => HeldBy(r, memberId))
  {
    CountIsFilterLength(rows, r => HeldBy(r, memberId));
  }

  /** The seven statuses in declaration order. */
  const AllStatuses: seq<SeatStatus> := [AVAILABLE, HOLD, PAYMENT_PENDING, RESERVED, SeatStatus.CANCELLED, BLOCKED, DISABLED]

  lemma AllStatusesListsEachOnce(st: SeatStatus)
    ensures st in AllStatuses && Distinct(AllStatuses)
  {
  }

  function CountScreening(rows: seq<SeatRecord>, screeningId: nat): (n: nat)
    ensures n <= |rows|
  {
    if rows == [] then 0
    else (if rows[0].screeningId == screeningId then 1 else 0) + CountScreening(rows[1..], screeningId)
  }

  function CountStatus(rows: seq<SeatRecord>, screeningId: nat, st: SeatStatus): (n: nat)
    ensures n <= CountScreening(rows, screeningId)
  {
    if rows == [] then 0
    else
      (if rows[0].screeningId == screeningId && rows[0].status == st then 1 else 0)
      + CountStatus(rows[1..], screeningId, st)
  }

  /** `countByScreeningIdGroupByStatus`: one (status, count) row per status the screening's seats are in. */
  function GroupCounts(rows: seq<SeatRecord>, screeningId: nat, statuses: seq<SeatStatus>): (g: seq<(SeatStatus, nat)>)
    ensures |g| <= |statuses|
    ensures forall i :: 0 <= i < |g| ==> g[i].0 in statuses && g[i].1 == CountStatus(rows, screeningId, g[i].0) && g[i].1 > 0
  {
    if statuses == [] then []
    else
      var c := CountStatus(rows, screeningId, statuses[0]);
      var rest := GroupCounts(rows, screeningId, statuses[1..]);
      if c > 0 then [(statuses[0], c)] + rest else rest
  }

  /** Every listed status that some seat of the screening is in has its row: `i` is where. */
  lemma {:induction false} GroupCountsCovers(rows: seq<SeatRecord>, screeningId: nat, statuses: seq<SeatStatus>, st: SeatStatus)
    returns (i: nat)
    requires st in statuses && CountStatus(rows, screeningId, st) > 0
    ensures i < |GroupCounts(rows, screeningId, statuses)| && GroupCounts(rows, screeningId, statuses)[i].0 == st
    decreases |statuses|
  {
    if st == statuses[0] {
      i := 0;
    } else {
      assert statuses == [statuses[0]] + statuses[1..];
      var j := GroupCountsCovers(rows, screeningId, statuses[1..], st);
      i := if CountStatus(rows, screeningId, statuses[0]) > 0 then j + 1 else j;
    }
  }

  function SumGroup(g: seq<(SeatStatus, nat)>): nat
  {
    if g == [] then 0 else g[0].1 + SumGroup(g[1..])
  }

  function SumCounts(rows: seq<SeatRecord>, screeningId: nat, statuses: seq<SeatStatus>): nat
  {
    if statuses == [] then 0 else CountStatus(rows, screeningId, statuses[0]) + SumCounts(rows, screeningId, statuses[1..])
  }

  function Occurrences(statuses: seq<SeatStatus>, st: SeatStatus): nat
  {
    if statuses == [] then 0 else (if statuses[0] == st then 1 else 0) + Occurrences(statuses[1..], st)
  }

  lemma {:induction false} GroupSumsCounts(rows: seq<SeatRecord>, screeningId: nat, statuses: seq<SeatStatus>)
    ensures SumGroup(GroupCounts(rows, screeningId, statuses)) == SumCounts(rows, screeningId, statuses)
    decreases |statuses|
  {
    if statuses != [] {
      GroupSumsCounts(rows, screeningId, statuses[1..]);
    }
  }

  /** Removing the first row takes its contribution out of every status count. */
  lemma {:induction false} SumCountsTail(rows: seq<SeatRecord>, screeningId: nat, statuses: seq<SeatStatus>)
    requires rows != []
    ensures SumCounts(rows, screeningId, statuses) == SumCounts(rows[1..], screeningId, statuses)
      + (if rows[0].screeningId == screeningId then Occurrences(statuses, rows[0].status) else 0)
    decreases |statuses|
  {
    if statuses != [] {
      SumCountsTail(rows, screeningId, statuses[1..]);
    }
  }

  lemma {:induction false} SumCountsIsScreeningCount(rows: seq<SeatRecord>, screeningId: nat)
    ensures SumCounts(rows, screeningId, AllStatuses) == CountScreening(rows, screeningId)
    decreases |rows|
  {
    if rows != [] {
      SumCountsTail(rows, screeningId, AllStatuses);
      OccursOnceInAll(rows[0].status);
      SumCountsIsScreeningCount(rows[1..], screeningId);
    } else {
      SumCountsOfNoRows(screeningId, AllStatuses);
    }
  }

  lemma OccursOnceInAll(st: SeatStatus)
    ensures Occurrences(AllStatuses, st) == 1
  {
    var a6 := [DISABLED];
    var a5 := [BLOCKED] + a6;
    var a4 := [SeatStatus.CANCELLED] + a5;
    var a3 := [RESERVED] + a4;
    var a2 := [PAYMENT_PENDING] + a3;
    var a1 := [HOLD] + a2;
    assert AllStatuses == [AVAILABLE] + a1;
    OccurrencesCons(DISABLED, [], st);
    OccurrencesCons(BLOCKED, a6, st);
    OccurrencesCons(SeatStatus.CANCELLED, a5, st);
    OccurrencesCons(RESERVED, a4, st);
    OccurrencesCons(PAYMENT_PENDING, a3, st);
    OccurrencesCons(HOLD, a2, st);
    OccurrencesCons(AVAILABLE, a1, st);
  }

  lemma OccurrencesCons(x: SeatStatus, rest: seq<SeatStatus>, st: SeatStatus)
    ensures Occurrences([x] + rest, st) == (if x == st then 1 else 0) + Occurrences(rest, st)
  {
    assert ([x] + rest)[1..] == rest;
  }

  lemma {:induction false} SumCountsOfNoRows(screeningId: nat, statuses: seq<SeatStatus>)
    ensures SumCounts([], screeningId, statuses) == 0
    decreases |statuses|
  {
    if statuses != [] {
      SumCountsOfNoRows(screeningId, statuses[1..]);
    }
  }

  /** The per-status counts of a screening add up to its number of seats. */
  lemma GroupCountsSumToSeats(rows: seq<SeatRecord>, screeningId: nat)
    ensures SumGroup(GroupCounts(rows, screeningId, AllStatuses)) == CountScreening(rows, screeningId)
  {
    GroupSumsCounts(rows, screeningId, AllStatuses);
    SumCountsIsScreeningCount(rows, screeningId);
  }

  /** The table, updated in place by the bulk release and by `save`. */
  class ScreeningSeatRepository {
    var rows: seq<SeatRecord>

    predicate Valid()
      reads this
    {
      KeysUnique(rows)
    }

    constructor ()
      ensures rows == [] && Valid()
    {
      rows := [];
    }

    method FindByScreeningIdAndSeatId(screeningId: nat, seatId: nat) returns (r: Option<SeatRecord>)
      ensures r == FindRow(rows, screeningId, seatId)
    {
      r := FindRow(rows, screeningId, seatId);
    }

    /** `save`: overwrite the row with the same key, or insert a new one. */
    method Save(row: SeatRecord)
      requires Valid()
      modifies this
      ensures Valid()
      ensures FindRow(rows, row.screeningId, row.SeatId()) == Some(row)
      ensures forall s, t :: !(s == row.screeningId && t == row.SeatId()) ==> FindRow(rows, s, t) == FindRow(old(rows), s, t)
      ensures rows == StoreRow(old(rows), row)
    {
      var i := 0;
      while i < |rows| && !HasKey(rows[i], row.screeningId, row.SeatId())
        invariant 0 <= i <= |rows|
        invariant forall j :: 0 <= j < i ==> !HasKey(rows[j], row.screeningId, row.SeatId())
      {
        i := i + 1;
      }
      var old_rows := rows;
      assert i == KeyIndex(rows, row.screeningId, row.SeatId());
      if i == |rows| {
        rows := rows + [row];
      } else {
        rows := rows[i := row];
      }
      forall s: nat, t: nat | !(s == row.screeningId && t == row.SeatId())
        ensures FindRow(rows, s, t) == FindRow(old_rows, s, t)
      {
        FindRowOther(old_rows, rows, i, row, s, t);
      }
      FindRowStored(old_rows, rows, i, row);
    }

    method FindExpired(now: int) returns (found: seq<SeatRecord>)
      ensures found == FindExpiredHolds(rows, now)
    {
      found := FindExpiredHolds(rows, now);
    }

    /** `releaseExpiredHolds(now)`: the bulk update, returning the number of rows it changed. */
    method ReleaseExpiredHolds(now: int) returns (count: nat)
      requires Valid()
      modifies this
      ensures rows == ReleaseRows(old(rows), now)
      ensures count == |FindExpiredHolds(old(rows), now)|
      ensures Valid()
    {
      count := |FindExpiredHolds(rows, now)|;
      rows := ReleaseRows(rows, now);
      ReleaseRowsSpec(old(rows), now);
    }

    method FindHoldsByMemberId(memberId: nat) returns (found: seq<SeatRecord>)
      ensures found == FindHoldsByMember(rows, memberId)
    {
      found := FindHoldsByMember(rows, memberId);
    }

    method CountByScreeningIdGroupByStatus(screeningId: nat) returns (g: seq<(SeatStatus, nat)>)
      ensures g == GroupCounts(rows, screeningId, AllStatuses)
      ensures SumGroup(g) == CountScreening(rows, screeningId)
    {
      g := GroupCounts(rows, screeningId, AllStatuses);
      GroupCountsSumToSeats(rows, screeningId);
    }
  }

  /** Writing `row` at index `i` (or appending it when i = |rows|) leaves the lookup of every other key alone. */
  lemma {:induction false} FindRowOther(rows: seq<SeatRecord>, rows': seq<SeatRecord>, i: nat, row: SeatRecord, s: nat, t: nat)
    requires i <= |rows|
    requires forall j :: 0 <= j < i ==> !HasKey(rows[j], row.screeningId, row.SeatId())
    requires i < |rows| ==> HasKey(rows[i], row.screeningId, row.SeatId()) && rows' == rows[i := row]
    requires i == |rows| ==> rows' == rows + [row]
    requires !(s == row.screeningId && t == row.SeatId())
    ensures FindRow(rows', s, t) == FindRow(rows, s, t)
    decreases |rows|
  {
    if rows == [] {
    } else if i == 0 {
      assert rows'[1..] == rows[1..];
    } else {
      assert rows'[0] == rows[0];
      if !HasKey(rows[0], s, t) {
        var tail' := if i < |rows| then rows[1..][i - 1 := row] else rows[1..] + [row];
        assert rows'[1..] == tail';
        FindRowOther(rows[1..], tail', i - 1, row, s, t);
      }
    }
  }

  /** After the write the key of `row` finds `row`, and keys stay unique. */
  lemma FindRowStored(rows: seq<SeatRecord>, rows': seq<SeatRecord>, i: nat, row: SeatRecord)
    requires KeysUnique(rows) && i <= |rows|
    requires forall j :: 0 <= j < i ==> !HasKey(rows[j], row.screeningId, row.SeatId())
    requires i < |rows| ==> HasKey(rows[i], row.screeningId, row.SeatId()) && rows' == rows[i := row]
    requires i == |rows| ==> rows' == rows + [row]
    ensures KeysUnique(rows')
    ensures FindRow(rows', row.screeningId, row.SeatId()) == Some(row)
  {
    if i == |rows| {
      assert forall j :: 0 <= j < |rows| ==> !HasKey(rows[j], row.screeningId, row.SeatId());
    }
    assert rows'[i] == row;
    FindRowUnique(rows', row.screeningId, row.SeatId(), i);
  }
}
