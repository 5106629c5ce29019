/**
 * The seat map drawn on the booking page (frontend/src/components/booking/SeatMap.tsx): seats
 * grouped into rows, each row in seat-number order and the rows in label order; the fill
 * colour and clickability of each seat; and the size of the drawing. The row-label comparison
 * (`localeCompare` with numeric collation) is a parameter, and the array sorts of the browser
 * are modelled as a stable insertion sort.
 */
module SeatMap {
  import opened Seqs

  const CellWidth: int := 56
  const CellHeight: int := 48
  const Gap: int := 6

  const OtherHoldColor: string := "#f59e0b"
  /** The colour of a status the colour table does not list. */
  const DefaultColor: string := "#9ca3af"

  /** `STATUS_COLOR`. */
  const StatusColors: map<string, string> := map[
    "AVAILABLE" := "#22c55e",
    "HOLD" := "#3b82f6",
    "PAYMENT_PENDING" := "#eab308",
    "RESERVED" := "#ef4444",
    "CANCELLED" := "#9ca3af",
    "BLOCKED" := "#4b5563",
    "DISABLED" := "#d1d5db"
  ]

  /** A seat as the seat-status endpoint reports it. */
  datatype SeatItem = SeatItem(seatId: int, status: string, rowLabel: string, seatNo: int)

  /** `getFill`: another user's hold has its own colour; `mine` is `myHoldSeatIds`. */
  function GetFill(seat: SeatItem, mine: set<int>): string
  {
    if seat.status == "HOLD" && seat.seatId !in mine then OtherHoldColor
    else if seat.status in StatusColors then StatusColors[seat.status]
    else DefaultColor
  }

  /** `isClickable`. */
  function IsClickable(seat: SeatItem, mine: set<int>, disabled: bool): bool
  {
    if disabled then false
    else if seat.status == "AVAILABLE" then true
    else seat.status == "HOLD" && seat.seatId in mine
  }

  /**
   * A seat is drawn in the other-hold colour exactly when someone else holds it, and then it
   * cannot be clicked; a clickable seat is one the user may book (drawn green) or release
   * (drawn in the hold colour), and nothing is clickable while the map is disabled.
   */
  lemma FillAndClickSpec(seat: SeatItem, mine: set<int>, disabled: bool)
    ensures GetFill(seat, mine) == OtherHoldColor <==> seat.status == "HOLD" && seat.seatId !in mine
    ensures IsClickable(seat, mine, disabled)
            <==> !disabled && (seat.status == "AVAILABLE" || (seat.status == "HOLD" && seat.seatId in mine))
    ensures IsClickable(seat, mine, disabled) ==>
              GetFill(seat, mine) == (if seat.status == "AVAILABLE" then "#22c55e" else "#3b82f6")
  {
    assert forall k :: k in StatusColors ==> StatusColors[k] != OtherHoldColor;
  }

  // ---- Sorting ----

  /** Any two elements compare, and the comparison is transitive. */
  ghost predicate IsTotalPreorder<T(!new)>(le: (T, T) -> bool)
  {
    && (forall a, b :: le(a, b) || le(b, a))
    && (forall a, b, c :: le(a, b) && le(b, c) ==> le(a, c))
  }

  predicate SortedBy<T>(s: seq<T>, le: (T, T) -> bool)
  {
    forall i, j :: 0 <= i < j < |s| ==> le(s[i], s[j])
  }

  /** Places `x` before the first element it may precede. */
  function Insert<T(==)>(x: T, s: seq<T>, le: (T, T) -> bool): (r: seq<T>)
    ensures multiset(r) == multiset(s) + multiset{x}
  {
    if s == [] || le(x, s[0]) then [x] + s
    else
      assert s == [s[0]] + s[1..];
      [s[0]] + Insert(x, s[1..], le)
  }

  /** `Array.prototype.sort` with comparator `le`: a stable insertion sort. */
  function SortBy<T(==)>(s: seq<T>, le: (T, T) -> bool): (r: seq<T>)
    ensures multiset(r) == multiset(s)
  {
    if s == [] then []
    else
      assert s == [s[0]] + s[1..];
      Insert(s[0], SortBy(s[1..], le), le)
  }

  lemma {:induction false} InsertSorted<T(!new)>(x: T, s: seq<T>, le: (T, T) -> bool)
    requires IsTotalPreorder(le) && SortedBy(s, le)
    ensures SortedBy(Insert(x, s, le), le)
    decreases |s|
  {
    if s != [] && !le(x, s[0]) {
      var rest := Insert(x, s[1..], le);
      InsertSorted(x, s[1..], le);
      assert le(s[0], x);
      forall y | y in rest
        ensures le(s[0], y)
      {
        assert y in multiset(rest);
        if y != x {
          var j :| 0 <= j < |s[1..]| && s[1..][j] == y;
          assert s[j + 1] == y;
        }
      }
      var r := [s[0]] + rest;
      forall i, j | 0 <= i < j < |r|
        ensures le(r[i], r[j])
      {
        if i == 0 {
          assert r[j] == rest[j - 1] && r[j] in rest;
        } else {
          assert r[i] == rest[i - 1] && r[j] == rest[j - 1];
        }
      }
    }
  }

  /** The sort's result is sorted, for a comparator that is a total preorder. */
  lemma {:induction false} SortBySorted<T(!new)>(s: seq<T>, le: (T, T) -> bool)
    requires IsTotalPreorder(le)
    ensures SortedBy(SortBy(s, le), le)
    decreases |s|
  {
    if s != [] {
      SortBySorted(s[1..], le);
      InsertSorted(s[0], SortBy(s[1..], le), le);
    }
  }

  /** No two elements share a key. */
  predicate DistinctKeys<T, K(==)>(s: seq<T>, key: T -> K)
  {
    forall i, j :: 0 <= i < j < |s| ==> key(s[i]) != key(s[j])
  }

  lemma {:induction false} InsertKeepsDistinctKeys<T(!new), K>(x: T, s: seq<T>, le: (T, T) -> bool, key: T -> K)
    requires DistinctKeys(s, key) && forall i :: 0 <= i < |s| ==> key(s[i]) != key(x)
    ensures DistinctKeys(Insert(x, s, le), key)
    decreases |s|
  {
    var r := Insert(x, s, le);
    if s == [] || le(x, s[0]) {
      forall i, j | 0 <= i < j < |r|
        ensures key(r[i]) != key(r[j])
      {
        assert r[j] == s[j - 1];
        if i > 0 {
          assert r[i] == s[i - 1];
        }
      }
    } else {
      var rest := Insert(x, s[1..], le);
      InsertKeepsDistinctKeys(x, s[1..], le, key);
      forall y | y in rest
        ensures key(y) != key(s[0])
      {
        assert y in multiset(rest);
        if y != x {
          var j :| 0 <= j < |s[1..]| && s[1..][j] == y;
          assert s[j + 1] == y;
        }
      }
      forall i, j | 0 <= i < j < |r|
        ensures key(r[i]) != key(r[j])
      {
        if i == 0 {
          assert r[j] == rest[j - 1] && r[j] in rest;
        } else {
          assert r[i] == rest[i - 1] && r[j] == rest[j - 1];
        }
      }
    }
  }

  /** Sorting keeps keys distinct. */
  lemma {:induction false} SortByKeepsDistinctKeys<T(!new), K>(s: seq<T>, le: (T, T) -> bool, key: T -> K)
    requires DistinctKeys(s, key)
    ensures DistinctKeys(SortBy(s, le), key)
    decreases |s|
  {
    if s != [] {
      assert DistinctKeys(s[1..], key) by {
        forall i, j | 0 <= i < j < |s[1..]|
          ensures key(s[1..][i]) != key(s[1..][j])
        {
          assert s[1..][i] == s[i + 1] && s[1..][j] == s[j + 1];
        }
      }
      SortByKeepsDistinctKeys(s[1..], le, key);
      var sorted := SortBy(s[1..], le);
      forall i | 0 <= i < |sorted|
        ensures key(sorted[i]) != key(s[0])
      {
        assert sorted[i] in multiset(s[1..]);
        var j :| 0 <= j < |s[1..]| && s[1..][j] == sorted[i];
        assert s[j + 1] == sorted[i];
      }
      InsertKeepsDistinctKeys(s[0], sorted, le, key);
    }
  }

  // ---- Grouping ----

  /** A row of the map: its label and its seats. */
  type Row = (string, seq<SeatItem>)

  /** `s.rowLabel || '?'`. */
  function RowOf(s: SeatItem): string
  {
    if s.rowLabel == "" then "?" else s.rowLabel
  }

  function InRow(name: string): SeatItem -> bool
  {
    (s: SeatItem) => RowOf(s) == name
  }

  function RowLabel(r: Row): string
  {
    r.0
  }

  /** The position of the row labelled `name`, or the number of rows when there is none. */
  function LabelIndex(rows: seq<Row>, name: string): (k: nat)
    ensures k <= |rows|
    ensures k < |rows| ==> rows[k].0 == name
    ensures forall i :: 0 <= i < k ==> rows[i].0 != name
  {
    if rows == [] || rows[0].0 == name then 0
    else
      var k := 1 + LabelIndex(rows[1..], name);
      assert forall i :: 1 <= i < k ==> rows[i] == rows[1..][i - 1];
      k
  }

  /** One turn of the grouping loop: the seat joins its row, which is created at the end if new. */
  function AddSeat(rows: seq<Row>, s: SeatItem): seq<Row>
  {
    var name := RowOf(s);
    var k := LabelIndex(rows, name);
    if k == |rows| then rows + [(name, [s])] else rows[k := (name, rows[k].1 + [s])]
  }

  /** The `byRow` map after the grouping loop: rows in order of first appearance. */
  function Group(seats: seq<SeatItem>): seq<Row>
  {
    if seats == [] then [] else AddSeat(Group(seats[..|seats| - 1]), seats[|seats| - 1])
  }

  /** What the grouping loop keeps true. */
  ghost predicate GroupedFrom(g: seq<Row>, seats: seq<SeatItem>)
  {
    && DistinctKeys(g, RowLabel)
    && (forall i :: 0 <= i < |g| ==> g[i].1 != [] && g[i].1 == Filter(seats, InRow(g[i].0)))
    && (forall x :: x in seats ==> LabelIndex(g, RowOf(x)) < |g|)
  }

  /**
   * Grouping gives one row per label, no label twice; each row holds exactly the seats with
   * its label, in their original order; and every seat's label has a row.
   */
  lemma {:induction false} GroupSpec(seats: seq<SeatItem>)
    ensures GroupedFrom(Group(seats), seats)
    decreases |seats|
  {
    if seats != [] {
      var pre, x := seats[..|seats| - 1], seats[|seats| - 1];
      assert seats == pre + [x];
      GroupSpec(pre);
      AddSeatSpec(Group(pre), pre, x);
    }
  }

  lemma AddSeatSpec(g: seq<Row>, pre: seq<SeatItem>, x: SeatItem)
    requires GroupedFrom(g, pre)
    ensures GroupedFrom(AddSeat(g, x), pre + [x])
  {
    AddSeatDistinct(g, x);
    AddSeatRows(g, pre, x);
    AddSeatCovers(g, pre, x);
  }

  /** A seat joins the row with its label, or a new row when no row has it. */
  lemma AddSeatDistinct(g: seq<Row>, x: SeatItem)
    requires DistinctKeys(g, RowLabel)
    ensures DistinctKeys(AddSeat(g, x), RowLabel)
  {
    var g' := AddSeat(g, x);
    forall i, j | 0 <= i < j < |g'|
      ensures RowLabel(g'[i]) != RowLabel(g'[j])
    {
      assert g'[i].0 == g[i].0;
      if j < |g| {
        assert g'[j].0 == g[j].0;
      }
    }
  }

  lemma FilterLast(pre: seq<SeatItem>, x: SeatItem, name: string)
    ensures Filter(pre + [x], InRow(name)) == Filter(pre, InRow(name)) + (if RowOf(x) == name then [x] else [])
  {
    FilterAppend(pre, [x], InRow(name));
  }

  lemma AddSeatRows(g: seq<Row>, pre: seq<SeatItem>, x: SeatItem)
    requires forall i :: 0 <= i < |g| ==> g[i].1 != [] && g[i].1 == Filter(pre, InRow(g[i].0))
    requires DistinctKeys(g, RowLabel)
    requires forall y :: y in pre ==> LabelIndex(g, RowOf(y)) < |g|
    ensures var g' := AddSeat(g, x);
      forall i :: 0 <= i < |g'| ==> g'[i].1 != [] && g'[i].1 == Filter(pre + [x], InRow(g'[i].0))
  {
    var g' := AddSeat(g, x);
    forall i | 0 <= i < |g'|
      ensures g'[i].1 != [] && g'[i].1 == Filter(pre + [x], InRow(g'[i].0))
    {
      AddSeatRow(g, pre, x, i);
    }
  }

  /** One row after the seat is added: the seat's own row gains it at the end, others are kept. */
  lemma AddSeatRow(g: seq<Row>, pre: seq<SeatItem>, x: SeatItem, i: int)
    requires forall i :: 0 <= i < |g| ==> g[i].1 != [] && g[i].1 == Filter(pre, InRow(g[i].0))
    requires forall y :: y in pre ==> LabelIndex(g, RowOf(y)) < |g|
    requires DistinctKeys(g, RowLabel)
    requires 0 <= i < |AddSeat(g, x)|
    ensures var r := AddSeat(g, x)[i]; r.1 != [] && r.1 == Filter(pre + [x], InRow(r.0))
  {
    var name := RowOf(x);
    var k := LabelIndex(g, name);
    var r := AddSeat(g, x)[i];
    FilterLast(pre, x, r.0);
    if i == |g| {
      assert k == |g| && r == (name, [x]);
      NewRowIsEmptyBefore(g, pre, name);
    } else if i == k {
      assert r == (name, g[k].1 + [x]) && g[k].0 == name;
    } else {
      if k < |g| {
        assert RowLabel(g[i]) != RowLabel(g[k]);
      }
      assert r == g[i] && r.0 != name;
    }
  }

  /** No earlier seat carries a label that has no row yet. */
  lemma NewRowIsEmptyBefore(g: seq<Row>, pre: seq<SeatItem>, name: string)
    requires forall y :: y in pre ==> LabelIndex(g, RowOf(y)) < |g|
    requires LabelIndex(g, name) == |g|
    ensures Filter(pre, InRow(name)) == []
  {
    forall j | 0 <= j < |pre|
      ensures !InRow(name)(pre[j])
    {
      assert pre[j] in pre;
    }
    FilterKeepsNone(pre, InRow(name));
  }

  lemma AddSeatCovers(g: seq<Row>, pre: seq<SeatItem>, x: SeatItem)
    requires forall y :: y in pre ==> LabelIndex(g, RowOf(y)) < |g|
    ensures var g' := AddSeat(g, x);
      forall y :: y in pre + [x] ==> LabelIndex(g', RowOf(y)) < |g'|
  {
    var k := LabelIndex(g, RowOf(x));
    var g' := AddSeat(g, x);
    forall y | y in pre + [x]
      ensures LabelIndex(g', RowOf(y)) < |g'|
    {
      if y != x {
        assert y in pre;
        var j := LabelIndex(g, RowOf(y));
        assert g'[j].0 == RowOf(y);
      } else {
        assert g'[k].0 == RowOf(x);
      }
    }
  }

  /** Seats in ascending seat number. */
  function SeatNoLe(a: SeatItem, b: SeatItem): bool
  {
    a.seatNo <= b.seatNo
  }

  /** `arr.sort((a, b) => a.seatNo - b.seatNo)` on one row. */
  function SortRow(r: Row): Row
  {
    (r.0, SortBy(r.1, SeatNoLe))
  }

  /** Rows compared by their labels. */
  function LabelOrder(labelLe: (string, string) -> bool): (Row, Row) -> bool
  {
    (a: Row, b: Row) => labelLe(a.0, b.0)
  }

  /** What `groupSeatsByRow` returns, for the row-label comparison `labelLe`. */
  function RowsOf(seats: seq<SeatItem>, labelLe: (string, string) -> bool): seq<Row>
  {
    SortBy(Map(Group(seats), SortRow), LabelOrder(labelLe))
  }

  /** `groupSeatsByRow`. */
  method GroupSeatsByRow(seats: seq<SeatItem>, labelLe: (string, string) -> bool) returns (rows: seq<Row>)
    ensures rows == RowsOf(seats, labelLe)
  {
    var byRow: seq<Row> := [];
    for i := 0 to |seats|
      invariant byRow == Group(seats[..i])
    {
      var s := seats[i];
      ghost var before := byRow;
      var row := RowOf(s);
      var k := LabelIndex(byRow, row);
      if k == |byRow| {
        byRow := byRow + [(row, [])];
        assert byRow[k].1 + [s] == [s];
      }
      byRow := byRow[k := (row, byRow[k].1 + [s])];
      assert byRow == AddSeat(before, s);
      assert seats[..i + 1][..i] == seats[..i];
    }
    assert seats[..|seats|] == seats;
    ghost var grouped := byRow;
    for k := 0 to |byRow|
      invariant |byRow| == |grouped|
      invariant forall j :: 0 <= j < k ==> byRow[j] == SortRow(grouped[j])
      invariant forall j :: k <= j < |byRow| ==> byRow[j] == grouped[j]
    {
      byRow := byRow[k := (byRow[k].0, SortBy(byRow[k].1, SeatNoLe))];
    }
    assert byRow == Map(grouped, SortRow);
    rows := SortBy(byRow, LabelOrder(labelLe));
  }

  lemma SeatNoLeIsTotalPreorder()
    ensures IsTotalPreorder(SeatNoLe)
  {
  }

  lemma LabelOrderIsTotalPreorder(labelLe: (string, string) -> bool)
    requires IsTotalPreorder(labelLe)
    ensures IsTotalPreorder(LabelOrder(labelLe))
  {
    var le := LabelOrder(labelLe);
    forall a: Row, b: Row
      ensures le(a, b) || le(b, a)
    {
      assert labelLe(a.0, b.0) || labelLe(b.0, a.0);
    }
    forall a: Row, b: Row, c: Row | le(a, b) && le(b, c)
      ensures le(a, c)
    {
      assert labelLe(a.0, b.0) && labelLe(b.0, c.0);
    }
  }

  /** Every element of the sorted list comes from the input. */
  lemma SortedFrom<T>(s: seq<T>, le: (T, T) -> bool, i: int) returns (k: nat)
    requires 0 <= i < |SortBy(s, le)|
    ensures k < |s| && s[k] == SortBy(s, le)[i]
  {
    var r := SortBy(s, le);
    assert r[i] in multiset(s);
    k :| k < |s| && s[k] == r[i];
  }

  /** Every element of the input is in the sorted list. */
  lemma SortedTo<T>(s: seq<T>, le: (T, T) -> bool, k: int) returns (i: nat)
    requires 0 <= k < |s|
    ensures i < |SortBy(s, le)| && SortBy(s, le)[i] == s[k]
  {
    var r := SortBy(s, le);
    assert s[k] in multiset(r);
    i :| i < |r| && r[i] == s[k];
  }

  /** The rows come in label order, no label twice. */
  lemma RowsOrdered(seats: seq<SeatItem>, labelLe: (string, string) -> bool)
    requires IsTotalPreorder(labelLe)
    ensures var rows := RowsOf(seats, labelLe);
      forall i, j :: 0 <= i < j < |rows| ==> labelLe(rows[i].0, rows[j].0) && rows[i].0 != rows[j].0
  {
    var g := Group(seats);
    var mapped := Map(g, SortRow);
    var rows := RowsOf(seats, labelLe);
    GroupSpec(seats);
    LabelOrderIsTotalPreorder(labelLe);
    SortBySorted(mapped, LabelOrder(labelLe));
    assert DistinctKeys(mapped, RowLabel) by {
      forall i, j | 0 <= i < j < |mapped|
        ensures RowLabel(mapped[i]) != RowLabel(mapped[j])
      {
        assert RowLabel(g[i]) != RowLabel(g[j]);
      }
    }
    SortByKeepsDistinctKeys(mapped, LabelOrder(labelLe), RowLabel);
    forall i, j | 0 <= i < j < |rows|
      ensures labelLe(rows[i].0, rows[j].0) && rows[i].0 != rows[j].0
    {
      assert LabelOrder(labelLe)(rows[i], rows[j]);
      assert RowLabel(rows[i]) != RowLabel(rows[j]);
    }
  }

  /** Each row is non-empty, in seat-number order, and holds exactly the seats with its label. */
  lemma RowContents(seats: seq<SeatItem>, labelLe: (string, string) -> bool, i: int)
    requires 0 <= i < |RowsOf(seats, labelLe)|
    ensures var row := RowsOf(seats, labelLe)[i];
      row.1 != [] && SortedBy(row.1, SeatNoLe) && multiset(row.1) == multiset(Filter(seats, InRow(row.0)))
  {
    var g := Group(seats);
    var row := RowsOf(seats, labelLe)[i];
    var k := SortedFrom(Map(g, SortRow), LabelOrder(labelLe), i);
    assert row == SortRow(g[k]);
    GroupSpec(seats);
    SeatNoLeIsTotalPreorder();
    SortBySorted(g[k].1, SeatNoLe);
    assert g[k].1[0] in multiset(row.1);
  }

  /** Every seat's label has a row. */
  lemma RowsCover(seats: seq<SeatItem>, labelLe: (string, string) -> bool, x: SeatItem) returns (i: nat)
    requires x in seats
    ensures i < |RowsOf(seats, labelLe)| && RowsOf(seats, labelLe)[i].0 == RowOf(x)
  {
    var g := Group(seats);
    GroupSpec(seats);
    var k := LabelIndex(g, RowOf(x));
    i := SortedTo(Map(g, SortRow), LabelOrder(labelLe), k);
  }

  /**
   * `groupSeatsByRow`, for a row comparison that is a total preorder: the rows are in label
   * order with no label twice; each row is non-empty, in ascending seat number, and holds
   * exactly the seats with its label (none lost, none added); every seat's label has a row.
   */
  lemma GroupSeatsByRowSpec(seats: seq<SeatItem>, labelLe: (string, string) -> bool)
    requires IsTotalPreorder(labelLe)
    ensures var rows := RowsOf(seats, labelLe);
      && (forall i, j :: 0 <= i < j < |rows| ==> labelLe(rows[i].0, rows[j].0) && rows[i].0 != rows[j].0)
      && (forall i :: 0 <= i < |rows| ==>
            rows[i].1 != [] && SortedBy(rows[i].1, SeatNoLe)
            && multiset(rows[i].1) == multiset(Filter(seats, InRow(rows[i].0))))
      && (forall x :: x in seats ==> exists i :: 0 <= i < |rows| && rows[i].0 == RowOf(x))
  {
    var rows := RowsOf(seats, labelLe);
    RowsOrdered(seats, labelLe);
    forall i | 0 <= i < |rows|
      ensures rows[i].1 != [] && SortedBy(rows[i].1, SeatNoLe)
              && multiset(rows[i].1) == multiset(Filter(seats, InRow(rows[i].0)))
    {
      RowContents(seats, labelLe, i);
    }
    forall x | x in seats
      ensures exists i :: 0 <= i < |rows| && rows[i].0 == RowOf(x)
    {
      var i := RowsCover(seats, labelLe, x);
    }
  }

  // ---- Size of the drawing ----

  /** The length of the longest row, 0 for no rows. */
  function MaxRowLength(rows: seq<Row>): (m: nat)
    ensures forall i :: 0 <= i < |rows| ==> |rows[i].1| <= m
    ensures m == 0 || exists i :: 0 <= i < |rows| && |rows[i].1| == m
  {
    if rows == [] then 0
    else
      var m := MaxRowLength(rows[1..]);
      assert forall i :: 1 <= i < |rows| ==> rows[i] == rows[1..][i - 1];
      if |rows[0].1| >= m then |rows[0].1| else m
  }

  /** `Math.max(1, ...rows.map(([, arr]) => arr.length))`. */
  function Columns(rows: seq<Row>): nat
  {
    if MaxRowLength(rows) < 1 then 1 else MaxRowLength(rows)
  }

  function Width(rows: seq<Row>): int
  {
    Columns(rows) * (CellWidth + Gap) - Gap + 80
  }

  function Height(rows: seq<Row>): int
  {
    |rows| * (CellHeight + Gap) - Gap + 48
  }

  /** The left edge of the seat in column `ci`. */
  function SeatX(ci: int): int
  {
    40 + ci * (CellWidth + Gap)
  }

  /** The top edge of the seats in row `ri`. */
  function SeatY(ri: int): int
  {
    24 + ri * (CellHeight + Gap)
  }

  /**
   * The seat in row `ri`, column `ci` lies inside the drawing, with 40 pixels to spare on the
   * right and 24 at the bottom.
   */
  lemma SeatInsideDrawing(rows: seq<Row>, ri: int, ci: int)
    requires 0 <= ri < |rows| && 0 <= ci < |rows[ri].1|
    ensures 0 <= SeatX(ci) && SeatX(ci) + CellWidth + 40 <= Width(rows)
    ensures 0 <= SeatY(ri) && SeatY(ri) + CellHeight + 24 <= Height(rows)
  {
    assert |rows[ri].1| <= MaxRowLength(rows) <= Columns(rows);
    assert SeatX(ci) == 40 + ci * 62 && Width(rows) == Columns(rows) * 62 + 74;
    assert SeatY(ri) == 24 + ri * 54 && Height(rows) == |rows| * 54 + 42;
  }

  /**
   * The drawing is never narrower than one seat, and no larger than the seats need: the
   * margins are exact for the last seat of the longest row and for the last row.
   */
  lemma DrawingIsTight(rows: seq<Row>)
    ensures Width(rows) >= CellWidth + 80
    ensures MaxRowLength(rows) > 0 ==>
              exists ri :: 0 <= ri < |rows| && SeatX(|rows[ri].1| - 1) + CellWidth + 40 == Width(rows)
    ensures rows != [] ==> SeatY(|rows| - 1) + CellHeight + 24 == Height(rows)
  {
    if MaxRowLength(rows) > 0 {
      var ri :| 0 <= ri < |rows| && |rows[ri].1| == MaxRowLength(rows);
      assert SeatX(|rows[ri].1| - 1) + CellWidth + 40 == Width(rows);
    }
  }
}
