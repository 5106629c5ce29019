/**
 * Admin screening schedule (domain/admin/service/AdminScreeningService.java): create,
 * update and delete screenings while no two live screenings on one screen overlap.
 * The screening table is a sequence of rows in table order; the movie and screen
 * tables are read-only lookups.
 */
module AdminScreenings {
  import opened Common
  import opened Seqs
  import opened Screenings
  import opened ScreeningQueries

  /** `ScreeningCreateRequest` / `ScreeningUpdateRequest`. */
  datatype ScreeningRequest = ScreeningRequest(movieId: nat, screenId: nat, startTime: int)

  /** The lookups the service makes: running time in minutes per movie id, and the screen ids. */
  datatype Catalog = Catalog(runningTimes: map<nat, int>, screens: set<nat>)

  /** Screening ids are unique in the table. */
  predicate IdsUnique(rows: seq<ScreeningInfo>)
  {
    forall i, j :: 0 <= i < j < |rows| ==> rows[i].id != rows[j].id
  }

  /** Two live (not CANCELLED) screenings on one screen never share an instant. */
  predicate NoConflicts(rows: seq<ScreeningInfo>)
  {
    forall i, j :: 0 <= i < |rows| && 0 <= j < |rows| && i != j ==> !Clash(rows[i], rows[j])
  }

  predicate Clash(a: ScreeningInfo, b: ScreeningInfo)
  {
    a.screenId == b.screenId && a.status != CANCELLED && b.status != CANCELLED
    && IntervalsOverlap(a.startTime, a.endTime, b.startTime, b.endTime)
  }

  /** The end time the service stores: start plus the movie's running time in minutes. */
  function EndTime(cat: Catalog, req: ScreeningRequest): int
    requires req.movieId in cat.runningTimes
  {
    PlusMinutes(req.startTime, cat.runningTimes[req.movieId])
  }

  /** `createScreening`: the result and the new table; `newId` is the key the database assigns. */
  function CreateStep(rows: seq<ScreeningInfo>, cat: Catalog, req: ScreeningRequest, newId: nat): (Result<nat>, seq<ScreeningInfo>)
  {
    if req.movieId !in cat.runningTimes then (Err(MOVIE_NOT_FOUND), rows)
    else if req.screenId !in cat.screens then (Err(SCREEN_NOT_FOUND), rows)
    else
      var endTime := EndTime(cat, req);
      if FindOverlapping(rows, req.screenId, req.startTime, endTime) != [] then (Err(SCREENING_TIME_OVERLAP), rows)
      else (Ok(newId), rows + [ScreeningInfo(newId, req.movieId, req.screenId, req.startTime, endTime, SCHEDULED)])
  }

  /** The overlap check of `updateScreening`: the overlapping rows other than the screening itself. */
  function OtherOverlapping(rows: seq<ScreeningInfo>, screeningId: nat, screenId: nat, startTime: int, endTime: int): seq<ScreeningInfo>
  {
    Filter(FindOverlapping(rows, screenId, startTime, endTime), (s: ScreeningInfo) => s.id != screeningId)
  }

  /** `updateScreening`: the outcome and the new table. */
  function UpdateStep(rows: seq<ScreeningInfo>, cat: Catalog, screeningId: nat, req: ScreeningRequest): (Outcome, seq<ScreeningInfo>)
  {
    var k := IndexOfId(rows, screeningId);
    if k == |rows| then (Fail(SCREENING_NOT_FOUND), rows)
    else if req.movieId !in cat.runningTimes then (Fail(MOVIE_NOT_FOUND), rows)
    else if req.screenId !in cat.screens then (Fail(SCREEN_NOT_FOUND), rows)
    else
      var endTime := EndTime(cat, req);
      if OtherOverlapping(rows, screeningId, req.screenId, req.startTime, endTime) != [] then
        (Fail(SCREENING_TIME_OVERLAP), rows)
      else
        (Pass, rows[k := rows[k].(movieId := req.movieId, screenId := req.screenId, startTime := req.startTime, endTime := endTime)])
  }

  /** `deleteScreening`: the outcome and the new table. */
  function DeleteStep(rows: seq<ScreeningInfo>, screeningId: nat): (Outcome, seq<ScreeningInfo>)
  {
    var k := IndexOfId(rows, screeningId);
    if k == |rows| then (Fail(SCREENING_NOT_FOUND), rows)
    else (Pass, rows[..k] + rows[k + 1..])
  }

  /** Create fails on the first missing reference, then on any overlap; otherwise it appends one
    * SCHEDULED row whose end is the start plus the running time. */
  lemma CreateSpec(rows: seq<ScreeningInfo>, cat: Catalog, req: ScreeningRequest, newId: nat)
    ensures var (r, rows') := CreateStep(rows, cat, req, newId);
      && (req.movieId !in cat.runningTimes ==> r == Err(MOVIE_NOT_FOUND))
      && (req.movieId in cat.runningTimes && req.screenId !in cat.screens ==> r == Err(SCREEN_NOT_FOUND))
      && (r.Ok? <==> req.movieId in cat.runningTimes && req.screenId in cat.screens
                     && forall s :: s in rows ==> !OverlapsRequest(s, req.screenId, req.startTime, EndTime(cat, req)))
      && (r.Err? ==> rows' == rows)
      && (r.Ok? ==> r.value == newId && rows' == rows + [ScreeningInfo(newId, req.movieId, req.screenId, req.startTime,
                                                                      req.startTime + cat.runningTimes[req.movieId] * 60000, SCHEDULED)])
  {
    var (r, rows') := CreateStep(rows, cat, req, newId);
    if req.movieId in cat.runningTimes && req.screenId in cat.screens {
      var o := FindOverlapping(rows, req.screenId, req.startTime, EndTime(cat, req));
      if o != [] {
        assert o[0] in o;
      }
    }
  }

  /** A created screening keeps the table free of clashes, and a fresh id keeps ids unique. */
  lemma CreatePreservesInvariants(rows: seq<ScreeningInfo>, cat: Catalog, req: ScreeningRequest, newId: nat)
    requires NoConflicts(rows) && IdsUnique(rows)
    requires forall s :: s in rows ==> s.id != newId
    ensures NoConflicts(CreateStep(rows, cat, req, newId).1)
    ensures IdsUnique(CreateStep(rows, cat, req, newId).1)
  {
    var (r, rows') := CreateStep(rows, cat, req, newId);
    if r.Ok? {
      var n := rows'[|rows|];
      forall i | 0 <= i < |rows|
        ensures !Clash(rows'[i], n) && !Clash(n, rows'[i])
      {
        assert rows'[i] == rows[i];
        assert !OverlapsRequest(rows[i], req.screenId, req.startTime, n.endTime);
      }
    }
  }

  /** Update fails on a missing screening, movie or screen in that order, then on an overlap
    * with any other screening; otherwise it rewrites that one row and keeps its id and status. */
  lemma UpdateSpec(rows: seq<ScreeningInfo>, cat: Catalog, screeningId: nat, req: ScreeningRequest)
    ensures var (r, rows') := UpdateStep(rows, cat, screeningId, req);
      && ((forall s :: s in rows ==> s.id != screeningId) ==> r == Fail(SCREENING_NOT_FOUND))
      && ((exists s :: s in rows && s.id == screeningId) && req.movieId !in cat.runningTimes ==> r == Fail(MOVIE_NOT_FOUND))
      && (((exists s :: s in rows && s.id == screeningId) && req.movieId in cat.runningTimes && req.screenId !in cat.screens)
          ==> r == Fail(SCREEN_NOT_FOUND))
      && (r == Pass <==> (exists s :: s in rows && s.id == screeningId)
                         && req.movieId in cat.runningTimes && req.screenId in cat.screens
                         && forall s :: s in rows && s.id != screeningId ==> !OverlapsRequest(s, req.screenId, req.startTime, EndTime(cat, req)))
      && (r.Fail? ==> rows' == rows)
      && (r == Pass ==> (
            && |rows'| == |rows|
            && forall i :: 0 <= i < |rows| ==>
                 if rows[i].id == screeningId && (forall j :: 0 <= j < i ==> rows[j].id != screeningId)
                 then rows'[i] == ScreeningInfo(screeningId, req.movieId, req.screenId, req.startTime, EndTime(cat, req), rows[i].status)
                 else rows'[i] == rows[i]))
  {
    var (r, rows') := UpdateStep(rows, cat, screeningId, req);
    var k := IndexOfId(rows, screeningId);
    if k < |rows| && req.movieId in cat.runningTimes && req.screenId in cat.screens {
      var o := OtherOverlapping(rows, screeningId, req.screenId, req.startTime, EndTime(cat, req));
      if o != [] {
        assert o[0] in o;
      }
    }
  }

  /** An update keeps the table free of clashes and keeps ids unique. */
  lemma UpdatePreservesInvariants(rows: seq<ScreeningInfo>, cat: Catalog, screeningId: nat, req: ScreeningRequest)
    requires NoConflicts(rows) && IdsUnique(rows)
    ensures NoConflicts(UpdateStep(rows, cat, screeningId, req).1)
    ensures IdsUnique(UpdateStep(rows, cat, screeningId, req).1)
  {
    var (r, rows') := UpdateStep(rows, cat, screeningId, req);
    if r == Pass {
      var k := IndexOfId(rows, screeningId);
      var n := rows'[k];
      forall i | 0 <= i < |rows| && i != k
        ensures !Clash(rows'[i], n) && !Clash(n, rows'[i])
      {
        assert rows'[i] == rows[i] && rows[i].id != screeningId;
      }
    }
  }

  /** Saving a live screening with its own current movie, screen and times succeeds and changes
    * nothing: the overlap check leaves the screening itself out. */
  lemma UpdateWithSameTimesSucceeds(rows: seq<ScreeningInfo>, cat: Catalog, k: nat)
    requires NoConflicts(rows) && IdsUnique(rows)
    requires k < |rows| && rows[k].status != CANCELLED
    requires rows[k].movieId in cat.runningTimes && rows[k].screenId in cat.screens
    requires rows[k].endTime == PlusMinutes(rows[k].startTime, cat.runningTimes[rows[k].movieId])
    ensures UpdateStep(rows, cat, rows[k].id, ScreeningRequest(rows[k].movieId, rows[k].screenId, rows[k].startTime))
            == (Pass, rows)
  {
    var s := rows[k];
    var req := ScreeningRequest(s.movieId, s.screenId, s.startTime);
    assert IndexOfId(rows, s.id) == k;
    var o := OtherOverlapping(rows, s.id, s.screenId, s.startTime, s.endTime);
    if o != [] {
      var x := o[0];
      assert x in o;
      var i :| 0 <= i < |rows| && rows[i] == x;
      assert i != k && Clash(rows[i], rows[k]);
    }
    assert rows[k := s] == rows;
  }

  /** Delete fails for an unknown id; otherwise, with unique ids, it keeps exactly the other rows
    * in their order. */
  lemma DeleteSpec(rows: seq<ScreeningInfo>, screeningId: nat)
    requires IdsUnique(rows)
    ensures var (r, rows') := DeleteStep(rows, screeningId);
      && (r == Pass <==> exists s :: s in rows && s.id == screeningId)
      && (r.Fail? ==> r.error == SCREENING_NOT_FOUND && rows' == rows)
      && (r == Pass ==> rows' == Filter(rows, (s: ScreeningInfo) => s.id != screeningId) && |rows'| == |rows| - 1)
  {
    var k := IndexOfId(rows, screeningId);
    if k < |rows| {
      var p := (s: ScreeningInfo) => s.id != screeningId;
      FilterDropsOne(rows, k, p);
    }
  }

  /** Deleting a row keeps the table free of clashes and keeps ids unique. */
  lemma DeletePreservesInvariants(rows: seq<ScreeningInfo>, screeningId: nat)
    requires NoConflicts(rows) && IdsUnique(rows)
    ensures NoConflicts(DeleteStep(rows, screeningId).1)
    ensures IdsUnique(DeleteStep(rows, screeningId).1)
  {
    var k := IndexOfId(rows, screeningId);
    if k < |rows| {
      var rows' := rows[..k] + rows[k + 1..];
      assert forall i :: 0 <= i < |rows'| ==> rows'[i] == rows[if i < k then i else i + 1];
    }
  }

  /** The service over its table: `rows` is the screening table, `nextId` the next database key. */
  class AdminScreeningService {
    var rows: seq<ScreeningInfo>
    var nextId: nat
    const catalog: Catalog

    predicate Valid()
      reads this
    {
      IdsUnique(rows) && NoConflicts(rows) && forall s :: s in rows ==> s.id < nextId
    }

    constructor (catalog: Catalog)
      ensures Valid() && rows == [] && this.catalog == catalog
    {
      this.catalog := catalog;
      rows := [];
      nextId := 1;
    }

    /** `createScreening(request)`: the new id, or the first failing check. */
    method CreateScreening(req: ScreeningRequest) returns (r: Result<nat>)
      requires Valid()
      modifies this
      ensures Valid()
      ensures (r, rows) == CreateStep(old(rows), catalog, req, old(nextId))
    {
      if req.movieId !in catalog.runningTimes {
        return Err(MOVIE_NOT_FOUND);
      }
      if req.screenId !in catalog.screens {
        return Err(SCREEN_NOT_FOUND);
      }
      var runningTime := catalog.runningTimes[req.movieId];
      var endTime := PlusMinutes(req.startTime, runningTime);
      var overlapping := FindOverlapping(rows, req.screenId, req.startTime, endTime);
      if overlapping != [] {
        return Err(SCREENING_TIME_OVERLAP);
      }
      CreatePreservesInvariants(rows, catalog, req, nextId);
      rows := rows + [ScreeningInfo(nextId, req.movieId, req.screenId, req.startTime, endTime, SCHEDULED)];
      r := Ok(nextId);
      nextId := nextId + 1;
    }

    /** `updateScreening(screeningId, request)`. */
    method UpdateScreening(screeningId: nat, req: ScreeningRequest) returns (outcome: Outcome)
      requires Valid()
      modifies this`rows
      ensures Valid()
      ensures (outcome, rows) == UpdateStep(old(rows), catalog, screeningId, req)
    {
      var k := IndexOfId(rows, screeningId);
      if k == |rows| {
        return Fail(SCREENING_NOT_FOUND);
      }
      if req.movieId !in catalog.runningTimes {
        return Fail(MOVIE_NOT_FOUND);
      }
      if req.screenId !in catalog.screens {
        return Fail(SCREEN_NOT_FOUND);
      }
      var endTime := PlusMinutes(req.startTime, catalog.runningTimes[req.movieId]);
      var overlapping := FindOverlapping(rows, req.screenId, req.startTime, endTime);
      overlapping := Filter(overlapping, (s: ScreeningInfo) => s.id != screeningId);
      if overlapping != [] {
        return Fail(SCREENING_TIME_OVERLAP);
      }
      UpdatePreservesInvariants(rows, catalog, screeningId, req);
      rows := rows[k := rows[k].(movieId := req.movieId, screenId := req.screenId, startTime := req.startTime, endTime := endTime)];
      outcome := Pass;
    }

    /** `deleteScreening(screeningId)`. */
    method DeleteScreening(screeningId: nat) returns (outcome: Outcome)
      requires Valid()
      modifies this`rows
      ensures Valid()
      ensures (outcome, rows) == DeleteStep(old(rows), screeningId)
    {
      var k := IndexOfId(rows, screeningId);
      if k == |rows| {
        return Fail(SCREENING_NOT_FOUND);
      }
      DeletePreservesInvariants(rows, screeningId);
      rows := rows[..k] + rows[k + 1..];
      outcome := Pass;
    }

    /** `getScreening(screeningId)`. */
    method GetScreening(screeningId: nat) returns (r: Result<ScreeningInfo>)
      ensures r.Ok? <==> exists s :: s in rows && s.id == screeningId
      ensures r.Ok? ==> r.value in rows && r.value.id == screeningId
      ensures r.Err? ==> r.error == SCREENING_NOT_FOUND
    {
      var found := FindById(rows, screeningId);
      if found.None? {
        return Err(SCREENING_NOT_FOUND);
      }
      r := Ok(found.value);
    }

    /** `getScreeningsByMovie(movieId)`: that movie's screenings in table order. */
    method GetScreeningsByMovie(movieId: nat) returns (r: seq<ScreeningInfo>)
      ensures SubsequenceOf(r, rows)
      ensures forall s :: s in r <==> s in rows && s.movieId == movieId
    {
      r := Filter(rows, (s: ScreeningInfo) => s.movieId == movieId);
      FilterIsSubsequence(rows, (s: ScreeningInfo) => s.movieId == movieId);
    }

    /** `getScreeningsByScreen(screenId)`: that screen's screenings in table order. */
    method GetScreeningsByScreen(screenId: nat) returns (r: seq<ScreeningInfo>)
      ensures SubsequenceOf(r, rows)
      ensures forall s :: s in r <==> s in rows && s.screenId == screenId
    {
      r := Filter(rows, (s: ScreeningInfo) => s.screenId == screenId);
      FilterIsSubsequence(rows, (s: ScreeningInfo) => s.screenId == screenId);
    }
  }
}
