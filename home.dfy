/**
 * The home page queries (domain/home/service/HomeService.java): the summary counts, and the
 * movies showing soon, one per movie, collected through an insertion-ordered map.
 */
module Home {
  import opened JoinedRows

  /** `HomeStatsResponse`. */
  datatype HomeStats = HomeStats(theaterCount: nat, screenCount: nat, todayScreeningCount: nat)

  /** `getStats`: the two table counts and the number of screenings the window query returned. */
  function GetStats(theaterCount: nat, screenCount: nat, todayScreenings: seq<ScreeningRow>): HomeStats
  {
    HomeStats(theaterCount, screenCount, |todayScreenings|)
  }

  /**
   * `getUpcomingMovies`: `screenings` is what the window query returned. The loop fills a
   * `LinkedHashMap` with `putIfAbsent(movieId, item)`; `values` is that map's value list
   * in insertion order, which the method returns.
   */
  method GetUpcomingMovies(screenings: seq<ScreeningRow>) returns (items: seq<MovieInfo>)
    ensures items == FirstMovies(screenings)
    ensures MovieIdsDistinct(items)
    ensures forall k :: 0 <= k < |screenings| ==> HasMovie(items, screenings[k].movie.id)
    ensures FirstOfEach(screenings, items)
  {
    var byMovie: map<nat, MovieInfo> := map[];
    var values: seq<MovieInfo> := [];
    var i := 0;
    while i < |screenings|
      invariant 0 <= i <= |screenings|
      invariant values == FirstMovies(screenings[..i])
      invariant forall id :: id in byMovie <==> HasMovie(values, id)
      invariant forall j :: 0 <= j < |values| ==> values[j].id in byMovie && byMovie[values[j].id] == values[j]
    {
      var m := screenings[i].movie;
      assert screenings[..i + 1][..i] == screenings[..i];
      if m.id !in byMovie {
        HasMovieAppend(values, m);
        byMovie := byMovie[m.id := m];
        values := values + [m];
      }
      i := i + 1;
    }
    assert screenings[..i] == screenings;
    items := values;
    FirstMoviesDistinct(screenings);
    FirstMoviesComplete(screenings);
    FirstMoviesInFirstOrder(screenings);
  }
}
