/** src/api/movies.py: one movie with the five characters that speak most
    in it, and the filtered, sorted, paginated movie listing. */
module Movies {
  import opened Outcomes
  import opened Sequences
  import opened Text
  import opened Sorting
  import opened Store
  import opened Grouping

  // ---------------------------------------------------------------------
  // GET /movies/{movie_id}

  /** An entry of `top_characters`. */
  datatype CastRow = CastRow(characterId: string, character: string, numLines: int)
  datatype MovieDetail = MovieDetail(movieId: string, title: string, topCharacters: seq<CastRow>)

  /** How many characters `get_movie` reports. */
  const TopCount := 5

  /** A line of the movie is counted for its speaker; other lines are
      passed over. */
  function MovieSpeaker(movieId: string): Line -> Option<string> {
    (l: Line) => if l.movieId == movieId then Some(l.characterId) else None
  }

  /** The lines a character speaks in a movie. */
  function SpeaksIn(movieId: string, characterId: string): Line -> bool {
    (l: Line) => l.movieId == movieId && l.characterId == characterId
  }

  function LinesIn(lines: seq<Line>, movieId: string, characterId: string): nat {
    Count(lines, SpeaksIn(movieId, characterId))
  }

  /** The `line_counts` dict of the first loop: its keys in insertion
      order, and the counts. */
  function MovieTally(lines: seq<Line>, movieId: string): (seq<string>, map<string, nat>) {
    OrderedTally(lines, MovieSpeaker(movieId))
  }

  /** The dict lists, in the order of their first line, exactly the
      characters that speak in the movie, each once, with the number of
      lines they speak in it. */
  lemma MovieTallySpec(lines: seq<Line>, movieId: string)
    ensures var (order, counts) := MovieTally(lines, movieId);
            && Distinct(order)
            && (forall k :: k in counts <==> k in order)
            && (forall k :: k in order <==> LinesIn(lines, movieId, k) > 0)
            && (forall k :: k in counts ==> counts[k] == LinesIn(lines, movieId, k))
  {
    OrderedTallySpec(lines, MovieSpeaker(movieId));
    forall k ensures Count(lines, HasKey(MovieSpeaker(movieId), k)) == LinesIn(lines, movieId, k)
                  && (k in Keys(lines, MovieSpeaker(movieId)) <==> LinesIn(lines, movieId, k) > 0)
    {
      forall x | x in lines ensures HasKey(MovieSpeaker(movieId), k)(x) == SpeaksIn(movieId, k)(x) {
        assert HasKey(MovieSpeaker(movieId), k)(x) == (MovieSpeaker(movieId)(x) == Some(k));
      }
      FilterCongruent(lines, HasKey(MovieSpeaker(movieId), k), SpeaksIn(movieId, k));
      KeysHaveRecords(lines, MovieSpeaker(movieId), k);
    }
  }

  /** One pass of the loop over the dict: the lookup of a character that
      is not stored raises. */
  function CastStep(c: Corpus, counts: map<string, nat>): string -> Step<CastRow> {
    (id: string) =>
      match Find(c.characters, CharacterKey, id)
      case None => Crash
      case Some(ch) => if id in counts then Keep(CastRow(id, ch.name, counts[id])) else Crash
  }

  /** The cast rows before sorting, in the order of each character's first
      line in the movie. */
  function CastRows(c: Corpus, movieId: string): Option<seq<CastRow>> {
    var (order, counts) := MovieTally(c.lines, movieId);
    Collect(order, CastStep(c, counts))
  }

  function NumLines(r: CastRow): int {
    r.numLines
  }

  /** The cast rows, most lines first, ties in first-line order. */
  function RankedCast(rows: seq<CastRow>): (r: seq<CastRow>)
    ensures multiset(r) == multiset(rows)
  {
    SortBy(rows, NumLines, Greater)
  }

  /** What `get_movie(movie_id)` answers for a snapshot of the store. */
  function MovieView(c: Corpus, movieId: string): (r: Result<MovieDetail>)
    ensures r == Err(NotFound) <==> Find(c.movies, MovieKey, movieId).None?
    ensures r.Ok? ==> r.value.movieId == movieId && |r.value.topCharacters| <= TopCount
  {
    match Find(c.movies, MovieKey, movieId)
    case None => Err(NotFound)
    case Some(movie) =>
      match CastRows(c, movieId)
      case None => Err(InternalError)
      case Some(rows) => Ok(MovieDetail(movieId, movie.title, Slice(RankedCast(rows), 0, TopCount)))
  }

  /** Without a raise, there is one row per character that speaks in the
      movie, in the order of its first line there, with its stored name and
      its number of lines in the movie. */
  lemma CastRowsSpec(c: Corpus, movieId: string)
    requires CastRows(c, movieId).Some?
    ensures var rows, order := CastRows(c, movieId).value, MovieTally(c.lines, movieId).0;
            && |rows| == |order|
            && forall j :: 0 <= j < |rows| ==>
                 && Find(c.characters, CharacterKey, order[j]).Some?
                 && rows[j] == CastRow(order[j], Find(c.characters, CharacterKey, order[j]).value.name,
                                       LinesIn(c.lines, movieId, order[j]))
  {
    var (order, counts) := MovieTally(c.lines, movieId);
    var step := CastStep(c, counts);
    MovieTallySpec(c.lines, movieId);
    CollectSpec(order, step);
    FilterAll(order, IsKept(step));
  }

  /** The listing raises exactly when a character that speaks in the
      movie is not stored. */
  lemma CastRowsCrash(c: Corpus, movieId: string)
    ensures CastRows(c, movieId).None? <==>
            exists l :: l in c.lines && l.movieId == movieId && Find(c.characters, CharacterKey, l.characterId).None?
  {
    var (order, counts) := MovieTally(c.lines, movieId);
    var step := CastStep(c, counts);
    MovieTallySpec(c.lines, movieId);
    CollectCrash(order, step);
    if i :| 0 <= i < |order| && step(order[i]).Crash? {
      var k := order[i];
      assert LinesIn(c.lines, movieId, k) > 0;
      FilterSpec(c.lines, SpeaksIn(movieId, k));
      var l := Filter(c.lines, SpeaksIn(movieId, k))[0];
      assert l in c.lines && SpeaksIn(movieId, k)(l);
    }
    if l :| l in c.lines && l.movieId == movieId && Find(c.characters, CharacterKey, l.characterId).None? {
      assert SpeaksIn(movieId, l.characterId)(l);
      CountPositive(c.lines, SpeaksIn(movieId, l.characterId), l);
      assert l.characterId in order;
      var i :| 0 <= i < |order| && order[i] == l.characterId;
      assert step(order[i]).Crash?;
    }
  }

  /** The full ranking has every character that speaks in the movie, each
      once, with its stored name and at least one line, listed by number
      of lines, most first, ties in first-line order. */
  lemma RankedCastSpec(c: Corpus, movieId: string)
    requires CastRows(c, movieId).Some?
    ensures var ranked := RankedCast(CastRows(c, movieId).value);
            && SortedBy(ranked, NumLines, Greater)
            && StableFor(ranked, CastRows(c, movieId).value, NumLines)
            && DistinctBy(ranked, (r: CastRow) => r.characterId)
            && (forall j :: 0 <= j < |ranked| ==>
                  && Find(c.characters, CharacterKey, ranked[j].characterId).Some?
                  && ranked[j].character == Find(c.characters, CharacterKey, ranked[j].characterId).value.name
                  && ranked[j].numLines == LinesIn(c.lines, movieId, ranked[j].characterId)
                  && ranked[j].numLines >= 1)
  {
    var rows := CastRows(c, movieId).value;
    var order := MovieTally(c.lines, movieId).0;
    var ranked := RankedCast(rows);
    CastRowsSpec(c, movieId);
    MovieTallySpec(c.lines, movieId);
    GreaterIsStrictOrder();
    SortBySorted(rows, NumLines, Greater);
    SortByStable(rows, NumLines, Greater);
    SortByDistinct(rows, NumLines, Greater, (r: CastRow) => r.characterId);
    forall j | 0 <= j < |ranked|
      ensures && Find(c.characters, CharacterKey, ranked[j].characterId).Some?
              && ranked[j].character == Find(c.characters, CharacterKey, ranked[j].characterId).value.name
              && ranked[j].numLines == LinesIn(c.lines, movieId, ranked[j].characterId)
              && ranked[j].numLines >= 1
    {
      assert ranked[j] in multiset(rows);
      var i :| 0 <= i < |rows| && rows[i] == ranked[j];
      assert order[i] in order;
    }
  }

  /** Every character that speaks in the movie is ranked. */
  lemma SpeakerRanked(c: Corpus, movieId: string, l: Line)
    requires CastRows(c, movieId).Some?
    requires l in c.lines && l.movieId == movieId
    ensures var ranked := RankedCast(CastRows(c, movieId).value);
            exists j :: 0 <= j < |ranked| && ranked[j].characterId == l.characterId
  {
    var rows := CastRows(c, movieId).value;
    var order := MovieTally(c.lines, movieId).0;
    var ranked := RankedCast(rows);
    CastRowsSpec(c, movieId);
    MovieTallySpec(c.lines, movieId);
    assert SpeaksIn(movieId, l.characterId)(l);
    CountPositive(c.lines, SpeaksIn(movieId, l.characterId), l);
    assert l.characterId in order;
    var i :| 0 <= i < |order| && order[i] == l.characterId;
    assert rows[i] in multiset(ranked);
    var j :| 0 <= j < |ranked| && ranked[j] == rows[i];
  }

  /** `top_characters` is the head of the full ranking: its first five
      rows (all of them when there are fewer), so no character left out
      has more lines than one listed. */
  lemma TopCharacters(c: Corpus, movieId: string)
    requires MovieView(c, movieId).Ok?
    ensures var ranked := RankedCast(CastRows(c, movieId).value);
            var top := MovieView(c, movieId).value.topCharacters;
            && top == ranked[..Min(TopCount, |ranked|)]
            && forall i, j :: 0 <= i < |top| <= j < |ranked| ==> ranked[j].numLines <= top[i].numLines
  {
    var ranked := RankedCast(CastRows(c, movieId).value);
    RankedCastSpec(c, movieId);
    SliceWindow(ranked, 0, TopCount);
  }

  /** In a coherent corpus whoever speaks in a movie is one of its
      characters: the line's speaker is a participant of its conversation,
      which is in the same movie, and both participants belong to it. */
  lemma SpeakerInCast(c: Corpus, movieId: string, characterId: string)
    requires Coherent(c) && LinesIn(c.lines, movieId, characterId) > 0
    ensures InCast(c, characterId, movieId)
  {
    FilterSpec(c.lines, SpeaksIn(movieId, characterId));
    var l := Filter(c.lines, SpeaksIn(movieId, characterId))[0];
    assert l in c.lines && SpeaksIn(movieId, characterId)(l);
    var i :| 0 <= i < |c.lines| && c.lines[i] == l;
    assert LineCoherent(c, c.lines[i]);
  }

  /** In a coherent corpus every ranked character is a stored character of
      the queried movie. */
  lemma RankedInMovie(c: Corpus, movieId: string)
    requires Coherent(c) && CastRows(c, movieId).Some?
    ensures var ranked := RankedCast(CastRows(c, movieId).value);
            forall j :: 0 <= j < |ranked| ==> InCast(c, ranked[j].characterId, movieId)
  {
    var ranked := RankedCast(CastRows(c, movieId).value);
    RankedCastSpec(c, movieId);
    forall j | 0 <= j < |ranked| ensures InCast(c, ranked[j].characterId, movieId) {
      SpeakerInCast(c, movieId, ranked[j].characterId);
    }
  }

  /** In a coherent corpus every character `get_movie` lists belongs to the
      queried movie. */
  lemma TopCharactersInMovie(c: Corpus, movieId: string)
    requires Coherent(c) && MovieView(c, movieId).Ok?
    ensures var top := MovieView(c, movieId).value.topCharacters;
            forall j :: 0 <= j < |top| ==> InCast(c, top[j].characterId, movieId)
  {
    TopCharacters(c, movieId);
    RankedInMovie(c, movieId);
  }

  /** The first loop of `get_movie`: each line of the movie raises its
      speaker's count, set to 1 on the speaker's first line. */
  method TallyMovieLines(db: Database, movieId: string) returns (order: seq<string>, counts: map<string, nat>)
    ensures (order, counts) == MovieTally(db.lines, movieId)
  {
    order, counts := [], map[];
    for i := 0 to |db.lines|
      invariant (order, counts) == MovieTally(db.lines[..i], movieId)
    {
      var line := db.lines[i];
      assert db.lines[..i + 1][..i] == db.lines[..i];
      if line.movieId == movieId {
        if line.characterId !in counts {
          counts := counts[line.characterId := 1];
          order := order + [line.characterId];
        } else {
          counts := counts[line.characterId := counts[line.characterId] + 1];
        }
      }
    }
    assert db.lines[..|db.lines|] == db.lines;
  }

  /** `get_movie`: the movie lookup, the count, the loop over the counted
      characters, the sort, and the first five. */
  method GetMovie(db: Database, movieId: string) returns (r: Result<MovieDetail>)
    ensures r == MovieView(db.Snapshot(), movieId)
  {
    ghost var c := db.Snapshot();
    var movie := Find(db.movies, MovieKey, movieId);
    if movie.None? {
      return Err(NotFound);
    }
    var order, counts := TallyMovieLines(db, movieId);
    var rows: seq<CastRow> := [];
    for k := 0 to |order|
      invariant Collect(order[..k], CastStep(c, counts)) == Some(rows)
    {
      var characterId := order[k];
      CollectSnoc(order, CastStep(c, counts), k);
      var character := Find(db.characters, CharacterKey, characterId);
      if character.None? || characterId !in counts {
        assert CastStep(c, counts)(order[k]).Crash?;
        CollectCrash(order, CastStep(c, counts));
        return Err(InternalError);
      }
      rows := rows + [CastRow(characterId, character.value.name, counts[characterId])];
    }
    assert order[..|order|] == order;
    var ranked := RankedCast(rows);
    return Ok(MovieDetail(movieId, movie.value.title, Slice(ranked, 0, TopCount)));
  }

  // ---------------------------------------------------------------------
  // GET /movies/

  datatype MovieSort = ByTitle | ByYear | ByRating

  /** The default sort option. */
  const DefaultMovieSort := ByTitle

  datatype MovieRow = MovieRow(movieId: string, movieTitle: string, year: string, imdbRating: int,
                               imdbVotes: int)

  /** The filter test: the upper-cased title contains the upper-cased
      filter. */
  predicate TitleMatches(m: Movie, name: string) {
    Contains(Upper(m.title), Upper(name))
  }

  function Matching(name: string): Movie -> bool {
    (m: Movie) => TitleMatches(m, name)
  }

  function MovieRowOf(m: Movie): MovieRow {
    MovieRow(m.id, m.title, m.year, m.rating, m.votes)
  }

  /** The rows the loop over the movies appends, in table order. */
  function MovieRows(movies: seq<Movie>, name: string): seq<MovieRow> {
    if movies == [] then []
    else
      var rows := MovieRows(movies[..|movies| - 1], name);
      var m := movies[|movies| - 1];
      if TitleMatches(m, name) then rows + [MovieRowOf(m)] else rows
  }

  /** The rows are those of the movies whose title matches, in table
      order. */
  lemma {:induction false} MovieRowsSpec(movies: seq<Movie>, name: string)
    ensures var kept := Filter(movies, Matching(name));
            && |MovieRows(movies, name)| == |kept|
            && forall j :: 0 <= j < |kept| ==> MovieRows(movies, name)[j] == MovieRowOf(kept[j])
  {
    if movies != [] {
      MovieRowsSpec(movies[..|movies| - 1], name);
    }
  }

  /** A stored movie is listed exactly when its title matches, and every
      row is a stored movie with a matching title. */
  lemma MovieListedIff(movies: seq<Movie>, name: string, m: Movie)
    requires m in movies
    ensures MovieRowOf(m) in MovieRows(movies, name) <==> TitleMatches(m, name)
  {
    var kept := Filter(movies, Matching(name));
    MovieRowsSpec(movies, name);
    FilterSpec(movies, Matching(name));
    if MovieRowOf(m) in MovieRows(movies, name) {
      var j :| 0 <= j < |kept| && MovieRows(movies, name)[j] == MovieRowOf(m);
      assert kept[j] in kept;
      assert kept[j] == m;
    }
    if TitleMatches(m, name) {
      var j :| 0 <= j < |kept| && kept[j] == m;
      assert MovieRows(movies, name)[j] == MovieRowOf(m);
    }
  }

  /** Every row is a stored movie with a matching title. */
  lemma MovieRowFrom(movies: seq<Movie>, name: string, j: nat)
    requires j < |MovieRows(movies, name)|
    ensures exists m :: m in movies && TitleMatches(m, name) && MovieRows(movies, name)[j] == MovieRowOf(m)
  {
    var kept := Filter(movies, Matching(name));
    MovieRowsSpec(movies, name);
    FilterSpec(movies, Matching(name));
    assert kept[j] in kept;
  }

  /** An empty filter lists every movie. */
  lemma EmptyFilterListsAllMovies(movies: seq<Movie>)
    ensures |MovieRows(movies, "")| == |movies|
    ensures forall j :: 0 <= j < |movies| ==> MovieRows(movies, "")[j] == MovieRowOf(movies[j])
  {
    assert Upper("") == "";
    forall i | 0 <= i < |movies| ensures Matching("")(movies[i]) {
      ContainsEmpty(Upper(movies[i].title));
    }
    FilterAll(movies, Matching(""));
    MovieRowsSpec(movies, "");
  }

  function RowTitle(r: MovieRow): string {
    r.movieTitle
  }

  function RowYear(r: MovieRow): string {
    r.year
  }

  function RowRating(r: MovieRow): int {
    r.imdbRating
  }

  /** The three `sorted` calls: by title, by the stored year string, or by
      rating with `reverse=True`. */
  function SortMovies(rows: seq<MovieRow>, sort: MovieSort): (r: seq<MovieRow>)
    ensures multiset(r) == multiset(rows)
  {
    match sort
    case ByTitle => SortBy(rows, RowTitle, StrLess)
    case ByYear => SortBy(rows, RowYear, StrLess)
    case ByRating => SortBy(rows, RowRating, Greater)
  }

  /** `sorted` rows are in the order of the chosen key, ties as they
      were. */
  ghost predicate MoviesOrdered(sorted: seq<MovieRow>, rows: seq<MovieRow>, sort: MovieSort) {
    match sort
    case ByTitle => SortedBy(sorted, RowTitle, StrLess) && StableFor(sorted, rows, RowTitle)
    case ByYear => SortedBy(sorted, RowYear, StrLess) && StableFor(sorted, rows, RowYear)
    case ByRating => SortedBy(sorted, RowRating, Greater) && StableFor(sorted, rows, RowRating)
  }

  lemma SortMoviesOrdered(rows: seq<MovieRow>, sort: MovieSort)
    ensures MoviesOrdered(SortMovies(rows, sort), rows, sort)
  {
    StrLessIsStrictOrder();
    GreaterIsStrictOrder();
    match sort
    case ByTitle =>
      SortBySorted(rows, RowTitle, StrLess);
      SortByStable(rows, RowTitle, StrLess);
    case ByYear =>
      SortBySorted(rows, RowYear, StrLess);
      SortByStable(rows, RowYear, StrLess);
    case ByRating =>
      SortBySorted(rows, RowRating, Greater);
      SortByStable(rows, RowRating, Greater);
  }

  /** What `list_movies(name, limit, offset, sort)` answers for a snapshot
      of the store; it never fails. */
  function MovieListing(c: Corpus, name: string, limit: int, offset: int, sort: MovieSort): seq<MovieRow> {
    Slice(SortMovies(MovieRows(c.movies, name), sort), offset, offset + limit)
  }

  /** The answer is the page `[offset, offset + limit)` of the sorted rows:
      in the order of the chosen key, ties in table order, no row gained or
      lost by sorting, at most `limit` of them, and none once `offset`
      passes the end. */
  lemma MovieListingPage(c: Corpus, name: string, limit: int, offset: int, sort: MovieSort)
    requires offset >= 0 && limit >= 0
    ensures var rows := MovieRows(c.movies, name);
            var sorted := SortMovies(rows, sort);
            var page := MovieListing(c, name, limit, offset, sort);
            && MoviesOrdered(sorted, rows, sort)
            && multiset(sorted) == multiset(rows)
            && page == sorted[Min(offset, |sorted|)..Min(offset + limit, |sorted|)]
            && |page| <= limit
            && (offset >= |rows| ==> page == [])
  {
    var rows := MovieRows(c.movies, name);
    var sorted := SortMovies(rows, sort);
    SortMoviesOrdered(rows, sort);
    assert |sorted| == |multiset(sorted)| == |multiset(rows)| == |rows|;
    SliceWindow(sorted, offset, limit);
  }

  /** The call with every default (`name=""`, `limit=50`, `offset=0`,
      sorted by title) answers the first 50 movies in title order, out of
      a sorting of every stored movie. */
  lemma DefaultMovieListing(c: Corpus)
    ensures var sorted := SortMovies(MovieRows(c.movies, ""), DefaultMovieSort);
            && SortedBy(sorted, RowTitle, StrLess)
            && |sorted| == |c.movies|
            && (forall i :: 0 <= i < |c.movies| ==> MovieRowOf(c.movies[i]) in sorted)
            && MovieListing(c, "", DefaultLimit, DefaultOffset, DefaultMovieSort) == sorted[..Min(DefaultLimit, |c.movies|)]
  {
    var rows := MovieRows(c.movies, "");
    var sorted := SortMovies(rows, DefaultMovieSort);
    EmptyFilterListsAllMovies(c.movies);
    MovieListingPage(c, "", DefaultLimit, DefaultOffset, DefaultMovieSort);
    forall i | 0 <= i < |c.movies| ensures MovieRowOf(c.movies[i]) in sorted {
      assert rows[i] in multiset(rows);
    }
  }

  /** `list_movies`: the filtering loop, the sort, and the slice. */
  method ListMovies(db: Database, name: string, limit: int, offset: int, sort: MovieSort)
    returns (r: seq<MovieRow>)
    ensures r == MovieListing(db.Snapshot(), name, limit, offset, sort)
  {
    var rows: seq<MovieRow> := [];
    for i := 0 to |db.movies|
      invariant rows == MovieRows(db.movies[..i], name)
    {
      var m := db.movies[i];
      assert db.movies[..i + 1][..i] == db.movies[..i];
      if Contains(Upper(m.title), Upper(name)) {
        rows := rows + [MovieRow(m.id, m.title, m.year, m.rating, m.votes)];
      }
    }
    assert db.movies[..|db.movies|] == db.movies;
    var sorted := SortMovies(rows, sort);
    return Slice(sorted, offset, offset + limit);
  }
}
