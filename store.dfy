/**
 * The relational store of the TMDB collector, as values.
 *
 * The five SQLite tables become keyed collections: a table with a primary key
 * is a map from that key to the rest of the row, and a table whose primary key
 * is the whole row (the two association tables) is a set of pairs.  Every write
 * the collector issues is an `INSERT OR IGNORE`, modelled here as a pure
 * function from the old tables to the new ones.
 */
module Store {

  datatype Option<T> = None | Some(value: T)

  /** The two content types the collector ingests: the `movie` and `tv` endpoints. */
  datatype Kind = Movie | Tv

  /** One entry of the `genres` list of a detail record. */
  datatype GenreRef = GenreRef(id: int, name: string)

  /** A `/movie/{id}` detail record; `genres` is `None` when the field is absent. */
  datatype MovieDetails = MovieDetails(
    id: int, title: string, releaseDate: string, popularity: real,
    voteAverage: real, voteCount: int, budget: int, revenue: int,
    genres: Option<seq<GenreRef>>)

  /** A `/tv/{id}` detail record; `genres` is `None` when the field is absent. */
  datatype TvDetails = TvDetails(
    id: int, name: string, firstAirDate: string, popularity: real,
    voteAverage: real, voteCount: int,
    genres: Option<seq<GenreRef>>)

  /** A detail record of either content type. */
  datatype Record = MovieRecord(movie: MovieDetails) | TvRecord(show: TvDetails)
  {
    function Kind(): Kind {
      if MovieRecord? then Movie else Tv
    }

    /** `details["id"]`: the key under which the record is stored. */
    function Id(): int {
      if MovieRecord? then movie.id else show.id
    }

    /** `details.get("genres", [])`. */
    function Genres(): seq<GenreRef> {
      var field := if MovieRecord? then movie.genres else show.genres;
      match field
      case None => []
      case Some(gs) => gs
    }
  }

  /** The non-key columns of `movies`. */
  datatype MovieRow = MovieRow(
    title: string, releaseDate: string, popularity: real,
    voteAverage: real, voteCount: int, budget: int, revenue: int)

  /** The non-key columns of `tv_shows`. */
  datatype TvRow = TvRow(
    name: string, firstAirDate: string, popularity: real,
    voteAverage: real, voteCount: int)

  /** The five tables: movies, tv_shows, genres, movie_genres, tv_show_genres. */
  datatype Tables = Tables(
    movies: map<int, MovieRow>,
    tvShows: map<int, TvRow>,
    genres: map<int, string>,
    movieGenres: set<(int, int)>,
    tvShowGenres: set<(int, int)>)

  /** The tables as `CREATE TABLE IF NOT EXISTS` leaves them in a fresh file. */
  const NoRows := Tables(map[], map[], map[], {}, {})

  function MovieRowOf(d: MovieDetails): MovieRow {
    MovieRow(d.title, d.releaseDate, d.popularity, d.voteAverage, d.voteCount, d.budget, d.revenue)
  }

  function TvRowOf(d: TvDetails): TvRow {
    TvRow(d.name, d.firstAirDate, d.popularity, d.voteAverage, d.voteCount)
  }

  /** The ids present in the content table of one kind. */
  function ContentIds(t: Tables, kind: Kind): set<int> {
    if kind == Movie then t.movies.Keys else t.tvShows.Keys
  }

  /** The association table of one kind. */
  function Assoc(t: Tables, kind: Kind): set<(int, int)> {
    if kind == Movie then t.movieGenres else t.tvShowGenres
  }

  // ---------------------------------------------------------------------------
  // Table invariants of the schema

  /** Some genre row already carries `name`. */
  predicate NameTaken(genres: map<int, string>, name: string) {
    exists k :: k in genres && genres[k] == name
  }

  /** `genre_name TEXT UNIQUE`: no two genre rows share a name. */
  ghost predicate UniqueGenreNames(t: Tables) {
    forall i, j :: i in t.genres && j in t.genres && i != j ==> t.genres[i] != t.genres[j]
  }

  /** Foreign key content side: every association points at a present content row. */
  ghost predicate ContentRefsHold(t: Tables, kind: Kind) {
    forall p :: p in Assoc(t, kind) ==> p.0 in ContentIds(t, kind)
  }

  /** Foreign key genre side: every association points at a present genre row. */
  ghost predicate GenreRefsHold(t: Tables, kind: Kind) {
    forall p :: p in Assoc(t, kind) ==> p.1 in t.genres
  }

  /** `u` holds every row of `t`, unchanged: nothing was updated or deleted. */
  ghost predicate Grows(t: Tables, u: Tables) {
    && (forall k :: k in t.movies ==> k in u.movies && u.movies[k] == t.movies[k])
    && (forall k :: k in t.tvShows ==> k in u.tvShows && u.tvShows[k] == t.tvShows[k])
    && (forall k :: k in t.genres ==> k in u.genres && u.genres[k] == t.genres[k])
    && t.movieGenres <= u.movieGenres
    && t.tvShowGenres <= u.tvShowGenres
  }

  // ---------------------------------------------------------------------------
  // INSERT OR IGNORE, one function per table

  /** `INSERT OR IGNORE INTO movies`: ignored when `movie_id` is already a key. */
  function InsertMovie(t: Tables, id: int, row: MovieRow): (r: Tables)
    ensures r.movies.Keys == t.movies.Keys + {id}
    ensures id !in t.movies ==> r.movies[id] == row
    ensures Grows(t, r)
    ensures r.(movies := t.movies) == t
  {
    if id in t.movies then t else t.(movies := t.movies[id := row])
  }

  /** `INSERT OR IGNORE INTO tv_shows`: ignored when `tv_id` is already a key. */
  function InsertTvShow(t: Tables, id: int, row: TvRow): (r: Tables)
    ensures r.tvShows.Keys == t.tvShows.Keys + {id}
    ensures id !in t.tvShows ==> r.tvShows[id] == row
    ensures Grows(t, r)
    ensures r.(tvShows := t.tvShows) == t
  {
    if id in t.tvShows then t else t.(tvShows := t.tvShows[id := row])
  }

  /**
   * `INSERT OR IGNORE INTO genres VALUES (id, name)`: ignored when the primary
   * key `genre_id` is taken or when the UNIQUE `genre_name` is already used.
   */
  function InsertGenre(t: Tables, id: int, name: string): (r: Tables)
    ensures (r == t) <==> (id in t.genres || NameTaken(t.genres, name))
    ensures r != t ==> r.genres.Keys == t.genres.Keys + {id} && r.genres[id] == name
    ensures Grows(t, r)
    ensures r.(genres := t.genres) == t
    ensures UniqueGenreNames(t) ==> UniqueGenreNames(r)
  {
    if id in t.genres || NameTaken(t.genres, name) then t
    else
      assert t.genres[id := name] != t.genres by { assert id in t.genres[id := name]; }
      t.(genres := t.genres[id := name])
  }

  /** `INSERT OR IGNORE INTO movie_genres`: the pair is the primary key. */
  function InsertMovieGenre(t: Tables, movieId: int, genreId: int): (r: Tables)
    ensures r.movieGenres == t.movieGenres + {(movieId, genreId)}
    ensures Grows(t, r)
    ensures r.(movieGenres := t.movieGenres) == t
  {
    t.(movieGenres := t.movieGenres + {(movieId, genreId)})
  }

  /** `INSERT OR IGNORE INTO tv_show_genres`: the pair is the primary key. */
  function InsertTvShowGenre(t: Tables, tvId: int, genreId: int): (r: Tables)
    ensures r.tvShowGenres == t.tvShowGenres + {(tvId, genreId)}
    ensures Grows(t, r)
    ensures r.(tvShowGenres := t.tvShowGenres) == t
  {
    t.(tvShowGenres := t.tvShowGenres + {(tvId, genreId)})
  }

  // ---------------------------------------------------------------------------
  // Ingesting one detail record

  /** The content row of `rec` is stored under its id with the record's own columns. */
  ghost predicate StoredAsNew(t: Tables, rec: Record) {
    match rec
    case MovieRecord(m) => m.id in t.movies && t.movies[m.id] == MovieRowOf(m)
    case TvRecord(s) => s.id in t.tvShows && t.tvShows[s.id] == TvRowOf(s)
  }

  /** The content-row insert a record issues, keyed by the record's own id. */
  function InsertContent(t: Tables, rec: Record): (r: Tables)
    ensures ContentIds(r, rec.Kind()) == ContentIds(t, rec.Kind()) + {rec.Id()}
    ensures rec.Id() !in ContentIds(t, rec.Kind()) ==> StoredAsNew(r, rec)
    ensures r.genres == t.genres && r.movieGenres == t.movieGenres && r.tvShowGenres == t.tvShowGenres
    ensures rec.Kind() == Movie ==> r.tvShows == t.tvShows
    ensures rec.Kind() == Tv ==> r.movies == t.movies
    ensures Grows(t, r)
  {
    match rec
    case MovieRecord(m) => InsertMovie(t, m.id, MovieRowOf(m))
    case TvRecord(s) => InsertTvShow(t, s.id, TvRowOf(s))
  }

  /** The association insert for one kind's table. */
  function InsertAssociation(t: Tables, kind: Kind, contentId: int, genreId: int): (r: Tables)
    ensures Assoc(r, kind) == Assoc(t, kind) + {(contentId, genreId)}
    ensures Assoc(r, OtherKind(kind)) == Assoc(t, OtherKind(kind))
    ensures r.genres == t.genres && r.movies == t.movies && r.tvShows == t.tvShows
    ensures Grows(t, r)
  {
    if kind == Movie then InsertMovieGenre(t, contentId, genreId)
    else InsertTvShowGenre(t, contentId, genreId)
  }

  /** One iteration of the `for g in genres` loop: the genre row, then the association. */
  function GenreStep(t: Tables, kind: Kind, contentId: int, g: GenreRef): Tables {
    InsertAssociation(InsertGenre(t, g.id, g.name), kind, contentId, g.id)
  }

  /** The genre loop over `gs`, in order. */
  function IngestGenres(t: Tables, kind: Kind, contentId: int, gs: seq<GenreRef>): Tables
    decreases |gs|
  {
    if gs == [] then t
    else GenreStep(IngestGenres(t, kind, contentId, gs[..|gs| - 1]), kind, contentId, gs[|gs| - 1])
  }

  /** One more genre of the list: one more `GenreStep`. */
  lemma IngestGenresSnoc(t: Tables, kind: Kind, contentId: int, gs: seq<GenreRef>, i: nat)
    requires i < |gs|
    ensures IngestGenres(t, kind, contentId, gs[..i + 1])
            == GenreStep(IngestGenres(t, kind, contentId, gs[..i]), kind, contentId, gs[i])
  {
    assert gs[..i + 1][..i] == gs[..i];
  }

  /** A record's writes: its content row, then, in order, each of its genres and pairs. */
  function Ingest(t: Tables, rec: Record): Tables {
    IngestGenres(InsertContent(t, rec), rec.Kind(), rec.Id(), rec.Genres())
  }

  /** The other content type. */
  function OtherKind(kind: Kind): Kind {
    if kind == Movie then Tv else Movie
  }

  /** The genre loop changes neither content table nor the other kind's association table. */
  lemma {:induction false} IngestGenresFrame(t: Tables, kind: Kind, contentId: int, gs: seq<GenreRef>)
    ensures var r := IngestGenres(t, kind, contentId, gs);
            && r.movies == t.movies && r.tvShows == t.tvShows
            && Assoc(r, OtherKind(kind)) == Assoc(t, OtherKind(kind))
    decreases |gs|
  {
    if gs != [] {
      IngestGenresFrame(t, kind, contentId, gs[..|gs| - 1]);
    }
  }

  /** Every pair of the record is inserted, whether or not its genre row was. */
  lemma {:induction false} IngestGenresPairs(t: Tables, kind: Kind, contentId: int, gs: seq<GenreRef>)
    ensures Assoc(IngestGenres(t, kind, contentId, gs), kind)
         == Assoc(t, kind) + (set g | g in gs :: (contentId, g.id))
    decreases |gs|
  {
    if gs != [] {
      var init := gs[..|gs| - 1];
      var g := gs[|gs| - 1];
      IngestGenresPairs(t, kind, contentId, init);
      assert gs == init + [g];
      assert (set h | h in gs :: (contentId, h.id))
          == (set h | h in init :: (contentId, h.id)) + {(contentId, g.id)};
    }
  }

  /** The genre loop keeps every old row, and genre names stay unique. */
  lemma {:induction false} IngestGenresGrows(t: Tables, kind: Kind, contentId: int, gs: seq<GenreRef>)
    ensures Grows(t, IngestGenres(t, kind, contentId, gs))
    ensures UniqueGenreNames(t) ==> UniqueGenreNames(IngestGenres(t, kind, contentId, gs))
    decreases |gs|
  {
    if gs != [] {
      var p := IngestGenres(t, kind, contentId, gs[..|gs| - 1]);
      IngestGenresGrows(t, kind, contentId, gs[..|gs| - 1]);
      var g := gs[|gs| - 1];
      var q := InsertGenre(p, g.id, g.name);
      GrowsTransitive(t, p, q);
      GrowsTransitive(t, q, InsertAssociation(q, kind, contentId, g.id));
    }
  }

  /** Every genre row after the loop is an old row or one of the genres the record lists. */
  lemma {:induction false} IngestGenresOrigin(t: Tables, kind: Kind, contentId: int, gs: seq<GenreRef>)
    ensures var r := IngestGenres(t, kind, contentId, gs);
            forall k :: k in r.genres ==>
              (k in t.genres && r.genres[k] == t.genres[k]) || GenreRef(k, r.genres[k]) in gs
    decreases |gs|
  {
    if gs != [] {
      var init := gs[..|gs| - 1];
      var g := gs[|gs| - 1];
      IngestGenresOrigin(t, kind, contentId, init);
      var p := IngestGenres(t, kind, contentId, init);
      var q := InsertGenre(p, g.id, g.name);
      var r := InsertAssociation(q, kind, contentId, g.id);
      assert r.genres == q.genres;
      forall k | k in r.genres
        ensures (k in t.genres && r.genres[k] == t.genres[k]) || GenreRef(k, r.genres[k]) in gs
      {
        if k !in p.genres {
          assert k == g.id && r.genres[k] == g.name;
        } else {
          assert r.genres[k] == p.genres[k];
          if !(k in t.genres && p.genres[k] == t.genres[k]) {
            assert GenreRef(k, p.genres[k]) in init;
          }
        }
      }
    }
  }

  /**
   * Ingesting a record stores its content row under `details["id"]` (with the
   * record's own columns when the id is new), touches only the tables of its
   * own kind besides genres, keeps every old row, and keeps genre names unique.
   */
  lemma IngestFacts(t: Tables, rec: Record)
    ensures var r := Ingest(t, rec);
            && rec.Id() in ContentIds(r, rec.Kind())
            && (rec.Id() !in ContentIds(t, rec.Kind()) ==> StoredAsNew(r, rec))
            && (rec.Kind() == Movie ==> r.tvShows == t.tvShows && r.tvShowGenres == t.tvShowGenres)
            && (rec.Kind() == Tv ==> r.movies == t.movies && r.movieGenres == t.movieGenres)
            && Grows(t, r)
            && (UniqueGenreNames(t) ==> UniqueGenreNames(r))
  {
    var c := InsertContent(t, rec);
    IngestGenresFrame(c, rec.Kind(), rec.Id(), rec.Genres());
    IngestGenresPairs(c, rec.Kind(), rec.Id(), rec.Genres());
    IngestGenresGrows(c, rec.Kind(), rec.Id(), rec.Genres());
    GrowsTransitive(t, c, Ingest(t, rec));
  }

  /** Ingesting records one after another, each from the state the previous one left. */
  function IngestAll(t: Tables, rs: seq<Record>): (r: Tables)
    decreases |rs|
  {
    if rs == [] then t else Ingest(IngestAll(t, rs[..|rs| - 1]), rs[|rs| - 1])
  }

  /** One more record: one more `Ingest`. */
  lemma IngestAllSnoc(t: Tables, rs: seq<Record>, rec: Record)
    ensures IngestAll(t, rs + [rec]) == Ingest(IngestAll(t, rs), rec)
  {
    assert (rs + [rec])[..|rs|] == rs;
  }

  // ---------------------------------------------------------------------------
  // Lemmas

  lemma {:induction false} GrowsTransitive(t: Tables, u: Tables, v: Tables)
    requires Grows(t, u) && Grows(u, v)
    ensures Grows(t, v)
  {
  }

  /** Ingestion never modifies or removes a row, over any number of records. */
  lemma {:induction false} IngestAllGrows(t: Tables, rs: seq<Record>)
    ensures Grows(t, IngestAll(t, rs))
    ensures UniqueGenreNames(t) ==> UniqueGenreNames(IngestAll(t, rs))
  {
    if rs != [] {
      IngestAllGrows(t, rs[..|rs| - 1]);
      IngestFacts(IngestAll(t, rs[..|rs| - 1]), rs[|rs| - 1]);
      GrowsTransitive(t, IngestAll(t, rs[..|rs| - 1]), IngestAll(t, rs));
    }
  }

  /** Ingesting `a` and then `b` is ingesting `a + b`. */
  lemma {:induction false} IngestAllAppend(t: Tables, a: seq<Record>, b: seq<Record>)
    ensures IngestAll(t, a + b) == IngestAll(IngestAll(t, a), b)
    decreases |b|
  {
    if b == [] {
      assert a + b == a;
    } else {
      var init, last := b[..|b| - 1], b[|b| - 1];
      assert a + b == (a + init) + [last] by { assert b == init + [last]; }
      IngestAllAppend(t, a, init);
      IngestAllSnoc(t, a + init, last);
      IngestAllSnoc(IngestAll(t, a), init, last);
    }
  }

  /** A genre whose insert would be ignored: its id or its name is taken. */
  ghost predicate GenreBlocked(t: Tables, g: GenreRef) {
    g.id in t.genres || NameTaken(t.genres, g.name)
  }

  /** Every write that ingesting `rec` issues would be ignored by `t`. */
  ghost predicate Covered(t: Tables, rec: Record) {
    && rec.Id() in ContentIds(t, rec.Kind())
    && forall g :: g in rec.Genres() ==> GenreBlocked(t, g) && (rec.Id(), g.id) in Assoc(t, rec.Kind())
  }

  lemma CoveredGrows(t: Tables, u: Tables, rec: Record)
    requires Covered(t, rec) && Grows(t, u)
    ensures Covered(u, rec)
  {
    forall g | g in rec.Genres() ensures GenreBlocked(u, g) {
      CoveredGenreGrows(t, u, g);
    }
  }

  lemma {:induction false} IngestGenresCovers(t: Tables, kind: Kind, cid: int, gs: seq<GenreRef>)
    ensures forall g :: g in gs ==> GenreBlocked(IngestGenres(t, kind, cid, gs), g)
  {
    if gs != [] {
      var p := IngestGenres(t, kind, cid, gs[..|gs| - 1]);
      var r := IngestGenres(t, kind, cid, gs);
      IngestGenresCovers(t, kind, cid, gs[..|gs| - 1]);
      var q := InsertGenre(p, gs[|gs| - 1].id, gs[|gs| - 1].name);
      assert r.genres == q.genres;
      forall g | g in gs ensures GenreBlocked(r, g) {
        if g != gs[|gs| - 1] {
          assert g in gs[..|gs| - 1];
          assert GenreBlocked(p, g);
          CoveredGenreGrows(p, q, g);
        }
      }
    }
  }

  lemma CoveredGenreGrows(t: Tables, u: Tables, g: GenreRef)
    requires GenreBlocked(t, g) && Grows(t, u)
    ensures GenreBlocked(u, g)
  {
    if g.id !in t.genres {
      var k :| k in t.genres && t.genres[k] == g.name;
      assert u.genres[k] == g.name;
    }
  }

  /** After ingesting a record, all of its writes would be ignored. */
  lemma IngestCovers(t: Tables, rec: Record)
    ensures Covered(Ingest(t, rec), rec)
  {
    var c := InsertContent(t, rec);
    IngestGenresFrame(c, rec.Kind(), rec.Id(), rec.Genres());
    IngestGenresPairs(c, rec.Kind(), rec.Id(), rec.Genres());
    IngestGenresCovers(InsertContent(t, rec), rec.Kind(), rec.Id(), rec.Genres());
  }

  /** Genre loop over writes that would all be ignored leaves the tables alone. */
  lemma {:induction false} IngestGenresIgnored(t: Tables, kind: Kind, cid: int, gs: seq<GenreRef>)
    requires forall g :: g in gs ==> GenreBlocked(t, g) && (cid, g.id) in Assoc(t, kind)
    ensures IngestGenres(t, kind, cid, gs) == t
  {
    if gs != [] {
      IngestGenresIgnored(t, kind, cid, gs[..|gs| - 1]);
      var g := gs[|gs| - 1];
      assert InsertGenre(t, g.id, g.name) == t;
      if kind == Movie {
        assert t.movieGenres + {(cid, g.id)} == t.movieGenres;
      } else {
        assert t.tvShowGenres + {(cid, g.id)} == t.tvShowGenres;
      }
    }
  }

  /** Ingesting a record into tables that already cover it changes nothing. */
  lemma IngestCoveredIsIdentity(t: Tables, rec: Record)
    requires Covered(t, rec)
    ensures Ingest(t, rec) == t
  {
    assert InsertContent(t, rec) == t;
    IngestGenresIgnored(t, rec.Kind(), rec.Id(), rec.Genres());
  }

  /** Ingesting the same detail record twice gives the state of ingesting it once. */
  lemma IngestIdempotent(t: Tables, rec: Record)
    ensures Ingest(Ingest(t, rec), rec) == Ingest(t, rec)
  {
    IngestCovers(t, rec);
    IngestCoveredIsIdentity(Ingest(t, rec), rec);
  }

  lemma {:induction false} IngestAllCovers(t: Tables, rs: seq<Record>)
    ensures forall rec :: rec in rs ==> Covered(IngestAll(t, rs), rec)
  {
    if rs != [] {
      var init := rs[..|rs| - 1];
      var p := IngestAll(t, init);
      IngestAllCovers(t, init);
      IngestCovers(p, rs[|rs| - 1]);
      IngestFacts(p, rs[|rs| - 1]);
      forall rec | rec in rs ensures Covered(IngestAll(t, rs), rec) {
        if rec != rs[|rs| - 1] {
          assert rec in init;
          CoveredGrows(p, IngestAll(t, rs), rec);
        }
      }
    }
  }

  lemma {:induction false} IngestAllCoveredIsIdentity(t: Tables, rs: seq<Record>)
    requires forall rec :: rec in rs ==> Covered(t, rec)
    ensures IngestAll(t, rs) == t
  {
    if rs != [] {
      IngestAllCoveredIsIdentity(t, rs[..|rs| - 1]);
      IngestCoveredIsIdentity(t, rs[|rs| - 1]);
    }
  }

  /** Replaying a sequence of records over its own result changes nothing. */
  lemma IngestAllIdempotent(t: Tables, rs: seq<Record>)
    ensures IngestAll(IngestAll(t, rs), rs) == IngestAll(t, rs)
  {
    IngestAllCovers(t, rs);
    IngestAllCoveredIsIdentity(IngestAll(t, rs), rs);
  }

  /** A record with no `genres` field writes its content row and nothing else. */
  lemma IngestWithoutGenres(t: Tables, rec: Record)
    requires rec.Genres() == []
    ensures Ingest(t, rec).genres == t.genres
    ensures Assoc(Ingest(t, rec), Movie) == Assoc(t, Movie) && Assoc(Ingest(t, rec), Tv) == Assoc(t, Tv)
    ensures ContentIds(Ingest(t, rec), rec.Kind()) == ContentIds(t, rec.Kind()) + {rec.Id()}
  {
  }

  /**
   * The content-side foreign key holds after every ingest, and every
   * association pair of the ingested record names its content row.
   */
  lemma IngestKeepsContentRefs(t: Tables, rec: Record, kind: Kind)
    requires ContentRefsHold(t, kind)
    ensures ContentRefsHold(Ingest(t, rec), kind)
    ensures forall p :: p in Assoc(Ingest(t, rec), rec.Kind()) && p.0 == rec.Id() ==>
              p.0 in ContentIds(Ingest(t, rec), rec.Kind())
  {
    var c := InsertContent(t, rec);
    var r := Ingest(t, rec);
    IngestGenresFrame(c, rec.Kind(), rec.Id(), rec.Genres());
    IngestGenresPairs(c, rec.Kind(), rec.Id(), rec.Genres());
    assert kind != rec.Kind() ==> kind == OtherKind(rec.Kind());
    forall p | p in Assoc(r, kind) ensures p.0 in ContentIds(r, kind) {
      if p !in Assoc(t, kind) {
        assert kind == rec.Kind() && p.0 == rec.Id();
      }
    }
  }

  /**
   * The record's genre list causes no name collision: each genre's id is
   * present or its name is free, and the list never gives one name two ids.
   */
  ghost predicate NoNameCollision(t: Tables, gs: seq<GenreRef>) {
    && (forall g :: g in gs ==> g.id in t.genres || !NameTaken(t.genres, g.name))
    && (forall g, h :: g in gs && h in gs && g.name == h.name ==> g.id == h.id)
  }

  /**
   * Under no collision, when the genre loop reaches `g` and some row already
   * carries `g.name`, then `g.id` is already a key of `genres`, so the genre
   * insert is ignored without losing the row the pair refers to.
   */
  lemma NameMeansGenreId(t: Tables, kind: Kind, cid: int, gs: seq<GenreRef>, g: GenreRef)
    requires NoNameCollision(t, gs) && gs != [] && g == gs[|gs| - 1]
    ensures var p := IngestGenres(t, kind, cid, gs[..|gs| - 1]);
            NameTaken(p.genres, g.name) ==> g.id in p.genres
  {
    var init := gs[..|gs| - 1];
    var p := IngestGenres(t, kind, cid, init);
    IngestGenresOrigin(t, kind, cid, init);
    IngestGenresGrows(t, kind, cid, init);
    if NameTaken(p.genres, g.name) {
      var k :| k in p.genres && p.genres[k] == g.name;
      if k in t.genres && p.genres[k] == t.genres[k] {
        assert NameTaken(t.genres, g.name);
        assert g.id in t.genres;
      } else {
        assert GenreRef(k, g.name) in init;
        assert GenreRef(k, g.name) in gs;
        assert k == g.id;
      }
    }
  }

  lemma {:induction false} IngestGenresKeepsGenreRefs(t: Tables, kind: Kind, cid: int, gs: seq<GenreRef>)
    requires GenreRefsHold(t, kind) && NoNameCollision(t, gs)
    ensures GenreRefsHold(IngestGenres(t, kind, cid, gs), kind)
  {
    if gs != [] {
      var init := gs[..|gs| - 1];
      var g := gs[|gs| - 1];
      assert NoNameCollision(t, init) by {
        forall h | h in init ensures h in gs { }
      }
      IngestGenresKeepsGenreRefs(t, kind, cid, init);
      var p := IngestGenres(t, kind, cid, init);
      IngestGenresGrows(t, kind, cid, init);
      var q := InsertGenre(p, g.id, g.name);
      NameMeansGenreId(t, kind, cid, gs, g);
      assert g.id in q.genres;
      var r := InsertAssociation(q, kind, cid, g.id);
      assert r == IngestGenres(t, kind, cid, gs);
      forall pr | pr in Assoc(r, kind) ensures pr.1 in r.genres {
        if pr in Assoc(p, kind) {
          assert pr.1 in p.genres;
        }
      }
    }
  }

  /** Without a name collision, the genre-side foreign key survives an ingest. */
  lemma IngestKeepsGenreRefs(t: Tables, rec: Record, kind: Kind)
    requires GenreRefsHold(t, kind) && NoNameCollision(t, rec.Genres())
    ensures GenreRefsHold(Ingest(t, rec), kind)
  {
    var c := InsertContent(t, rec);
    assert GenreRefsHold(c, kind);
    if kind == rec.Kind() {
      IngestGenresKeepsGenreRefs(c, kind, rec.Id(), rec.Genres());
    } else {
      OtherKindKeepsGenreRefs(c, rec.Kind(), rec.Id(), rec.Genres(), kind);
    }
  }

  lemma OtherKindKeepsGenreRefs(t: Tables, kind: Kind, cid: int, gs: seq<GenreRef>, other: Kind)
    requires GenreRefsHold(t, other) && other != kind
    ensures GenreRefsHold(IngestGenres(t, kind, cid, gs), other)
  {
    var r := IngestGenres(t, kind, cid, gs);
    IngestGenresFrame(t, kind, cid, gs);
    IngestGenresGrows(t, kind, cid, gs);
    assert other == OtherKind(kind);
    assert Assoc(r, other) == Assoc(t, other);
  }

  /**
   * A genre whose id is new but whose name another id already holds stays out
   * of `genres` through the whole genre loop, provided the list never gives
   * its id another name.
   */
  lemma {:induction false} BlockedGenreStaysOut(t: Tables, kind: Kind, cid: int, gs: seq<GenreRef>, g: GenreRef)
    requires g.id !in t.genres && NameTaken(t.genres, g.name)
    requires forall h :: h in gs && h.id == g.id ==> h.name == g.name
    ensures var r := IngestGenres(t, kind, cid, gs);
            g.id !in r.genres && NameTaken(r.genres, g.name)
    decreases |gs|
  {
    if gs != [] {
      var init := gs[..|gs| - 1];
      var h := gs[|gs| - 1];
      assert forall x :: x in init ==> x in gs;
      BlockedGenreStaysOut(t, kind, cid, init, g);
      var p := IngestGenres(t, kind, cid, init);
      var q := InsertGenre(p, h.id, h.name);
      var k :| k in p.genres && p.genres[k] == g.name;
      assert q.genres[k] == g.name;
      if h.id == g.id {
        assert h in gs;
        assert q == p;
      }
    }
  }

  /**
   * A listed genre whose id is new but whose name another genre id already
   * holds is not inserted, yet its association pair is: the stored pair then
   * names a genre id that the genres table does not hold.  This holds for a
   * record listing any number of genres.
   */
  lemma CollisionLeavesDanglingAssociation(t: Tables, rec: Record, g: GenreRef)
    requires g in rec.Genres()
    requires g.id !in t.genres && NameTaken(t.genres, g.name)
    requires forall h :: h in rec.Genres() && h.id == g.id ==> h.name == g.name
    ensures (rec.Id(), g.id) in Assoc(Ingest(t, rec), rec.Kind())
    ensures g.id !in Ingest(t, rec).genres
    ensures !GenreRefsHold(Ingest(t, rec), rec.Kind())
  {
    var c := InsertContent(t, rec);
    IngestGenresPairs(c, rec.Kind(), rec.Id(), rec.Genres());
    BlockedGenreStaysOut(c, rec.Kind(), rec.Id(), rec.Genres(), g);
  }

  /**
   * A concrete instance: "Drama" is stored as genre 18; a movie lists "Action"
   * as genre 28 and "Drama" as genre 99.
   */
  lemma DanglingAssociationExample()
    ensures var t := NoRows.(genres := map[18 := "Drama"]);
            var rec := MovieRecord(MovieDetails(550, "Fight Club", "1999-10-15", 61.4, 8.4, 30000,
                                                63000000, 101200000, Some([GenreRef(28, "Action"), GenreRef(99, "Drama")])));
            (550, 99) in Ingest(t, rec).movieGenres && 99 !in Ingest(t, rec).genres
  {
    var t := NoRows.(genres := map[18 := "Drama"]);
    var rec := MovieRecord(MovieDetails(550, "Fight Club", "1999-10-15", 61.4, 8.4, 30000,
                                        63000000, 101200000, Some([GenreRef(28, "Action"), GenreRef(99, "Drama")])));
    assert t.genres[18] == "Drama";
    CollisionLeavesDanglingAssociation(t, rec, GenreRef(99, "Drama"));
  }
}
