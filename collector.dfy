/**
 * The collector script itself: one SQLite connection whose tables the
 * ingestion loops change in place.
 *
 * `Database` holds the five tables as fields and the rows as of the last
 * commit.  Each `INSERT OR IGNORE` is a method that changes one table, and its
 * postcondition ties the new rows to the pure function in `Store` that says
 * what that insert does.  The loops of the script are methods with loop
 * invariants that tie their progress to the `Plan` functions of `Catalog`.
 */
module Collector {
  import opened Store
  import opened Catalog

  class Database {
    var movies: map<int, MovieRow>
    var tvShows: map<int, TvRow>
    var genres: map<int, string>
    var movieGenres: set<(int, int)>
    var tvShowGenres: set<(int, int)>
    /** Whether the five tables exist. */
    var schemaReady: bool
    /** The rows as of the last `conn.commit()`: what a crash would leave on disk. */
    var committed: Tables

    /** The rows the connection currently sees, committed or not. */
    function Rows(): Tables
      reads this
    {
      Tables(movies, tvShows, genres, movieGenres, tvShowGenres)
    }

    /** Before the schema exists there are no rows; genre names are unique. */
    ghost predicate Valid()
      reads this
    {
      && (!schemaReady ==> Rows() == NoRows && committed == NoRows)
      && UniqueGenreNames(Rows())
    }

    /** `sqlite3.connect(DB_PATH)`: a new file, or the file a previous run left. */
    constructor Connect(existing: Option<Tables>)
      requires existing.Some? ==> UniqueGenreNames(existing.value)
      ensures Valid()
      ensures schemaReady == existing.Some?
      ensures Rows() == committed == (if existing.Some? then existing.value else NoRows)
    {
      var t := if existing.Some? then existing.value else NoRows;
      movies, tvShows, genres := t.movies, t.tvShows, t.genres;
      movieGenres, tvShowGenres := t.movieGenres, t.tvShowGenres;
      schemaReady := existing.Some?;
      committed := t;
    }

    /** The `CREATE TABLE IF NOT EXISTS` script: creates what is missing, alters no row. */
    method CreateSchema()
      requires Valid()
      modifies this`schemaReady
      ensures Valid() && schemaReady
      ensures Rows() == old(Rows()) && committed == old(committed)
    {
      schemaReady := true;
    }

    /** `conn.commit()`. */
    method Commit()
      requires Valid()
      modifies this`committed
      ensures Valid() && committed == Rows()
    {
      committed := Rows();
    }

    method InsertMovie(id: int, row: MovieRow)
      requires Valid() && schemaReady
      modifies this`movies
      ensures Valid() && Rows() == Store.InsertMovie(old(Rows()), id, row)
    {
      if id !in movies {
        movies := movies[id := row];
      }
    }

    method InsertTvShow(id: int, row: TvRow)
      requires Valid() && schemaReady
      modifies this`tvShows
      ensures Valid() && Rows() == Store.InsertTvShow(old(Rows()), id, row)
    {
      if id !in tvShows {
        tvShows := tvShows[id := row];
      }
    }

    method InsertGenre(id: int, name: string)
      requires Valid() && schemaReady
      modifies this`genres
      ensures Valid() && Rows() == Store.InsertGenre(old(Rows()), id, name)
    {
      if id !in genres && !NameTaken(genres, name) {
        genres := genres[id := name];
      }
    }

    method InsertMovieGenre(movieId: int, genreId: int)
      requires Valid() && schemaReady
      modifies this`movieGenres
      ensures Valid() && Rows() == Store.InsertMovieGenre(old(Rows()), movieId, genreId)
    {
      movieGenres := movieGenres + {(movieId, genreId)};
    }

    method InsertTvShowGenre(tvId: int, genreId: int)
      requires Valid() && schemaReady
      modifies this`tvShowGenres
      ensures Valid() && Rows() == Store.InsertTvShowGenre(old(Rows()), tvId, genreId)
    {
      tvShowGenres := tvShowGenres + {(tvId, genreId)};
    }

    /** The content-row insert of one record, into the table of its kind. */
    method InsertContentRow(rec: Record)
      requires Valid() && schemaReady
      modifies this`movies, this`tvShows
      ensures Valid() && Rows() == InsertContent(old(Rows()), rec)
    {
      match rec {
        case MovieRecord(m) => InsertMovie(m.id, MovieRowOf(m));
        case TvRecord(s) => InsertTvShow(s.id, TvRowOf(s));
      }
    }

    /** One iteration of `for g in details.get("genres", [])`: the genre row, then the pair. */
    method InsertGenreOf(kind: Kind, contentId: int, g: GenreRef)
      requires Valid() && schemaReady
      modifies this`genres, this`movieGenres, this`tvShowGenres
      ensures Valid() && Rows() == GenreStep(old(Rows()), kind, contentId, g)
    {
      InsertGenre(g.id, g.name);
      if kind == Movie {
        InsertMovieGenre(contentId, g.id);
      } else {
        InsertTvShowGenre(contentId, g.id);
      }
    }

    /** The body of the per-summary loop after the detail call: the content row, its genres, the commit. */
    method IngestRecord(rec: Record)
      requires Valid() && schemaReady
      modifies this
      ensures Valid() && schemaReady
      ensures Rows() == Ingest(old(Rows()), rec) && committed == Rows()
    {
      InsertContentRow(rec);
      ghost var start := Rows();
      var kind, id, gs := rec.Kind(), rec.Id(), rec.Genres();
      for i := 0 to |gs|
        invariant Valid() && schemaReady
        invariant Rows() == IngestGenres(start, kind, id, gs[..i])
      {
        InsertGenreOf(kind, id, gs[i]);
        IngestGenresSnoc(start, kind, id, gs, i);
      }
      assert gs[..|gs|] == gs;
      Commit();
    }

    /**
     * The inner loop over one page's summaries: fetch each one's details and
     * ingest them, stopping at the first detail call that raises.
     */
    method IngestItems(remote: Remote, kind: Kind, items: seq<Summary>)
      returns (calls: seq<Call>, failed: bool, ghost records: seq<Record>)
      requires Valid() && schemaReady && committed == Rows()
      modifies this
      ensures Valid() && schemaReady
      ensures Plan(calls, records, failed) == ItemsPlan(remote, kind, items)
      ensures Rows() == IngestAll(old(Rows()), records) && committed == Rows()
    {
      calls, failed, records := [], false, [];
      for i := 0 to |items|
        invariant Valid() && schemaReady
        invariant Plan(calls, records, false) == ItemsPlan(remote, kind, items[..i])
        invariant Rows() == IngestAll(old(Rows()), records) && committed == Rows()
      {
        ItemsPlanSnoc(remote, kind, items, i);
        var s := items[i];
        calls := calls + [DetailCall(kind, s.id)];
        var fetched := remote.GetDetails(kind, s.id);
        if fetched.Failed? {
          failed := true;
          ItemsPlanStopsAtFailure(remote, kind, items, i + 1);
          return;
        }
        IngestRecord(fetched.value);
        IngestAllSnoc(old(Rows()), records, fetched.value);
        records := records + [fetched.value];
      }
      assert items[..|items|] == items;
    }

    /** One page of a pass: its list call, then its summaries' details. */
    method IngestPage(remote: Remote, kind: Kind, page: int)
      returns (calls: seq<Call>, failed: bool, ghost records: seq<Record>)
      requires Valid() && schemaReady && committed == Rows()
      modifies this
      ensures Valid() && schemaReady
      ensures Plan(calls, records, failed) == PagePlan(remote, kind, page)
      ensures Rows() == IngestAll(old(Rows()), records) && committed == Rows()
    {
      var listed := remote.ListPopular(kind, page);
      if listed.Failed? {
        calls, failed, records := [ListCall(kind, page)], true, [];
        return;
      }
      var itemCalls;
      itemCalls, failed, records := IngestItems(remote, kind, listed.value);
      calls := [ListCall(kind, page)] + itemCalls;
    }

    /**
     * One of the two ingestion loops: pages `FirstPage` to `LastPage`, every
     * summary of each page, stopping at the first call that raises.
     */
    method IngestPass(remote: Remote, kind: Kind) returns (calls: seq<Call>, failed: bool, ghost records: seq<Record>)
      requires Valid() && schemaReady && committed == Rows()
      modifies this
      ensures Valid() && schemaReady
      ensures Plan(calls, records, failed) == PassPlan(remote, kind)
      ensures Rows() == IngestAll(old(Rows()), records) && committed == Rows()
    {
      calls, failed, records := [], false, [];
      for page := FirstPage to LastPage + 1
        invariant Valid() && schemaReady
        invariant Plan(calls, records, false) == PagesPlan(remote, kind, page - 1)
        invariant Rows() == IngestAll(old(Rows()), records) && committed == Rows()
      {
        var pageCalls, pageFailed, pageRecords := IngestPage(remote, kind, page);
        IngestAllAppend(old(Rows()), records, pageRecords);
        calls, failed, records := calls + pageCalls, pageFailed, records + pageRecords;
        if failed {
          PagesPlanStopsAtFailure(remote, kind, page, LastPage);
          return;
        }
      }
    }

    /**
     * The whole script after connecting: create the schema, commit, ingest the
     * movies, then the TV shows.  A raised error ends the run at once.
     */
    method Collect(remote: Remote) returns (calls: seq<Call>, failed: bool)
      requires Valid()
      modifies this
      ensures Valid() && schemaReady
      ensures calls == RunPlan(remote).calls && failed == RunPlan(remote).failed
      ensures Rows() == IngestAll(old(Rows()), RunPlan(remote).records) && committed == Rows()
    {
      CreateSchema();
      Commit();
      var movieCalls, tvCalls;
      ghost var movieRecords, tvRecords;
      movieCalls, failed, movieRecords := IngestPass(remote, Movie);
      if failed {
        calls := movieCalls;
        return;
      }
      tvCalls, failed, tvRecords := IngestPass(remote, Tv);
      calls := movieCalls + tvCalls;
      IngestAllAppend(old(Rows()), movieRecords, tvRecords);
    }
  }
}
