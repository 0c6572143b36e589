# TMDB collector and genre-popularity pie, modelled in Dafny

This project models two parts of the TMDB-Analysis-KPIs repository.

The first part is the raw-data collector `src/TMDB_raw_data_collector.py`. It
lists the popular movies and then the popular TV shows of the TMDB API, pages 1
to 5. It fetches each listed title's detail record and stores it in five SQLite
tables: `movies`, `tv_shows`, `genres`, `movie_genres` and `tv_show_genres`.
Every write is an `INSERT OR IGNORE`, and the script commits after each record.

The second part is the KPI-4 pie of `scripts/plot_kpi4.py`. It orders the
per-genre popularity totals from largest to smallest, keeps the first six and
lumps the rest into one "Otros" slice.

The model has four modules, one per file:

- `store.dfy` (`Store`): the tables as values. A table with a primary key is a
  `map` and an association table is a `set` of pairs. Each `INSERT OR IGNORE`
  is a pure function. `Ingest` is the writes of one detail record and
  `IngestAll` is the writes of a sequence of records. The lemmas cover:
  - tables only grow;
  - primary-key and UNIQUE enforcement;
  - idempotence;
  - both foreign-key sides;
  - the association that can dangle after a genre-name collision.
- `catalog.dfy` (`Catalog`): the remote API as an abstract input. `Remote`
  holds what each list or detail call returns, or that it raises. A `Plan` is
  what a run does against that input: the calls in order, the records ingested
  in order, and whether it stopped on a failure. The lemmas cover:
  - call order;
  - fail-fast;
  - page coverage;
  - the movie pass finishing before the TV pass.
- `collector.dfy` (`Collector`): the script itself. `Database` is a class whose
  fields are the five tables, a schema flag and the last committed snapshot.
  There is one method per `INSERT OR IGNORE`, each tied by its postcondition to
  the `Store` function. The loops are methods with loop invariants:
  - the genre loop of one record, followed by the commit;
  - the loop over a page's summaries;
  - the page loop;
  - the whole run, which creates the schema, then runs the movie pass, then the
    TV pass.

  Each loop method is proved to produce the `Catalog` plan and the `Store`
  tables.
- `popularity_pie.dfy` (`PopularityPie`): the pie's data as functions over
  sequences of `(genre name, popularity)` rows with `real` values. Pandas' sort
  is not stable, so the lemmas hold for every descending rearrangement of the
  input. The function `SortByPopularity` is only one such order.

## Model

| member | source | states |
|---|---|---|
| Store.MovieRowOf | src/TMDB_raw_data_collector.py:134-142 | The `movies` columns taken from a detail record. What is stored under the id is stated by `Store.InsertContent` and `Store.IngestFacts`. |
| Store.TvRowOf | src/TMDB_raw_data_collector.py:179-185 | The `tv_shows` columns taken from a detail record. What is stored under the id is stated by `Store.InsertContent` and `Store.IngestFacts`. |
| Store.InsertMovie | src/TMDB_raw_data_collector.py:129-143 | `movie_id` is the primary key. The keys become the old keys plus the id. A new id maps to the given row. An existing id keeps its old row. No other table changes. |
| Store.InsertTvShow | src/TMDB_raw_data_collector.py:174-186 | The same for `tv_shows` keyed by `tv_id`. |
| Store.InsertGenre | src/TMDB_raw_data_collector.py:146-149 | The insert is ignored exactly when the id is present or the name is already used (primary key and `genre_name UNIQUE`, lines 70-73). Otherwise it adds exactly that row. It preserves name uniqueness and changes no other table. |
| Store.InsertMovieGenre | src/TMDB_raw_data_collector.py:150-153 | The pair set gains exactly the pair. The pair is the primary key (line 78), so no duplicates are possible. No other table changes. |
| Store.InsertTvShowGenre | src/TMDB_raw_data_collector.py:193-196 | The same for `tv_show_genres` (line 86). |
| Store.InsertContent | src/TMDB_raw_data_collector.py:129-143 | The content row of a record is keyed by the record's own `details["id"]` and goes only into the table of its kind. A new id maps to the record's own columns (`StoredAsNew`). An existing id keeps its old row. |
| Store.InsertAssociation | src/TMDB_raw_data_collector.py:150-153 | The pair is added to the association table of the record's kind. The other kind's table, the genres and the content tables are unchanged. |
| Store.GenreStep | src/TMDB_raw_data_collector.py:145-153 | One iteration of the genre loop: the genre insert, then the pair insert. `Store.InsertGenre` and `Store.InsertAssociation` state its effect. |
| Store.IngestGenres | src/TMDB_raw_data_collector.py:145-153 | The genre loop over `details.get("genres", [])`. Its effect is stated by `IngestGenresFrame`, `IngestGenresPairs`, `IngestGenresGrows`, `IngestGenresOrigin` and `IngestGenresCovers`. |
| Store.Ingest | src/TMDB_raw_data_collector.py:129-155 | All writes of one detail record. Its effect is stated by `IngestFacts`, `IngestCovers`, `IngestIdempotent`, `IngestKeepsContentRefs` and `IngestKeepsGenreRefs`. |
| Store.IngestGenresSnoc | src/TMDB_raw_data_collector.py:145-153 | One more genre of the list is one more genre insert followed by one pair insert. |
| Store.IngestGenresFrame | src/TMDB_raw_data_collector.py:145-153 | The genre loop changes neither content table, nor the other kind's association table. |
| Store.IngestGenresPairs | src/TMDB_raw_data_collector.py:145-153 | After the loop the association table is the old one plus one pair per listed genre. This holds whether or not each genre insert took effect. |
| Store.IngestGenresGrows | src/TMDB_raw_data_collector.py:145-153 | The genre loop keeps every old row unchanged and keeps genre names unique. |
| Store.IngestGenresOrigin | src/TMDB_raw_data_collector.py:145-149 | Every genre row after the loop is either unchanged from before or one of the genres the record lists. |
| Store.IngestFacts | src/TMDB_raw_data_collector.py:129-155 | A record is stored under its id, and a new id holds the record's own columns after the whole ingest. A movie leaves `tv_shows` and `tv_show_genres` alone. A show leaves `movies` and `movie_genres` alone. Every old row is kept. Name uniqueness is preserved. |
| Store.IngestAll | src/TMDB_raw_data_collector.py:123-204 | The writes of a sequence of records, each from the state the previous one left. Its effect is stated by `IngestAllGrows`, `IngestAllAppend`, `IngestAllCovers` and `IngestAllIdempotent`. |
| Store.IngestAllSnoc | src/TMDB_raw_data_collector.py:126-155 | One more record is one more ingest, from the state the previous records left. |
| Store.IngestAllGrows | src/TMDB_raw_data_collector.py:123-204 | Over any sequence of records no row is modified or removed, and genre names stay unique across both passes. |
| Store.IngestAllAppend | src/TMDB_raw_data_collector.py:123-204 | Ingesting the movie records and then the TV records equals ingesting their concatenation. |
| Store.IngestCovers | src/TMDB_raw_data_collector.py:129-153 | After a record is ingested, each of its writes would be ignored. |
| Store.IngestCoveredIsIdentity | src/TMDB_raw_data_collector.py:129-153 | Ingesting a record whose writes would all be ignored changes nothing. |
| Store.IngestIdempotent | src/TMDB_raw_data_collector.py:129-155 | Ingesting the same detail record twice gives the state of ingesting it once. |
| Store.IngestAllCovers | src/TMDB_raw_data_collector.py:123-204 | After a sequence of records is ingested, every write of every record in it would be ignored. |
| Store.IngestAllCoveredIsIdentity | src/TMDB_raw_data_collector.py:123-204 | Replaying records whose writes would all be ignored changes nothing. |
| Store.IngestAllIdempotent | src/TMDB_raw_data_collector.py:123-204 | Replaying a run's records over the tables they produced changes nothing. |
| Store.IngestWithoutGenres | src/TMDB_raw_data_collector.py:145 | A record without a `genres` field writes its content row and no genre or association row. |
| Store.IngestKeepsContentRefs | src/TMDB_raw_data_collector.py:129-153 | The content-side foreign key (lines 79 and 87) survives every ingest, and every new pair names its record's content row. |
| Store.NameMeansGenreId | src/TMDB_raw_data_collector.py:145-149 | Without a name collision, when the loop reaches a genre whose name some row already carries, that genre's id is already a key of `genres`. |
| Store.IngestGenresKeepsGenreRefs | src/TMDB_raw_data_collector.py:145-153 | Without a name collision, the genre loop keeps the genre-side foreign key (lines 80 and 88). |
| Store.IngestKeepsGenreRefs | src/TMDB_raw_data_collector.py:129-153 | Without a name collision, the genre-side foreign key survives an ingest, for either association table. |
| Store.OtherKindKeepsGenreRefs | src/TMDB_raw_data_collector.py:145-153 | A record's genre loop keeps the other kind's genre-side foreign key. |
| Store.BlockedGenreStaysOut | src/TMDB_raw_data_collector.py:145-149 | A genre id that is new but whose name is already held stays out of `genres` through the whole genre loop, and its name stays held, as long as the list never pairs that id with another name. |
| Store.CollisionLeavesDanglingAssociation | src/TMDB_raw_data_collector.py:146-153 | Take any listed genre, in a record listing any number of genres, whose id is new but whose name another id already holds, and whose id the list never gives another name. Its genre row is not inserted, but its pair is. The pair then names a genre id absent from `genres`, and the genre-side foreign key fails. |
| Store.DanglingAssociationExample | src/TMDB_raw_data_collector.py:146-153 | A concrete case: with "Drama" stored as genre 18, a movie listing genre 28 "Action" and genre 99 "Drama" stores pair (550, 99), and genre 99 is absent. |
| Catalog.Remote.ListPopular | src/TMDB_raw_data_collector.py:96-105 | `get_popular`: a page's summaries, or a raise. How the plans use it is stated by `PagePlanOrder` and `PagePlanFailsFast`. |
| Catalog.Remote.GetDetails | src/TMDB_raw_data_collector.py:108-116 | A detail record fetched from an endpoint is of that endpoint's kind. |
| Catalog.ItemPlan | src/TMDB_raw_data_collector.py:126-127 | One summary: its detail call and, on success, its record. Stated by `ItemPlanFailsFast`. |
| Catalog.ItemsPlan | src/TMDB_raw_data_collector.py:126-127 | The loop over a page's summaries, stopping at the first raise. Stated by `ItemsPlanOrder`, `ItemsPlanFailsFast`, `ItemsPlanSize`, `ItemsPlanSucceeds` and `ItemsPlanStopsAtFailure`. |
| Catalog.ItemsPlanSnoc | src/TMDB_raw_data_collector.py:126-127 | One more summary after no failure is one more detail call. |
| Catalog.ItemsPlanOrder | src/TMDB_raw_data_collector.py:126-127 | A page's detail calls are a prefix of one call per summary in the order listed. They are all of them when nothing failed. |
| Catalog.ItemPlanFailsFast | src/TMDB_raw_data_collector.py:114-116 | One detail call fails exactly when it raises. It contributes its record only on success. |
| Catalog.ItemsPlanFailsFast | src/TMDB_raw_data_collector.py:126-127 | A page's loop fails fast: no call but the last raises. It failed exactly when its last call raised. It ingests exactly the successful calls' records, all of its own kind. |
| Catalog.ItemsPlanSize | src/TMDB_raw_data_collector.py:126-155 | A page's loop that did not fail ingests one record per summary. |
| Catalog.ItemsPlanSucceeds | src/TMDB_raw_data_collector.py:126-127 | When every detail call of a page succeeds, the page's loop does not fail. |
| Catalog.ItemsPlanStopsAtFailure | src/TMDB_raw_data_collector.py:126-127 | After the first failing detail call, no later summary is fetched. |
| Catalog.PagesPlanStopsAtFailure | src/TMDB_raw_data_collector.py:123-124 | After the first failing page, no later page is listed. |
| Catalog.PagePlan | src/TMDB_raw_data_collector.py:123-127 | One page: its list call, then its summaries. Stated by `PagePlanOrder`, `PagePlanFailsFast` and `PagePlanOfKind`. |
| Catalog.PagesPlan | src/TMDB_raw_data_collector.py:123-127 | Pages 1 to n of a pass, stopping at the first raise. Stated by `PagesPlanOrder`, `PagesPlanFailsFast`, `PagesPlanOfKind`, `PagesPlanSucceeds` and `PagesPlanStopsAtFailure`. |
| Catalog.PassPlan | src/TMDB_raw_data_collector.py:123-127 | One pass over `range(1, 6)`. Stated by `PassCoverage` and `TwentyPerPageCoverage`. |
| Catalog.PagePlanOrder | src/TMDB_raw_data_collector.py:123-127 | A page issues its list call first, then its detail calls in order, up to the first failure. |
| Catalog.PagePlanFailsFast | src/TMDB_raw_data_collector.py:103-105 | A page fails fast, whether its list call or a detail call raises. |
| Catalog.PagePlanOfKind | src/TMDB_raw_data_collector.py:123-127 | A page's calls and records are all of its pass's kind. |
| Catalog.PagesPlanOrder | src/TMDB_raw_data_collector.py:123-127 | A pass's calls are a prefix of the full order: pages 1 to 5, each list call followed by its detail calls. They are the full order when nothing failed. |
| Catalog.PagesPlanFailsFast | src/TMDB_raw_data_collector.py:123-155 | A pass fails fast and ingests exactly the records of its successful detail calls. |
| Catalog.PagesPlanOfKind | src/TMDB_raw_data_collector.py:123-127 | A pass touches only its own content type. |
| Catalog.ExpectedCallsCount | src/TMDB_raw_data_collector.py:123-127 | The full order has one list call per page and one call per page plus one per listed summary. |
| Catalog.PagesPlanSucceeds | src/TMDB_raw_data_collector.py:123-155 | When every call succeeds, the pass does not fail and ingests one record per listed summary. |
| Catalog.PassCoverage | src/TMDB_raw_data_collector.py:123-155 | When every call succeeds, a pass issues exactly the full order: 5 list calls, plus one detail call and one record per summary. |
| Catalog.TwentyPerPageCoverage | src/TMDB_raw_data_collector.py:119-204 | With twenty summaries on each page, a pass makes 5 list calls and 100 detail calls, and ingests 100 records. |
| Catalog.RunPlan | src/TMDB_raw_data_collector.py:119-204 | The movie pass, then the TV pass unless the movie pass raised. Stated by `RunPlanFailsFast`, `MoviePassBeforeTvPass`, `RunPlanCallOrder` and `RerunIsIdempotent`. |
| Catalog.RunPlanFailsFast | src/TMDB_raw_data_collector.py:119-204 | The whole run fails fast. The ingested records are exactly those of its successful detail calls, so the failing call contributes nothing. |
| Catalog.MovieCallsLead | src/TMDB_raw_data_collector.py:119-161 | The run starts with the whole movie pass, all movie calls. A failed movie pass is the whole run. |
| Catalog.TvCallsFollow | src/TMDB_raw_data_collector.py:164-204 | Every call after the movie pass is a TV call. |
| Catalog.MoviePassBeforeTvPass | src/TMDB_raw_data_collector.py:119-204 | The movie pass's calls come first and are all movie calls. Every later call is a TV call. A failed movie pass ends the run. |
| Catalog.RunPlanCallOrder | src/TMDB_raw_data_collector.py:119-204 | The run's calls are a prefix of the full movie order followed by the full TV order. They are all of it when nothing failed. |
| Catalog.RerunIsIdempotent | src/TMDB_raw_data_collector.py:123-204 | Against the same remote data, replaying a run's records over the tables it left changes nothing. |
| Collector.Database.Connect | src/TMDB_raw_data_collector.py:44 | A new file has no rows. A file from a previous run has its tables and the rows it committed. |
| Collector.Database.CreateSchema | src/TMDB_raw_data_collector.py:49-90 | The tables exist afterwards. No row and no committed row changes. |
| Collector.Database.Commit | src/TMDB_raw_data_collector.py:155 | The committed snapshot becomes the current rows. |
| Collector.Database.InsertMovie | src/TMDB_raw_data_collector.py:129-143 | Only `movies` changes, to `Store.InsertMovie` of the old rows. |
| Collector.Database.InsertTvShow | src/TMDB_raw_data_collector.py:174-186 | Only `tv_shows` changes, to `Store.InsertTvShow` of the old rows. |
| Collector.Database.InsertGenre | src/TMDB_raw_data_collector.py:146-149 | Only `genres` changes, to `Store.InsertGenre` of the old rows. Names stay unique. |
| Collector.Database.InsertMovieGenre | src/TMDB_raw_data_collector.py:150-153 | Only `movie_genres` changes, to `Store.InsertMovieGenre` of the old rows. |
| Collector.Database.InsertTvShowGenre | src/TMDB_raw_data_collector.py:193-196 | Only `tv_show_genres` changes, to `Store.InsertTvShowGenre` of the old rows. |
| Collector.Database.InsertContentRow | src/TMDB_raw_data_collector.py:129-143 | The content insert of a record of either kind. |
| Collector.Database.InsertGenreOf | src/TMDB_raw_data_collector.py:145-153 | One genre-loop iteration: the genre insert, then the pair insert into its kind's table. |
| Collector.Database.IngestRecord | src/TMDB_raw_data_collector.py:129-155 | The record's writes in order, then a commit. The rows become `Store.Ingest` of the old rows, and the committed snapshot equals them. |
| Collector.Database.IngestItems | src/TMDB_raw_data_collector.py:126-160 | The summaries loop issues the calls and ingests the records of `Catalog.ItemsPlan`, stopping at the first raise. The committed rows are `IngestAll` of exactly the fully processed records. |
| Collector.Database.IngestPage | src/TMDB_raw_data_collector.py:123-127 | One page follows `Catalog.PagePlan`: its list call, then its summaries. |
| Collector.Database.IngestPass | src/TMDB_raw_data_collector.py:123-161 | One pass, pages 1 to 5, follows `Catalog.PassPlan`. The committed rows equal the rows after the last fully processed record. |
| Collector.Database.Collect | src/TMDB_raw_data_collector.py:49-204 | The run: schema and commit, the movie pass, then the TV pass unless the movie pass stopped. Calls, failure and committed rows are those of `Catalog.RunPlan`. |
| PopularityPie.Insert | scripts/plot_kpi4.py:10 | Inserting one row keeps the multiset of rows plus that row, and keeps a descending table descending. |
| PopularityPie.SortByPopularity | scripts/plot_kpi4.py:10 | The result is a descending rearrangement of the input. |
| PopularityPie.SumPermutation | scripts/plot_kpi4.py:17 | Rearranging the rows does not change the popularity total. |
| PopularityPie.DescendingPairwise | scripts/plot_kpi4.py:10 | In a descending table, every row is at least as popular as every later row. |
| PopularityPie.DescendingPopsUnique | scripts/plot_kpi4.py:10 | Two descending tables with the same popularity values have the same popularity column. |
| PopularityPie.PieData | scripts/plot_kpi4.py:13-25 | The head of an ordered table, then "Otros" with the tail's sum. Stated by `PieShape`, `PieConservesTotal`, `PieKeptDominateLumped`, `PieKeptFromInput` and `PieValuesIndependentOfTies`. |
| PopularityPie.PieShape | scripts/plot_kpi4.py:13-25 | The pie has min(n, 6) + 1 slices. They are the first min(n, 6) rows of the order, then "Otros" holding the sum of the rest. With at most six rows every row is kept and "Otros" is 0. |
| PopularityPie.PieConservesTotal | scripts/plot_kpi4.py:14-25 | The slices sum to the input's total. |
| PopularityPie.PieKeptDominateLumped | scripts/plot_kpi4.py:10-17 | Every kept slice is at least as popular as every row lumped into "Otros". |
| PopularityPie.PieKeptFromInput | scripts/plot_kpi4.py:13-14 | The kept slices are rows of the input, none repeated beyond its multiplicity. |
| PopularityPie.PieValuesIndependentOfTies | scripts/plot_kpi4.py:10-25 | For any two admissible sort orders, the pie's popularity values agree slice by slice. |
| PopularityPie.Kpi4Pie | scripts/plot_kpi4.py:10-25 | The whole pipeline: sort, keep six, lump the rest. Stated by `Kpi4PieFacts`. |
| PopularityPie.Kpi4PieFacts | scripts/plot_kpi4.py:10-25 | The pipeline's pie has min(n, 6) + 1 slices with "Otros" last. Its total is the input's. Its values equal those of any admissible order. |

## Left out

- HTTP calls, JSON decoding and `raise_for_status` (lines 96-116) are not modelled. `Remote` gives each call's result, or states that it raises, as a fixed function of its arguments.
- Network I/O is not modelled. A real API can answer differently between calls and between runs, and `Catalog.RerunIsIdempotent` assumes it does not.
- Loading the environment and the API key, and the `ValueError` when the key is missing (lines 24-28), are not modelled. That is process I/O that happens before any database work.
- Path resolution, `os.makedirs`, and opening or closing the connection (lines 33-45, 208) are not modelled; that is filesystem I/O. `Database.Connect` takes the previous run's tables, if any, as a parameter.
- SQL text and parsing are not modelled. Each statement is modelled by its effect on the tables.
- SQLite errors (disk full, locks) and the rollback of a transaction interrupted by one are not modelled. In the model every raise comes from an HTTP call. It happens before the failing record's first insert, so uncommitted changes never exist at a failure.
- Foreign keys are not enforced, as in SQLite's default configuration. The model states when each side of them holds, and shows the case where the genre side fails.
- Malformed API JSON is not modelled, because record fields are typed values:
  - a missing field raising `KeyError`;
  - a `genres` field that is `null`, which raises when iterated;
  - a `null` id, for which SQLite would assign a rowid.
- An absent `genres` field is modelled; it reads as an empty list.
- Progress printing, the `counter % 10` dots and `time.sleep(0.25)` (lines 40, 120-121, 156-161, 165-166, 199-204) are not modelled; they are console output and timing.
- Floating-point behaviour is not modelled. Popularity and vote averages are `real`, and the pie's sums are exact.
- The movie loop (lines 123-161) and the TV loop (lines 168-204) are the same code with different endpoints and tables. They are modelled as one pass with a `Kind` parameter.
- Reading `data/v_kpi4.csv`, the matplotlib rendering, the percentage labels and `savefig` (`scripts/plot_kpi4.py` lines 1-7, 27-44) are not modelled; they are file and graphics I/O.
- `scripts/plot_kpi2.py` is not part of this model: it is a library sort feeding a bar chart, with no logic of its own.
- PopularityPie.Kpi4Pie: uses one fixed descending order, `SortByPopularity`. Pandas leaves the order of tied totals unspecified, so the lemmas about the pie quantify over every descending rearrangement instead. `PieValuesIndependentOfTies` shows that the values, though not the labels of tied genres, do not depend on the choice.
