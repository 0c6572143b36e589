/**
 * The remote catalog and the order in which the collector talks to it.
 *
 * The HTTP endpoints are an abstract input: `Remote` says what each list call
 * (`/movie/popular`, `/tv/popular` with a page number) and each detail call
 * (`/movie/{id}`, `/tv/{id}`) would return, or that it fails (a non-2xx status
 * makes `raise_for_status` raise).  A `Plan` is what one run does with that
 * input: the calls it issues, in order, the detail records it ingests, in
 * order, and whether it stopped on a failure.  The plan does not depend on the
 * database, so the tables a run leaves are `IngestAll` of the plan's records.
 */
module Catalog {
  import opened Store

  /** The outcome of one HTTP call: the decoded body, or the raised error. */
  datatype Fetch<T> = Ok(value: T) | Failed

  /** An entry of a `/popular` page; the collector reads only its `id`. */
  datatype Summary = Summary(id: int)

  /** What every list and detail call of the remote API returns. */
  datatype Remote = Remote(
    popular: (Kind, int) -> Fetch<seq<Summary>>,
    movieDetails: int -> Fetch<MovieDetails>,
    tvDetails: int -> Fetch<TvDetails>)
  {
    /** `get_popular(endpoint, page)`. */
    function ListPopular(kind: Kind, page: int): Fetch<seq<Summary>> {
      popular(kind, page)
    }

    /** `get_details(endpoint, content_id)`. */
    function GetDetails(kind: Kind, id: int): (r: Fetch<Record>)
      ensures r.Ok? ==> r.value.Kind() == kind
    {
      if kind == Movie then
        match movieDetails(id)
        case Ok(m) => Ok(MovieRecord(m))
        case Failed => Failed
      else
        match tvDetails(id)
        case Ok(s) => assert TvRecord(s).Kind() == Tv; Ok(TvRecord(s))
        case Failed => Failed
    }
  }

  /** One request to the remote API. */
  datatype Call = ListCall(kind: Kind, page: int) | DetailCall(kind: Kind, id: int)

  /** `range(1, 6)`: the pages each pass lists. */
  const FirstPage := 1
  const LastPage := 5

  /** The calls issued, the detail records ingested, and whether the run stopped on a failure. */
  datatype Plan = Plan(calls: seq<Call>, records: seq<Record>, failed: bool)

  /** `p`, then `q`; only a plan that has not failed goes on. */
  function Then(p: Plan, q: Plan): Plan
    requires !p.failed
  {
    Plan(p.calls + q.calls, p.records + q.records, q.failed)
  }

  /** One summary: its detail call and, when that succeeds, the record to ingest. */
  function ItemPlan(remote: Remote, kind: Kind, s: Summary): Plan {
    match remote.GetDetails(kind, s.id)
    case Ok(rec) => Plan([DetailCall(kind, s.id)], [rec], false)
    case Failed => Plan([DetailCall(kind, s.id)], [], true)
  }

  /** The inner `for movie in movies` loop: the summaries in the order listed. */
  function ItemsPlan(remote: Remote, kind: Kind, items: seq<Summary>): Plan
    decreases |items|
  {
    if items == [] then Plan([], [], false)
    else
      var p := ItemsPlan(remote, kind, items[..|items| - 1]);
      if p.failed then p else Then(p, ItemPlan(remote, kind, items[|items| - 1]))
  }

  /** One more summary of a page that has not failed yet: one more `ItemPlan`. */
  lemma ItemsPlanSnoc(remote: Remote, kind: Kind, items: seq<Summary>, i: nat)
    requires i < |items| && !ItemsPlan(remote, kind, items[..i]).failed
    ensures ItemsPlan(remote, kind, items[..i + 1])
            == Then(ItemsPlan(remote, kind, items[..i]), ItemPlan(remote, kind, items[i]))
  {
    assert items[..i + 1][..i] == items[..i];
  }

  /** One page: its list call, then its summaries. */
  function PagePlan(remote: Remote, kind: Kind, page: int): Plan {
    match remote.ListPopular(kind, page)
    case Failed => Plan([ListCall(kind, page)], [], true)
    case Ok(items) => Then(Plan([ListCall(kind, page)], [], false), ItemsPlan(remote, kind, items))
  }

  /** The outer `for page` loop over pages `FirstPage` to `n`. */
  function PagesPlan(remote: Remote, kind: Kind, n: nat): Plan
    decreases n
  {
    if n < FirstPage then Plan([], [], false)
    else
      var p := PagesPlan(remote, kind, n - 1);
      if p.failed then p else Then(p, PagePlan(remote, kind, n))
  }

  /** One ingestion pass: all pages of one content type. */
  function PassPlan(remote: Remote, kind: Kind): Plan {
    PagesPlan(remote, kind, LastPage)
  }

  /** The whole run: the movie pass, then (unless it stopped) the TV pass. */
  function RunPlan(remote: Remote): Plan {
    var m := PassPlan(remote, Movie);
    if m.failed then m else Then(m, PassPlan(remote, Tv))
  }

  // ---------------------------------------------------------------------------
  // Reference definitions

  /** Whether `call` raises. */
  predicate Fails(remote: Remote, call: Call) {
    match call
    case ListCall(kind, page) => remote.ListPopular(kind, page).Failed?
    case DetailCall(kind, id) => remote.GetDetails(kind, id).Failed?
  }

  /** The records returned by the successful detail calls among `calls`, in order. */
  function Fetched(remote: Remote, calls: seq<Call>): seq<Record>
    decreases |calls|
  {
    if calls == [] then []
    else
      var last := calls[|calls| - 1];
      var here := match last
        case ListCall(_, _) => []
        case DetailCall(kind, id) =>
          match remote.GetDetails(kind, id)
          case Ok(rec) => [rec]
          case Failed => [];
      Fetched(remote, calls[..|calls| - 1]) + here
  }

  /** One detail call per summary, in the order the page lists them. */
  function DetailCalls(kind: Kind, items: seq<Summary>): (r: seq<Call>)
    ensures |r| == |items|
  {
    seq(|items|, i requires 0 <= i < |items| => DetailCall(kind, items[i].id))
  }

  /** The calls one page issues when nothing fails: its list call, then one detail call per summary. */
  function PageCalls(remote: Remote, kind: Kind, page: int): seq<Call> {
    [ListCall(kind, page)] +
    match remote.ListPopular(kind, page)
    case Ok(items) => DetailCalls(kind, items)
    case Failed => []
  }

  /** The calls of pages `FirstPage` to `n`, page after page. */
  function ExpectedCalls(remote: Remote, kind: Kind, n: nat): seq<Call>
    decreases n
  {
    if n < FirstPage then [] else ExpectedCalls(remote, kind, n - 1) + PageCalls(remote, kind, n)
  }

  /** The number of summaries pages `FirstPage` to `n` list. */
  function ListedItems(remote: Remote, kind: Kind, n: nat): nat
    decreases n
  {
    if n < FirstPage then 0
    else
      ListedItems(remote, kind, n - 1) +
      match remote.ListPopular(kind, n)
      case Ok(items) => |items|
      case Failed => 0
  }

  /** The number of list calls among `calls`. */
  function CountListCalls(calls: seq<Call>): nat
    decreases |calls|
  {
    if calls == [] then 0
    else CountListCalls(calls[..|calls| - 1]) + if calls[|calls| - 1].ListCall? then 1 else 0
  }

  /** Every list call of pages `FirstPage` to `n` and every detail call of their summaries succeeds. */
  ghost predicate PagesSucceed(remote: Remote, kind: Kind, n: nat) {
    forall page :: FirstPage <= page <= n ==>
      && remote.ListPopular(kind, page).Ok?
      && forall s :: s in remote.ListPopular(kind, page).value ==> remote.GetDetails(kind, s.id).Ok?
  }

  /**
   * Fail-fast: no call but the last one fails; the plan failed exactly when its
   * last call did; and it ingests exactly the records its successful detail
   * calls returned, so the failing call contributes nothing.
   */
  ghost predicate FailsFast(remote: Remote, p: Plan) {
    && (forall i :: 0 <= i < |p.calls| - 1 ==> !Fails(remote, p.calls[i]))
    && (p.failed <==> (p.calls != [] && Fails(remote, p.calls[|p.calls| - 1])))
    && p.records == Fetched(remote, p.calls)
  }

  /** Every call and every record of `p` belongs to one content type. */
  ghost predicate OfKind(p: Plan, kind: Kind) {
    && (forall i :: 0 <= i < |p.calls| ==> p.calls[i].kind == kind)
    && (forall i :: 0 <= i < |p.records| ==> p.records[i].Kind() == kind)
  }

  // ---------------------------------------------------------------------------
  // Lemmas

  lemma {:induction false} FetchedAppend(remote: Remote, a: seq<Call>, b: seq<Call>)
    ensures Fetched(remote, a + b) == Fetched(remote, a) + Fetched(remote, b)
    decreases |b|
  {
    if b == [] {
      assert a + b == a;
    } else {
      assert (a + b)[..|a + b| - 1] == a + b[..|b| - 1];
      FetchedAppend(remote, a, b[..|b| - 1]);
    }
  }

  lemma ThenFailsFast(remote: Remote, p: Plan, q: Plan)
    requires !p.failed && FailsFast(remote, p) && FailsFast(remote, q)
    ensures FailsFast(remote, Then(p, q))
  {
    var r := Then(p, q);
    FetchedAppend(remote, p.calls, q.calls);
    assert p.calls != [] ==> !Fails(remote, p.calls[|p.calls| - 1]);
    forall i | 0 <= i < |r.calls| - 1 ensures !Fails(remote, r.calls[i]) {
      if i < |p.calls| {
        assert r.calls[i] == p.calls[i];
      } else {
        assert r.calls[i] == q.calls[i - |p.calls|];
      }
    }
    if q.calls == [] {
      assert r.calls == p.calls;
    } else {
      assert r.calls[|r.calls| - 1] == q.calls[|q.calls| - 1];
    }
  }

  lemma ThenOfKind(p: Plan, q: Plan, kind: Kind)
    requires !p.failed && OfKind(p, kind) && OfKind(q, kind)
    ensures OfKind(Then(p, q), kind)
  {
  }

  lemma DetailCallsSnoc(kind: Kind, items: seq<Summary>)
    requires items != []
    ensures DetailCalls(kind, items)
         == DetailCalls(kind, items[..|items| - 1]) + [DetailCall(kind, items[|items| - 1].id)]
  {
  }

  /** The summaries of one page are fetched one by one, in the order listed, up to the first failure. */
  lemma {:induction false} ItemsPlanOrder(remote: Remote, kind: Kind, items: seq<Summary>)
    ensures ItemsPlan(remote, kind, items).calls <= DetailCalls(kind, items)
    ensures !ItemsPlan(remote, kind, items).failed ==> ItemsPlan(remote, kind, items).calls == DetailCalls(kind, items)
    decreases |items|
  {
    if items != [] {
      var init := items[..|items| - 1];
      ItemsPlanOrder(remote, kind, init);
      DetailCallsSnoc(kind, items);
      var p := ItemsPlan(remote, kind, init);
      if p.failed {
        assert DetailCalls(kind, init) <= DetailCalls(kind, items);
      }
    }
  }

  lemma ItemPlanFailsFast(remote: Remote, kind: Kind, s: Summary)
    ensures FailsFast(remote, ItemPlan(remote, kind, s))
    ensures OfKind(ItemPlan(remote, kind, s), kind)
  {
    var q := ItemPlan(remote, kind, s);
    assert q.calls[..0] == [];
  }

  lemma {:induction false} ItemsPlanFailsFast(remote: Remote, kind: Kind, items: seq<Summary>)
    ensures FailsFast(remote, ItemsPlan(remote, kind, items))
    ensures OfKind(ItemsPlan(remote, kind, items), kind)
    decreases |items|
  {
    if items != [] {
      var init := items[..|items| - 1];
      ItemsPlanFailsFast(remote, kind, init);
      var p := ItemsPlan(remote, kind, init);
      if !p.failed {
        var q := ItemPlan(remote, kind, items[|items| - 1]);
        ItemPlanFailsFast(remote, kind, items[|items| - 1]);
        ThenFailsFast(remote, p, q);
        ThenOfKind(p, q, kind);
      }
    }
  }

  lemma {:induction false} ItemsPlanSize(remote: Remote, kind: Kind, items: seq<Summary>)
    ensures !ItemsPlan(remote, kind, items).failed ==> |ItemsPlan(remote, kind, items).records| == |items|
    decreases |items|
  {
    if items != [] {
      ItemsPlanSize(remote, kind, items[..|items| - 1]);
    }
  }

  /** When every detail call of a page succeeds, so does the page's loop. */
  lemma {:induction false} ItemsPlanSucceeds(remote: Remote, kind: Kind, items: seq<Summary>)
    requires forall s :: s in items ==> remote.GetDetails(kind, s.id).Ok?
    ensures !ItemsPlan(remote, kind, items).failed
    decreases |items|
  {
    if items != [] {
      var init := items[..|items| - 1];
      assert forall s :: s in init ==> s in items;
      ItemsPlanSucceeds(remote, kind, init);
      assert items[|items| - 1] in items;
    }
  }

  /** Once the summaries' loop has failed, later summaries are never fetched. */
  lemma {:induction false} ItemsPlanStopsAtFailure(remote: Remote, kind: Kind, items: seq<Summary>, n: nat)
    requires n <= |items| && ItemsPlan(remote, kind, items[..n]).failed
    ensures ItemsPlan(remote, kind, items) == ItemsPlan(remote, kind, items[..n])
    decreases |items| - n
  {
    if n < |items| {
      assert items[..n + 1][..n] == items[..n];
      ItemsPlanStopsAtFailure(remote, kind, items, n + 1);
    } else {
      assert items[..n] == items;
    }
  }

  /** Once a pass has failed on some page, later pages are never listed. */
  lemma {:induction false} PagesPlanStopsAtFailure(remote: Remote, kind: Kind, n: nat, m: nat)
    requires n <= m && PagesPlan(remote, kind, n).failed
    ensures PagesPlan(remote, kind, m) == PagesPlan(remote, kind, n)
    decreases m - n
  {
    if n < m {
      PagesPlanStopsAtFailure(remote, kind, n, m - 1);
    }
  }

  /** One page: its list call first, then its summaries' detail calls, stopping at the first failure. */
  lemma PagePlanOrder(remote: Remote, kind: Kind, page: int)
    ensures var p := PagePlan(remote, kind, page);
            && p.calls <= PageCalls(remote, kind, page)
            && (!p.failed ==> p.calls == PageCalls(remote, kind, page))
  {
    match remote.ListPopular(kind, page)
    case Failed =>
      assert [ListCall(kind, page)][..0] == [];
    case Ok(items) =>
      ItemsPlanOrder(remote, kind, items);
  }

  /** One page fails fast. */
  lemma PagePlanFailsFast(remote: Remote, kind: Kind, page: int)
    ensures FailsFast(remote, PagePlan(remote, kind, page))
  {
    var head := Plan([ListCall(kind, page)], [], false);
    match remote.ListPopular(kind, page)
    case Failed =>
    case Ok(items) =>
      ItemsPlanFailsFast(remote, kind, items);
      assert head.calls[..0] == [];
      assert FailsFast(remote, head);
      ThenFailsFast(remote, head, ItemsPlan(remote, kind, items));
  }

  /** One page touches only its own content type. */
  lemma PagePlanOfKind(remote: Remote, kind: Kind, page: int)
    ensures OfKind(PagePlan(remote, kind, page), kind)
  {
    var head := Plan([ListCall(kind, page)], [], false);
    match remote.ListPopular(kind, page)
    case Failed =>
    case Ok(items) =>
      ItemsPlanFailsFast(remote, kind, items);
      assert OfKind(head, kind);
      ThenOfKind(head, ItemsPlan(remote, kind, items), kind);
  }

  /**
   * A pass lists pages in increasing order, each list call followed by one
   * detail call per summary in the order listed, and stops at the first
   * failure: its calls are a prefix of that order, all of it when nothing
   * failed.
   */
  lemma {:induction false} PagesPlanOrder(remote: Remote, kind: Kind, n: nat)
    ensures var p := PagesPlan(remote, kind, n);
            && p.calls <= ExpectedCalls(remote, kind, n)
            && (!p.failed ==> p.calls == ExpectedCalls(remote, kind, n))
    decreases n
  {
    if n >= FirstPage {
      PagesPlanOrder(remote, kind, n - 1);
      if PagesPlan(remote, kind, n - 1).failed {
        assert ExpectedCalls(remote, kind, n - 1) <= ExpectedCalls(remote, kind, n);
      } else {
        PagePlanOrder(remote, kind, n);
      }
    }
  }

  /** A pass fails fast. */
  lemma {:induction false} PagesPlanFailsFast(remote: Remote, kind: Kind, n: nat)
    ensures FailsFast(remote, PagesPlan(remote, kind, n))
    decreases n
  {
    if n >= FirstPage {
      PagesPlanFailsFast(remote, kind, n - 1);
      var p := PagesPlan(remote, kind, n - 1);
      if !p.failed {
        PagePlanFailsFast(remote, kind, n);
        ThenFailsFast(remote, p, PagePlan(remote, kind, n));
      }
    }
  }

  /** A pass touches only its own content type. */
  lemma {:induction false} PagesPlanOfKind(remote: Remote, kind: Kind, n: nat)
    ensures OfKind(PagesPlan(remote, kind, n), kind)
    decreases n
  {
    if n >= FirstPage {
      PagesPlanOfKind(remote, kind, n - 1);
      var p := PagesPlan(remote, kind, n - 1);
      if !p.failed {
        PagePlanOfKind(remote, kind, n);
        ThenOfKind(p, PagePlan(remote, kind, n), kind);
      }
    }
  }

  lemma {:induction false} CountListCallsAppend(a: seq<Call>, b: seq<Call>)
    ensures CountListCalls(a + b) == CountListCalls(a) + CountListCalls(b)
    decreases |b|
  {
    if b == [] {
      assert a + b == a;
    } else {
      assert (a + b)[..|a + b| - 1] == a + b[..|b| - 1];
      CountListCallsAppend(a, b[..|b| - 1]);
    }
  }

  lemma {:induction false} DetailCallsHaveNoListCall(kind: Kind, items: seq<Summary>)
    ensures CountListCalls(DetailCalls(kind, items)) == 0
    decreases |items|
  {
    if items != [] {
      DetailCallsSnoc(kind, items);
      DetailCallsHaveNoListCall(kind, items[..|items| - 1]);
    }
  }

  /** Pages `FirstPage` to `n` issue `n` list calls and one detail call per listed summary. */
  lemma {:induction false} ExpectedCallsCount(remote: Remote, kind: Kind, n: nat)
    ensures CountListCalls(ExpectedCalls(remote, kind, n)) == n
    ensures |ExpectedCalls(remote, kind, n)| == n + ListedItems(remote, kind, n)
    decreases n
  {
    if n >= FirstPage {
      ExpectedCallsCount(remote, kind, n - 1);
      var page := PageCalls(remote, kind, n);
      CountListCallsAppend(ExpectedCalls(remote, kind, n - 1), page);
      match remote.ListPopular(kind, n)
      case Ok(items) =>
        DetailCallsHaveNoListCall(kind, items);
        CountListCallsAppend([ListCall(kind, n)], DetailCalls(kind, items));
        assert CountListCalls([ListCall(kind, n)]) == 1 by {
          assert [ListCall(kind, n)][..0] == [];
        }
      case Failed =>
        assert [ListCall(kind, n)][..0] == [];
    }
  }

  /** When every call succeeds, the pages' loop ingests one record per listed summary. */
  lemma {:induction false} PagesPlanSucceeds(remote: Remote, kind: Kind, n: nat)
    requires PagesSucceed(remote, kind, n)
    ensures !PagesPlan(remote, kind, n).failed
    ensures |PagesPlan(remote, kind, n).records| == ListedItems(remote, kind, n)
    decreases n
  {
    if n >= FirstPage {
      assert PagesSucceed(remote, kind, n - 1);
      PagesPlanSucceeds(remote, kind, n - 1);
      var items := remote.ListPopular(kind, n).value;
      ItemsPlanSucceeds(remote, kind, items);
      ItemsPlanSize(remote, kind, items);
    }
  }

  /**
   * Pagination coverage: when every call succeeds, a pass issues exactly the
   * expected calls, one list call per page, and ingests one record per summary.
   */
  lemma PassCoverage(remote: Remote, kind: Kind)
    requires PagesSucceed(remote, kind, LastPage)
    ensures var p := PassPlan(remote, kind);
            && !p.failed
            && p.calls == ExpectedCalls(remote, kind, LastPage)
            && CountListCalls(p.calls) == LastPage
            && |p.calls| == LastPage + ListedItems(remote, kind, LastPage)
            && |p.records| == ListedItems(remote, kind, LastPage)
  {
    PagesPlanSucceeds(remote, kind, LastPage);
    PagesPlanOrder(remote, kind, LastPage);
    ExpectedCallsCount(remote, kind, LastPage);
  }

  /** With twenty summaries per page, a pass makes 5 list calls and 100 detail calls. */
  lemma TwentyPerPageCoverage(remote: Remote, kind: Kind)
    requires PagesSucceed(remote, kind, LastPage)
    requires forall page :: FirstPage <= page <= LastPage ==> |remote.ListPopular(kind, page).value| == 20
    ensures var p := PassPlan(remote, kind);
            && CountListCalls(p.calls) == 5 && |p.calls| - CountListCalls(p.calls) == 100
            && |p.records| == 100
  {
    PassCoverage(remote, kind);
    assert ListedItems(remote, kind, 0) == 0;
    assert ListedItems(remote, kind, 1) == 20;
    assert ListedItems(remote, kind, 2) == 40;
    assert ListedItems(remote, kind, 3) == 60;
    assert ListedItems(remote, kind, 4) == 80;
  }

  /** The run fails fast across both passes. */
  lemma RunPlanFailsFast(remote: Remote)
    ensures FailsFast(remote, RunPlan(remote))
  {
    PagesPlanFailsFast(remote, Movie, LastPage);
    PagesPlanFailsFast(remote, Tv, LastPage);
    var m := PassPlan(remote, Movie);
    if !m.failed {
      ThenFailsFast(remote, m, PassPlan(remote, Tv));
    }
  }

  /** The run starts with the whole movie pass, and a failed movie pass is the whole run. */
  lemma MovieCallsLead(remote: Remote)
    ensures var r, m := RunPlan(remote), PassPlan(remote, Movie);
            && m.calls <= r.calls
            && (forall i :: 0 <= i < |m.calls| ==> r.calls[i].kind == Movie)
            && (m.failed ==> r == m)
  {
    var m, r := PassPlan(remote, Movie), RunPlan(remote);
    PagesPlanOfKind(remote, Movie, LastPage);
    assert m.calls <= r.calls;
    forall i | 0 <= i < |m.calls| ensures r.calls[i].kind == Movie {
      assert r.calls[i] == m.calls[i];
    }
  }

  /** The calls `q` adds after `p` are `q`'s own. */
  lemma ThenCallsAfter(p: Plan, q: Plan, kind: Kind)
    requires !p.failed && forall j :: 0 <= j < |q.calls| ==> q.calls[j].kind == kind
    ensures forall i :: |p.calls| <= i < |Then(p, q).calls| ==> Then(p, q).calls[i].kind == kind
  {
    var c := Then(p, q).calls;
    forall i | |p.calls| <= i < |c| ensures c[i].kind == kind {
      assert c[i] == q.calls[i - |p.calls|];
    }
  }

  /** Every call after the movie pass is a TV call. */
  lemma TvCallsFollow(remote: Remote)
    ensures var r, m := RunPlan(remote), PassPlan(remote, Movie);
            forall i :: |m.calls| <= i < |r.calls| ==> r.calls[i].kind == Tv
  {
    var m := PassPlan(remote, Movie);
    if !m.failed {
      PagesPlanOfKind(remote, Tv, LastPage);
      ThenCallsAfter(m, PassPlan(remote, Tv), Tv);
    }
  }

  /**
   * The movie pass runs to its end before the TV pass issues its first call,
   * and a failure in the movie pass ends the run.
   */
  lemma MoviePassBeforeTvPass(remote: Remote)
    ensures var r := RunPlan(remote);
            var m := PassPlan(remote, Movie);
            && m.calls <= r.calls
            && (forall i :: 0 <= i < |m.calls| ==> r.calls[i].kind == Movie)
            && (forall i :: |m.calls| <= i < |r.calls| ==> r.calls[i].kind == Tv)
            && (m.failed ==> r == m)
  {
    MovieCallsLead(remote);
    TvCallsFollow(remote);
  }

  /** The run's calls are a prefix of the whole movie order followed by the whole TV order. */
  lemma RunPlanCallOrder(remote: Remote)
    ensures var r := RunPlan(remote);
            var expected := ExpectedCalls(remote, Movie, LastPage) + ExpectedCalls(remote, Tv, LastPage);
            && r.calls <= expected
            && (!r.failed ==> r.calls == expected)
  {
    var m := PassPlan(remote, Movie);
    var em := ExpectedCalls(remote, Movie, LastPage);
    var et := ExpectedCalls(remote, Tv, LastPage);
    PagesPlanOrder(remote, Movie, LastPage);
    if m.failed {
      assert em <= em + et;
    } else {
      PagesPlanOrder(remote, Tv, LastPage);
      assert m.calls == em;
    }
  }

  /**
   * Re-running against the same remote data leaves the tables as one run
   * left them: the run's records do not depend on the tables, and replaying
   * them changes nothing.
   */
  lemma RerunIsIdempotent(t: Tables, remote: Remote)
    ensures var rs := RunPlan(remote).records;
            IngestAll(IngestAll(t, rs), rs) == IngestAll(t, rs)
  {
    IngestAllIdempotent(t, RunPlan(remote).records);
  }
}
