/** One schedule request: which sessions are scraped, which are served from the GEI cache, and what
    the response is. */
module ScheduleResolve {
  import opened Options
  import opened ScheduleMapping
  import opened Sessions
  import opened WorkerPool

  type Schedules = seq<Response<Subject>>

  /** i-Ma'luum as one attempt sees it: how each query ends when it is fetched (the empty query lists
      the sessions), the midnight that dates the times, and the number parsers. */
  datatype Snapshot = Snapshot(fetch: string -> Fetch<ScheduleData>, midnight: int, numbers: Numbers)

  function View(up: Snapshot): ScheduleData -> seq<Subject> {
    (d: ScheduleData) => SubjectsOf(d, up.midnight, up.numbers)
  }

  /* ---------- Jobs ---------- */

  function Zip(queries: seq<string>, names: seq<string>): seq<Job>
    requires |queries| == |names|
  {
    seq(|queries|, i requires 0 <= i < |queries| => Job(queries[i], names[i]))
  }

  function ConfigOf(up: Snapshot, jobs: seq<Job>): (c: Config<ScheduleData, Subject>)
    ensures c.Valid()
  {
    Config(jobs, seq(|jobs|, i requires 0 <= i < |jobs| => up.fetch(jobs[i].query)), View(up))
  }

  /** The responses by query; of several with the same query the last one counts. */
  function ByQuery(rs: Schedules): map<string, Response<Subject>> {
    if rs == [] then map[]
    else ByQuery(rs[..|rs| - 1])[rs[|rs| - 1].sessionQuery := rs[|rs| - 1]]
  }

  /** The jobs for the newest session and for every session that is not cached. */
  function Plan(jobs: seq<Job>, cachedByQuery: map<string, Response<Subject>>, latest: string): seq<Job> {
    if jobs == [] then []
    else
      var job := jobs[|jobs| - 1];
      Plan(jobs[..|jobs| - 1], cachedByQuery, latest) +
      if job.query == latest || job.query !in cachedByQuery then [job] else []
  }

  /** In the order of the queries: the scraped response, else the cached one. */
  function Merge(queries: seq<string>, scraped: map<string, Response<Subject>>, cached: map<string,
      Response<Subject>>): Schedules {
    if queries == [] then []
    else
      var q := queries[|queries| - 1];
      Merge(queries[..|queries| - 1], scraped, cached) +
      if q in scraped then [scraped[q]] else if q in cached then [cached[q]] else []
  }

  /** The cache is read only when nothing forces a scrape, and only counts when it is not empty. */
  predicate UsesCache(cached: Option<Schedules>, refresh: bool) {
    !refresh && cached.Some? && cached.value != []
  }

  function Latest(jobs: seq<Job>): string
    requires jobs != []
  {
    jobs[LatestIndex(JobNames(jobs))].query
  }

  function JobNames(jobs: seq<Job>): seq<string> {
    seq(|jobs|, i requires 0 <= i < |jobs| => jobs[i].name)
  }

  function JobQueries(jobs: seq<Job>): seq<string> {
    seq(|jobs|, i requires 0 <= i < |jobs| => jobs[i].query)
  }

  /** The sessions this request scrapes. */
  function ToScrape(cached: Option<Schedules>, refresh: bool, jobs: seq<Job>): seq<Job>
    requires jobs != []
  {
    if UsesCache(cached, refresh) then Plan(jobs, ByQuery(cached.value), Latest(jobs)) else jobs
  }

  /** The result, given what the pool returned for the scraped sessions. */
  function Resolved(cached: Option<Schedules>, refresh: bool, jobs: seq<Job>, pool: Outcome<Subject>): Outcome<Subject>
  {
    if !UsesCache(cached, refresh) || pool.Errors? then pool
    else Responses(Merge(JobQueries(jobs), ByQuery(pool.responses), ByQuery(cached.value)))
  }

  /* ---------- The code ---------- */

  method IndexByQuery(rs: Schedules) returns (m: map<string, Response<Subject>>)
    ensures m == ByQuery(rs)
  {
    m := map[];
    for k := 0 to |rs|
      invariant m == ByQuery(rs[..k])
    {
      assert rs[..k + 1][..k] == rs[..k];
      m := m[rs[k].sessionQuery := rs[k]];
    }
    assert rs[..|rs|] == rs;
  }

  method PlanScrape(queries: seq<string>, names: seq<string>, cachedByQuery: map<string, Response<Subject>>,
      latest: string)
      returns (jobs: seq<Job>)
    requires |queries| == |names|
    ensures jobs == Plan(Zip(queries, names), cachedByQuery, latest)
  {
    var all := Zip(queries, names);
    jobs := [];
    for k := 0 to |queries|
      invariant jobs == Plan(all[..k], cachedByQuery, latest)
    {
      assert all[..k + 1][..k] == all[..k];
      if queries[k] == latest || queries[k] !in cachedByQuery {
        jobs := jobs + [Job(queries[k], names[k])];
      }
    }
    assert all[..|all|] == all;
  }

  method MergeSchedules(queries: seq<string>, scraped: map<string, Response<Subject>>, cached: map<string,
      Response<Subject>>)
      returns (merged: Schedules)
    ensures merged == Merge(queries, scraped, cached)
  {
    merged := [];
    for k := 0 to |queries|
      invariant merged == Merge(queries[..k], scraped, cached)
    {
      assert queries[..k + 1][..k] == queries[..k];
      var q := queries[k];
      if q in scraped {
        merged := merged + [scraped[q]];
      } else if q in cached {
        merged := merged + [cached[q]];
      }
    }
    assert queries[..|queries|] == queries;
  }

  /** resolveSchedules.  `cached` is what the GEI cache answered: nothing on a miss, on a failed read
      and without a GEI client.  It does not return if the pool does not. */
  method ResolveSchedules(cached: Option<Schedules>, refresh: bool, queries: seq<string>, names: seq<string>,
      up: Snapshot)
      returns (out: Option<Outcome<Subject>>, stale: bool, results: seq<Result<Subject>>)
    requires |queries| == |names| > 0
    ensures var c := ConfigOf(up, ToScrape(cached, refresh, Zip(queries, names)));
            && (out.Some? <==> NoPanics(c))
            && (out.Some? ==> PoolPost(c, stale, results) &&
                              out.value == Resolved(cached, refresh, Zip(queries, names), Summary(results)))
  {
    ghost var all := Zip(queries, names);
    if refresh || cached.None? || cached.value == [] {
      out, stale, results := RunPool(ConfigOf(up, Zip(queries, names)));
      return;
    }
    var cachedByQuery := IndexByQuery(cached.value);
    var latest := LatestSessionQuery(queries, names);
    assert names[..|names|] == names == JobNames(all);
    assert JobQueries(all) == queries;
    var jobs := PlanScrape(queries, names, cachedByQuery, latest);
    var scraped;
    scraped, stale, results := RunPool(ConfigOf(up, jobs));
    if scraped.None? {
      out := None;
      return;
    }
    if scraped.value.Errors? {
      out := scraped;
      return;
    }
    var scrapedByQuery := IndexByQuery(scraped.value.responses);
    var merged := MergeSchedules(queries, scrapedByQuery, cachedByQuery);
    out := Some(Responses(merged));
  }

  /* ---------- Exact coverage ---------- */

  lemma {:induction false} ByQueryHas(rs: Schedules, q: string)
    ensures q in ByQuery(rs) ==> ByQuery(rs)[q] in rs && ByQuery(rs)[q].sessionQuery == q
    ensures forall k :: 0 <= k < |rs| && rs[k].sessionQuery == q ==> q in ByQuery(rs)
  {
    if rs != [] {
      ByQueryHas(rs[..|rs| - 1], q);
    }
  }

  lemma {:induction false} PlanExactly(jobs: seq<Job>, cachedByQuery: map<string, Response<Subject>>, latest: string,
      job: Job)
    ensures job in Plan(jobs, cachedByQuery, latest) <==>
            job in jobs && (job.query == latest || job.query !in cachedByQuery)
  {
    if jobs != [] {
      var n := |jobs| - 1;
      PlanExactly(jobs[..n], cachedByQuery, latest, job);
      assert jobs == jobs[..n] + [jobs[n]];
    }
  }

  /** The plan keeps the order of the sessions, and repeats none. */
  lemma {:induction false} PlanInOrder(xs: seq<Job>, ys: seq<Job>, cachedByQuery: map<string, Response<Subject>>,
      latest: string)
    ensures Plan(xs + ys, cachedByQuery, latest) == Plan(xs, cachedByQuery, latest) + Plan(ys, cachedByQuery, latest)
    ensures |Plan(xs, cachedByQuery, latest)| <= |xs|
  {
    if xs != [] && ys == [] {
      PlanInOrder(xs[..|xs| - 1], [], cachedByQuery, latest);
    }
    if ys == [] {
      assert xs + ys == xs;
    } else {
      var n := |ys| - 1;
      PlanInOrder(xs, ys[..n], cachedByQuery, latest);
      assert (xs + ys)[..|xs + ys| - 1] == xs + ys[..n];
    }
  }

  /** Of several responses with one query the last one counts. */
  lemma {:induction false} ByQueryIsLast(rs: Schedules, k: nat)
    requires k < |rs| && forall j :: k < j < |rs| ==> rs[j].sessionQuery != rs[k].sessionQuery
    ensures rs[k].sessionQuery in ByQuery(rs) && ByQuery(rs)[rs[k].sessionQuery] == rs[k]
  {
    var n := |rs| - 1;
    if k < n {
      ByQueryIsLast(rs[..n], k);
    }
  }

  /** On the cache path the newest session is always scraped, so the pool never runs on nothing. */
  lemma NewestIsScraped(cached: Option<Schedules>, refresh: bool, jobs: seq<Job>)
    requires jobs != []
    ensures jobs[LatestIndex(JobNames(jobs))] in ToScrape(cached, refresh, jobs)
  {
    if UsesCache(cached, refresh) {
      PlanExactly(jobs, ByQuery(cached.value), Latest(jobs), jobs[LatestIndex(JobNames(jobs))]);
    }
  }

  lemma {:induction false} MergeExactly(queries: seq<string>, scraped: map<string, Response<Subject>>,
      cached: map<string, Response<Subject>>)
    requires forall i :: 0 <= i < |queries| ==> queries[i] in scraped || queries[i] in cached
    ensures |Merge(queries, scraped, cached)| == |queries|
    ensures forall i :: 0 <= i < |queries| ==>
              Merge(queries, scraped, cached)[i] ==
                  if queries[i] in scraped then scraped[queries[i]] else cached[queries[i]]
  {
    if queries != [] {
      MergeExactly(queries[..|queries| - 1], scraped, cached);
    }
  }

  /** A pool that returns schedules returns one for each job, with its name and query. */
  lemma PoolCovers<D, T>(c: Config<D, T>, stale: bool, results: seq<Result<T>>)
    requires PoolPost(c, stale, results) && Summary(results).Responses?
    ensures |Summary(results).responses| == |results|
    ensures forall k :: 0 <= k < |results| ==>
              results[k].job < |c.jobs| && results[k].body.Scraped? &&
              Summary(results).responses[k] == results[k].body.response &&
              results[k].body.response.sessionQuery == c.jobs[results[k].job].query &&
              results[k].body.response.sessionName == c.jobs[results[k].job].name
  {
    forall k | 0 <= k < |results|
      ensures results[k].job < |c.jobs| && results[k].body.Scraped?
      ensures results[k].body.response.sessionQuery == c.jobs[results[k].job].query
      ensures results[k].body.response.sessionName == c.jobs[results[k].job].name
    {
      assert ResultOk(c, stale, results[k]);
      if results[k].body.Failed? {
        FailureIsReported(results, k);
      }
    }
    AllScraped(results);
  }

  /** The queries with a scraped response are exactly the queries of the jobs. */
  lemma ScrapedQueries(c: Config<ScheduleData, Subject>, stale: bool, results: seq<Result<Subject>>, q: string)
    requires PoolPost(c, stale, results) && Summary(results).Responses?
    ensures q in ByQuery(Summary(results).responses) <==> exists j :: 0 <= j < |c.jobs| && c.jobs[j].query == q
  {
    var rs := Summary(results).responses;
    PoolCovers(c, stale, results);
    ByQueryHas(rs, q);
    if q in ByQuery(rs) {
      var k :| 0 <= k < |rs| && rs[k] == ByQuery(rs)[q];
      assert c.jobs[results[k].job].query == q;
    }
    if j: nat :| j < |c.jobs| && c.jobs[j].query == q {
      var k := TimesMember(JobsOf(results), j);
      assert rs[k].sessionQuery == q;
    }
  }

  /** On the cache path a result has the queries of the dropdown, in its order: the newest session and
      the sessions missing from the cache come from this request's scrape, all others from the cache,
      and no cached session that is no longer offered appears. */
  lemma CoverageOfMerge(cached: Option<Schedules>, refresh: bool, jobs: seq<Job>, up: Snapshot, stale: bool,
      results: seq<Result<Subject>>)
    requires jobs != [] && UsesCache(cached, refresh)
    requires PoolPost(ConfigOf(up, ToScrape(cached, refresh, jobs)), stale, results) && Summary(results).Responses?
    ensures var rs := Resolved(cached, refresh, jobs, Summary(results)).responses;
            && |rs| == |jobs|
            && forall i :: 0 <= i < |jobs| ==>
                 && rs[i].sessionQuery == jobs[i].query
                 && if jobs[i].query == Latest(jobs) || jobs[i].query !in ByQuery(cached.value)
                    then rs[i] in Summary(results).responses
                    else rs[i] == ByQuery(cached.value)[jobs[i].query]
  {
    var c := ConfigOf(up, ToScrape(cached, refresh, jobs));
    var s, m := ByQuery(Summary(results).responses), ByQuery(cached.value);
    forall i | 0 <= i < |jobs|
      ensures jobs[i].query in s <==> jobs[i].query == Latest(jobs) || jobs[i].query !in m
      ensures jobs[i].query in s ==>
              s[jobs[i].query] in Summary(results).responses && s[jobs[i].query].sessionQuery == jobs[i].query
      ensures jobs[i].query in m ==> m[jobs[i].query].sessionQuery == jobs[i].query
    {
      ScrapedQueries(c, stale, results, jobs[i].query);
      ByQueryHas(Summary(results).responses, jobs[i].query);
      ByQueryHas(cached.value, jobs[i].query);
      PlanExactly(jobs, m, Latest(jobs), jobs[i]);
      forall j | 0 <= j < |c.jobs| && c.jobs[j].query == jobs[i].query
        ensures jobs[i].query == Latest(jobs) || jobs[i].query !in m
      {
        PlanExactly(jobs, m, Latest(jobs), c.jobs[j]);
      }
    }
    MergeExactly(JobQueries(jobs), s, m);
  }
}
