/** The schedule handler over whole runs of requests: what it returns compared with a full scrape, and
    what it ever stores in the GEI cache. */
module ScheduleCache {
  import opened Options
  import opened Retry
  import opened ScheduleMapping
  import opened Sessions
  import opened WorkerPool
  import opened ScheduleResolve

  /* ---------- One attempt ---------- */

  /** One run of the handler's scrape: what i-Ma'luum answers, what the cache read returned, and how
      the pool, if it ran, ended. */
  datatype Attempt = Attempt(up: Snapshot, cached: Option<Schedules>, stale: bool, results: seq<Result<Subject>>)

  /** How an attempt ends.  Panicked: the panic leaves the handler.  Hung: the collector of the pool
      waits for the result of a job that panicked. */
  datatype Attempted = Bounced | Failure(error: Error) | Success(schedules: Schedules) | Panicked | Hung

  function JobsFor(refs: seq<SessionRef>): seq<Job> {
    Zip(QueriesOf(refs), NamesOf(refs))
  }

  /** The sessions in the dropdown. */
  function Dropdown(up: Snapshot): seq<SessionRef> {
    var list := up.fetch("");
    if list.Payload? then Offered(list.data.allSem) else []
  }

  /** The pool's input: the sessions to scrape. */
  function PoolOf(refresh: bool, a: Attempt): Config<ScheduleData, Subject>
    requires Dropdown(a.up) != []
  {
    ConfigOf(a.up, ToScrape(a.cached, refresh, JobsFor(Dropdown(a.up))))
  }

  /** If sessions are listed and no job panics, the pool ran on the sessions to scrape. */
  ghost predicate AttemptOk(refresh: bool, a: Attempt) {
    Dropdown(a.up) != [] && NoPanics(PoolOf(refresh, a)) ==> PoolPost(PoolOf(refresh, a), a.stale, a.results)
  }

  function AfterResolve(out: Outcome<Subject>, stale: bool): Attempted {
    if out.Errors? then Failure(out.error) else if stale then Bounced else Success(out.responses)
  }

  function AttemptResult(refresh: bool, a: Attempt): Attempted {
    match a.up.fetch("")
    case Payload(_) =>
      if Dropdown(a.up) == [] then Failure(ScheduleIsEmpty)
      else if !NoPanics(PoolOf(refresh, a)) then Hung
      else AfterResolve(Resolved(a.cached, refresh, JobsFor(Dropdown(a.up)), Summary(a.results)), a.stale)
    case Bounce => Bounced
    case PageFails(e) => Failure(e)
    case DataFails(e) => Failure(e)
    case Panics => Panicked
    case _ => Failure(ScheduleIsEmpty)
  }

  method RunAttempt(refresh: bool, up: Snapshot, cached: Option<Schedules>) returns (result: Attempted, a: Attempt)
    ensures a.up == up && a.cached == cached && AttemptOk(refresh, a) && result == AttemptResult(refresh, a)
  {
    a := Attempt(up, cached, false, []);
    var list := up.fetch("");
    match list {
      case Payload(data) =>
        var queries, names := SessionsFromAllSem(data.allSem);
        if queries == [] {
          return Failure(ScheduleIsEmpty), a;
        }
        var out, stale, results := ResolveSchedules(cached, refresh, queries, names, up);
        a := Attempt(up, cached, stale, results);
        result := if out.None? then Hung else AfterResolve(out.value, stale);
      case Bounce => result := Bounced;
      case PageFails(e) => result := Failure(e);
      case DataFails(e) => result := Failure(e);
      case Panics => result := Panicked;
      case _ => result := Failure(ScheduleIsEmpty);
    }
  }

  /** An attempt bounces if and only if the page that lists the sessions does, or sessions are listed, the
      pool returns without an error, and some page that it loaded bounced. */
  lemma AttemptBouncesExactly(refresh: bool, a: Attempt)
    requires AttemptOk(refresh, a)
    ensures AttemptResult(refresh, a).Bounced? <==>
            a.up.fetch("").Bounce? ||
            (Dropdown(a.up) != [] && NoPanics(PoolOf(refresh, a)) && Summary(a.results).Responses? &&
             SomeBounce(PoolOf(refresh, a)))
  {
  }

  /** How an attempt ends when it does not bounce: by the page that lists the sessions ... */
  lemma ListPageDecides(refresh: bool, a: Attempt)
    ensures a.up.fetch("").PageFails? || a.up.fetch("").DataFails? ==>
              AttemptResult(refresh, a) == Failure(a.up.fetch("").error)
    ensures a.up.fetch("").Null? || a.up.fetch("").NoToken? ==> AttemptResult(refresh, a) == Failure(ScheduleIsEmpty)
    ensures a.up.fetch("").Payload? && Dropdown(a.up) == [] ==> AttemptResult(refresh, a) == Failure(ScheduleIsEmpty)
    ensures a.up.fetch("").Panics? ==> AttemptResult(refresh, a) == Panicked
  {
  }

  /** ... and otherwise by the pool. */
  lemma PoolDecides(refresh: bool, a: Attempt)
    requires AttemptOk(refresh, a) && Dropdown(a.up) != []
    ensures AttemptResult(refresh, a).Hung? <==> !NoPanics(PoolOf(refresh, a))
    ensures NoPanics(PoolOf(refresh, a)) && Summary(a.results).Errors? ==>
              AttemptResult(refresh, a) == Failure(Summary(a.results).error)
    ensures AttemptResult(refresh, a).Success? <==>
            NoPanics(PoolOf(refresh, a)) && Summary(a.results).Responses? && !SomeBounce(PoolOf(refresh, a))
  {
  }

  /* ---------- Only answers of i-Ma'luum ---------- */

  /** The schedule of `r` is what i-Ma'luum answered for its query. */
  predicate Answers(up: Snapshot, r: Response<Subject>) {
    Answer(up.fetch(r.sessionQuery), View(up)) == Some(r.schedule)
  }

  lemma PoolAnswers(up: Snapshot, jobs: seq<Job>, results: seq<Result<Subject>>)
    requires PoolPost(ConfigOf(up, jobs), false, results) && Summary(results).Responses?
    ensures AllAnswered(ConfigOf(up, jobs))
    ensures multiset(Summary(results).responses) == multiset(AllExpected(ConfigOf(up, jobs), |jobs|))
    ensures forall k :: 0 <= k < |Summary(results).responses| ==>
              Answers(up, Summary(results).responses[k]) &&
              exists j :: 0 <= j < |jobs| && Summary(results).responses[k] == Expected(ConfigOf(up, jobs), j)
  {
    var c := ConfigOf(up, jobs);
    var rs := Summary(results).responses;
    UnflaggedIsGenuine(c, false, results);
    PoolReturnsAll(c, false, results);
    PoolCovers(c, false, results);
    forall k | 0 <= k < |rs|
      ensures Answers(up, rs[k]) && exists j :: 0 <= j < |jobs| && rs[k] == Expected(c, j)
    {
      assert rs[k] == Expected(c, results[k].job);
    }
  }

  /** A cached response stands in for the session with this query. */
  predicate StandsIn(refresh: bool, a: Attempt, query: string) {
    UsesCache(a.cached, refresh) && Dropdown(a.up) != [] && query in QueriesOf(Dropdown(a.up)) &&
    query != Latest(JobsFor(Dropdown(a.up))) && query in ByQuery(a.cached.value)
  }

  /** Every response of a successful attempt comes from the cache, if a cached response stands in for
      its session, and otherwise is an answer of this attempt. */
  lemma SuccessIsGenuine(refresh: bool, a: Attempt, i: nat)
    requires AttemptOk(refresh, a) && AttemptResult(refresh, a).Success?
    requires i < |AttemptResult(refresh, a).schedules|
    ensures var r := AttemptResult(refresh, a).schedules[i];
            if StandsIn(refresh, a, r.sessionQuery) then r in a.cached.value else Answers(a.up, r)
  {
    var jobs := JobsFor(Dropdown(a.up));
    var rs := AttemptResult(refresh, a).schedules;
    PoolAnswers(a.up, ToScrape(a.cached, refresh, jobs), a.results);
    if UsesCache(a.cached, refresh) {
      CoverageOfMerge(a.cached, refresh, jobs, a.up, a.stale, a.results);
      ByQueryHas(a.cached.value, jobs[i].query);
      assert jobs[i].query == QueriesOf(Dropdown(a.up))[i];
    }
  }

  /* ---------- The full scrape ---------- */

  /** The names of the sessions in the dropdown. */
  ghost function DropdownNames(up: Snapshot): iset<string> {
    iset i | 0 <= i < |Dropdown(up)| :: NameOf(Dropdown(up)[i])
  }

  /** The queries of the sessions in the dropdown tell where the year ends. */
  ghost predicate KeyedDropdown(up: Snapshot) {
    forall i :: 0 <= i < |Dropdown(up)| ==> Keyed(Dropdown(up)[i])
  }

  /** The sessions of the dropdown have a sorted order, and their names determine it. */
  ghost predicate SortableDropdown(up: Snapshot) {
    var refs := Dropdown(up);
    KeyedDropdown(up) && OrderWorks(DropdownNames(up)) &&
    forall i, j :: 0 <= i < |refs| && 0 <= j < |refs| && NameOf(refs[i]) == NameOf(refs[j]) ==> refs[i] == refs[j]
  }

  /** Sessions without commas are sortable. */
  lemma PlainIsSortable(up: Snapshot)
    requires forall i :: 0 <= i < |Dropdown(up)| ==> PlainRef(Dropdown(up)[i]) && Keyed(Dropdown(up)[i])
    ensures SortableDropdown(up)
  {
    var refs := Dropdown(up);
    forall i, j | 0 <= i < |refs| && 0 <= j < |refs|
      ensures WellFormed(NameOf(refs[i])) && (NameOf(refs[i]) == NameOf(refs[j]) ==> refs[i] == refs[j])
    {
      PlainRefs(refs[i], refs[j]);
    }
    WellFormedNamesWork(DropdownNames(up));
  }

  /** What a scrape of one session yields, if it is answered. */
  function ScrapeOf(up: Snapshot, ref: SessionRef): Response<Subject> {
    var a := Answer(up.fetch(QueryOf(ref)), View(up));
    Response(NameOf(ref), QueryOf(ref), if a.Some? then a.value else [])
  }

  function ScrapesOf(up: Snapshot, refs: seq<SessionRef>): (rs: Schedules)
    ensures |rs| == |refs| && forall i :: 0 <= i < |refs| ==> rs[i] == ScrapeOf(up, refs[i])
  {
    seq(|refs|, i requires 0 <= i < |refs| => ScrapeOf(up, refs[i]))
  }

  predicate Answered(up: Snapshot, ref: SessionRef) {
    Answer(up.fetch(QueryOf(ref)), View(up)).Some?
  }

  /** The response of a request that scrapes every session; there is one if sessions are listed and all
      of them are answered. */
  function FullScrape(up: Snapshot): Option<Schedules> {
    if Dropdown(up) != [] && forall i :: 0 <= i < |Dropdown(up)| ==> Answered(up, Dropdown(up)[i]) then
      Some(Sorted(ScrapesOf(up, Dropdown(up))))
    else None
  }

  /** A view of a schedule under which schedules are compared: all of it, or all but the dates. */
  type Norm = seq<Subject> -> seq<Subject>

  function Normed(norm: Norm, r: Response<Subject>): Response<Subject> {
    r.(schedule := norm(r.schedule))
  }

  function AllNormed(norm: Norm, rs: Schedules): (ns: Schedules)
    ensures |ns| == |rs| && forall i :: 0 <= i < |rs| ==> ns[i] == Normed(norm, rs[i])
  {
    seq(|rs|, i requires 0 <= i < |rs| => Normed(norm, rs[i]))
  }

  lemma {:induction false} InsertCommutes(norm: Norm, r: Response<Subject>, rs: Schedules)
    ensures AllNormed(norm, Insert(r, rs)) == Insert(Normed(norm, r), AllNormed(norm, rs))
  {
    if rs != [] {
      InsertCommutes(norm, r, rs[1..]);
      assert AllNormed(norm, rs)[1..] == AllNormed(norm, rs[1..]);
    }
  }

  /** Sorting looks at names only. */
  lemma {:induction false} SortedCommutes(norm: Norm, rs: Schedules)
    ensures AllNormed(norm, Sorted(rs)) == Sorted(AllNormed(norm, rs))
  {
    if rs != [] {
      SortedCommutes(norm, rs[1..]);
      InsertCommutes(norm, rs[0], Sorted(rs[1..]));
      assert AllNormed(norm, rs)[1..] == AllNormed(norm, rs[1..]);
    }
  }

  /** `r` carries the name and the query of one session. */
  ghost predicate Named(r: Response<Subject>) {
    exists ref :: Keyed(ref) && r.sessionName == NameOf(ref) && r.sessionQuery == QueryOf(ref)
  }

  /** Up to `norm`, the schedule of `r` is what i-Ma'luum answers now. */
  ghost predicate Current(norm: Norm, up: Snapshot, r: Response<Subject>) {
    var a := Answer(up.fetch(r.sessionQuery), View(up));
    a.Some? && norm(r.schedule) == norm(a.value)
  }

  lemma NamedAsRef(r: Response<Subject>, ref: SessionRef)
    requires Named(r) && Keyed(ref) && r.sessionQuery == QueryOf(ref)
    ensures r.sessionName == NameOf(ref)
  {
    var own :| Keyed(own) && r.sessionName == NameOf(own) && r.sessionQuery == QueryOf(own);
    KeyedRefs(own, ref);
  }

  /** A job's response is the scrape of its session. */
  lemma ExpectedIsScrape(up: Snapshot, jobs: seq<Job>, j: nat, ref: SessionRef)
    requires j < |jobs| && jobs[j] == Job(QueryOf(ref), NameOf(ref)) && AllAnswered(ConfigOf(up, jobs))
    ensures Expected(ConfigOf(up, jobs), j) == ScrapeOf(up, ref)
  {
    assert ConfigOf(up, jobs).fetch[j] == up.fetch(QueryOf(ref));
  }

  /** Without the cache a success is a permutation of the scrapes of all sessions. */
  lemma UncachedSuccess(refresh: bool, a: Attempt)
    requires AttemptOk(refresh, a) && AttemptResult(refresh, a).Success? && !UsesCache(a.cached, refresh)
    ensures multiset(AttemptResult(refresh, a).schedules) == multiset(ScrapesOf(a.up, Dropdown(a.up)))
    ensures forall i :: 0 <= i < |Dropdown(a.up)| ==> Answered(a.up, Dropdown(a.up)[i])
  {
    var refs := Dropdown(a.up);
    var jobs := JobsFor(refs);
    PoolAnswers(a.up, jobs, a.results);
    forall i | 0 <= i < |refs|
      ensures Answered(a.up, refs[i])
      ensures AllExpected(ConfigOf(a.up, jobs), |jobs|)[i] == ScrapeOf(a.up, refs[i])
    {
      ExpectedIsScrape(a.up, jobs, i, refs[i]);
      assert ConfigOf(a.up, jobs).fetch[i] == a.up.fetch(QueryOf(refs[i]));
    }
    assert AllExpected(ConfigOf(a.up, jobs), |jobs|) == ScrapesOf(a.up, refs);
  }

  /** A cached response stands in for session `i` of the dropdown. */
  predicate ServedFromCache(refresh: bool, a: Attempt, i: nat)
    requires i < |Dropdown(a.up)|
  {
    StandsIn(refresh, a, QueryOf(Dropdown(a.up)[i]))
  }

  function CachedFor(refresh: bool, a: Attempt, i: nat): Response<Subject>
    requires i < |Dropdown(a.up)| && ServedFromCache(refresh, a, i)
  {
    ByQuery(a.cached.value)[QueryOf(Dropdown(a.up)[i])]
  }

  /** The response without sorting: per session of the dropdown the cached response or a scrape. */
  function ServedFor(refresh: bool, a: Attempt): (rs: Schedules)
    ensures |rs| == |Dropdown(a.up)|
    ensures forall i :: 0 <= i < |rs| ==>
              rs[i] == if ServedFromCache(refresh, a, i) then CachedFor(refresh, a, i)
                  else ScrapeOf(a.up, Dropdown(a.up)[i])
  {
    seq(|Dropdown(a.up)|, i requires 0 <= i < |Dropdown(a.up)| =>
      if ServedFromCache(refresh, a, i) then CachedFor(refresh, a, i) else ScrapeOf(a.up, Dropdown(a.up)[i]))
  }

  /** Planned jobs are jobs of the dropdown. */
  lemma PlannedJobIsListed(cached: Option<Schedules>, refresh: bool, refs: seq<SessionRef>, j: nat) returns (n: nat)
    requires refs != [] && j < |ToScrape(cached, refresh, JobsFor(refs))|
    ensures n < |refs| && ToScrape(cached, refresh, JobsFor(refs))[j] == Job(QueryOf(refs[n]), NameOf(refs[n]))
  {
    var jobs := JobsFor(refs);
    var job := ToScrape(cached, refresh, jobs)[j];
    if UsesCache(cached, refresh) {
      PlanExactly(jobs, ByQuery(cached.value), Latest(jobs), job);
    }
    assert job in jobs;
    n :| 0 <= n < |jobs| && jobs[n] == job;
  }

  /** A scraped response with the query of a session is the scrape of that session. */
  lemma FreshIsScrape(refresh: bool, a: Attempt, i: nat, r: Response<Subject>)
    requires AttemptOk(refresh, a) && AttemptResult(refresh, a).Success? && KeyedDropdown(a.up)
    requires i < |Dropdown(a.up)| && r in Summary(a.results).responses && r.sessionQuery == QueryOf(Dropdown(a.up)[i])
    ensures r == ScrapeOf(a.up, Dropdown(a.up)[i]) && Answers(a.up, r)
  {
    var refs := Dropdown(a.up);
    var planned := ToScrape(a.cached, refresh, JobsFor(refs));
    PoolAnswers(a.up, planned, a.results);
    var k :| 0 <= k < |Summary(a.results).responses| && Summary(a.results).responses[k] == r;
    var j :| 0 <= j < |planned| && r == Expected(ConfigOf(a.up, planned), j);
    var n := PlannedJobIsListed(a.cached, refresh, refs, j);
    KeyedRefs(refs[n], refs[i]);
    ExpectedIsScrape(a.up, planned, j, refs[n]);
  }

  /** A success is a permutation of what each session is served. */
  lemma SuccessIsServed(refresh: bool, a: Attempt)
    requires AttemptOk(refresh, a) && AttemptResult(refresh, a).Success? && KeyedDropdown(a.up)
    ensures multiset(AttemptResult(refresh, a).schedules) == multiset(ServedFor(refresh, a))
    ensures forall i :: 0 <= i < |Dropdown(a.up)| && !ServedFromCache(refresh, a, i) ==>
              Answers(a.up, ScrapeOf(a.up, Dropdown(a.up)[i]))
  {
    var refs := Dropdown(a.up);
    var jobs := JobsFor(refs);
    var rs := AttemptResult(refresh, a).schedules;
    if UsesCache(a.cached, refresh) {
      CoverageOfMerge(a.cached, refresh, jobs, a.up, a.stale, a.results);
      forall i | 0 <= i < |refs|
        ensures rs[i] == ServedFor(refresh, a)[i]
        ensures !ServedFromCache(refresh, a, i) ==> Answers(a.up, ScrapeOf(a.up, refs[i]))
      {
        if !ServedFromCache(refresh, a, i) {
          FreshIsScrape(refresh, a, i, rs[i]);
        }
      }
      assert rs == ServedFor(refresh, a);
    } else {
      UncachedSuccess(refresh, a);
      assert ServedFor(refresh, a) == ScrapesOf(a.up, refs);
    }
  }

  /* ---------- One request against a full scrape ---------- */

  ghost predicate CacheIsNamed(a: Attempt) {
    a.cached.Some? ==> forall k :: 0 <= k < |a.cached.value| ==> Named(a.cached.value[k])
  }

  lemma ServedIsWellNamed(refresh: bool, a: Attempt)
    requires KeyedDropdown(a.up) && CacheIsNamed(a)
    ensures forall i :: 0 <= i < |Dropdown(a.up)| ==>
              ServedFor(refresh, a)[i].sessionName == NameOf(Dropdown(a.up)[i]) &&
              ServedFor(refresh, a)[i].sessionQuery == QueryOf(Dropdown(a.up)[i]) && Named(ServedFor(refresh, a)[i])
  {
    var refs := Dropdown(a.up);
    forall i | 0 <= i < |refs|
      ensures ServedFor(refresh, a)[i].sessionName == NameOf(refs[i])
      ensures ServedFor(refresh, a)[i].sessionQuery == QueryOf(refs[i]) && Named(ServedFor(refresh, a)[i])
    {
      if ServedFromCache(refresh, a, i) {
        ByQueryHas(a.cached.value, QueryOf(refs[i]));
        NamedAsRef(CachedFor(refresh, a, i), refs[i]);
      }
    }
  }

  lemma ServedIsIdentified(refresh: bool, a: Attempt)
    requires SortableDropdown(a.up) && CacheIsNamed(a)
    ensures NamesIn(ServedFor(refresh, a), DropdownNames(a.up)) && NamesIdentify(ServedFor(refresh, a))
  {
    ServedIsWellNamed(refresh, a);
  }

  /** The sorted response does not depend on how the pool interleaved. */
  lemma ReplyIsServed(refresh: bool, a: Attempt)
    requires AttemptOk(refresh, a) && AttemptResult(refresh, a).Success? && SortableDropdown(a.up) && CacheIsNamed(a)
    ensures Sorted(AttemptResult(refresh, a).schedules) == Sorted(ServedFor(refresh, a))
  {
    SuccessIsServed(refresh, a);
    ServedIsIdentified(refresh, a);
    SortedIsConfluent(ServedFor(refresh, a), AttemptResult(refresh, a).schedules, DropdownNames(a.up));
  }

  /** `rs` is the full scrape, up to `norm`. */
  ghost predicate MatchesScrape(norm: Norm, up: Snapshot, rs: Schedules) {
    FullScrape(up).Some? && AllNormed(norm, rs) == AllNormed(norm, FullScrape(up).value)
  }

  /** What is served from the cache is what a scrape would yield, up to `norm`. */
  ghost predicate CacheIsCurrent(norm: Norm, refresh: bool, a: Attempt) {
    forall i :: 0 <= i < |Dropdown(a.up)| && ServedFromCache(refresh, a, i) ==>
      Current(norm, a.up, CachedFor(refresh, a, i))
  }

  lemma CurrentIsScrape(norm: Norm, refresh: bool, a: Attempt, i: nat)
    requires KeyedDropdown(a.up) && CacheIsNamed(a) && i < |Dropdown(a.up)| && ServedFromCache(refresh, a, i)
    ensures Current(norm, a.up, CachedFor(refresh, a, i)) <==>
            Answered(a.up, Dropdown(a.up)[i]) &&
            Normed(norm, CachedFor(refresh, a, i)) == Normed(norm, ScrapeOf(a.up, Dropdown(a.up)[i]))
  {
    ServedIsWellNamed(refresh, a);
    assert ServedFor(refresh, a)[i] == CachedFor(refresh, a, i);
  }

  lemma CurrentMatches(norm: Norm, refresh: bool, a: Attempt)
    requires AttemptOk(refresh, a) && AttemptResult(refresh, a).Success? && KeyedDropdown(a.up) && CacheIsNamed(a)
    requires CacheIsCurrent(norm, refresh, a)
    ensures MatchesScrape(norm, a.up, Sorted(ServedFor(refresh, a)))
  {
    SuccessIsServed(refresh, a);
    var served, scrapes := ServedFor(refresh, a), ScrapesOf(a.up, Dropdown(a.up));
    forall i | 0 <= i < |served|
      ensures Answered(a.up, Dropdown(a.up)[i]) && Normed(norm, served[i]) == Normed(norm, scrapes[i])
    {
      if ServedFromCache(refresh, a, i) {
        CurrentIsScrape(norm, refresh, a, i);
      }
    }
    assert AllNormed(norm, served) == AllNormed(norm, scrapes);
    SortedCommutes(norm, served);
    SortedCommutes(norm, scrapes);
  }

  /** Sorted lists that agree up to `norm` agree session by session. */
  lemma MatchingItem(norm: Norm, refresh: bool, a: Attempt, i: nat)
    requires SortableDropdown(a.up) && CacheIsNamed(a) && i < |Dropdown(a.up)|
    requires AllNormed(norm, Sorted(ServedFor(refresh, a))) == AllNormed(norm, Sorted(ScrapesOf(a.up, Dropdown(a.up))))
    ensures Normed(norm, ServedFor(refresh, a)[i]) == Normed(norm, ScrapeOf(a.up, Dropdown(a.up)[i]))
  {
    var served, scrapes := AllNormed(norm, ServedFor(refresh, a)), AllNormed(norm, ScrapesOf(a.up, Dropdown(a.up)));
    SortedCommutes(norm, ServedFor(refresh, a));
    SortedCommutes(norm, ScrapesOf(a.up, Dropdown(a.up)));
    SortedPermutes(served);
    SortedPermutes(scrapes);
    assert served[i] in multiset(served);
    assert served[i] in scrapes;
    var k :| 0 <= k < |scrapes| && scrapes[k] == served[i];
    ServedIsWellNamed(refresh, a);
    assert NameOf(Dropdown(a.up)[k]) == NameOf(Dropdown(a.up)[i]);
  }

  /** One request returns the full scrape, up to `norm`, if and only if every cached response it serves
      is what a scrape of its session would yield, up to `norm`. */
  lemma RequestMatchesExactly(norm: Norm, refresh: bool, a: Attempt)
    requires AttemptOk(refresh, a) && AttemptResult(refresh, a).Success? && SortableDropdown(a.up) && CacheIsNamed(a)
    ensures MatchesScrape(norm, a.up, Sorted(AttemptResult(refresh, a).schedules)) <==> CacheIsCurrent(norm, refresh, a)
  {
    ReplyIsServed(refresh, a);
    if CacheIsCurrent(norm, refresh, a) {
      CurrentMatches(norm, refresh, a);
    }
    if MatchesScrape(norm, a.up, Sorted(ServedFor(refresh, a))) {
      forall i | 0 <= i < |Dropdown(a.up)| && ServedFromCache(refresh, a, i)
        ensures Current(norm, a.up, CachedFor(refresh, a, i))
      {
        MatchingItem(norm, refresh, a, i);
        CurrentIsScrape(norm, refresh, a, i);
      }
    }
  }

  /** Schedules compared with their dates. */
  function Whole(s: seq<Subject>): seq<Subject> {
    s
  }

  lemma {:induction false} WholeIsAll(up: Snapshot, rs: Schedules)
    ensures MatchesScrape(Whole, up, rs) <==> FullScrape(up) == Some(rs)
  {
    forall ss: Schedules
      ensures AllNormed(Whole, ss) == ss
    {
      forall i | 0 <= i < |ss|
        ensures AllNormed(Whole, ss)[i] == ss[i]
      {
      }
    }
  }

  /** A forced refresh is a full scrape: it succeeds exactly when there is one, and then returns it. */
  lemma RefreshIsFullScrape(a: Attempt)
    requires AttemptOk(true, a) && SortableDropdown(a.up)
    ensures AttemptResult(true, a).Success? <==> FullScrape(a.up).Some?
    ensures AttemptResult(true, a).Success? ==> FullScrape(a.up) == Some(Sorted(AttemptResult(true, a).schedules))
  {
    if AttemptResult(true, a).Success? {
      UncachedSuccess(true, a);
      var uncached := a.(cached := None);
      assert PoolOf(true, uncached) == PoolOf(true, a);
      RequestMatchesExactly(Whole, true, uncached);
      WholeIsAll(a.up, Sorted(AttemptResult(true, a).schedules));
    } else if FullScrape(a.up).Some? {
      ScrapedSucceeds(a);
    }
  }

  lemma ScrapedSucceeds(a: Attempt)
    requires AttemptOk(true, a) && FullScrape(a.up).Some?
    ensures AttemptResult(true, a).Success?
  {
    var c := PoolOf(true, a);
    forall j | 0 <= j < |c.fetch|
      ensures Answer(c.fetch[j], c.view).Some?
    {
      assert Answered(a.up, Dropdown(a.up)[j]);
    }
    assert NoPanics(c);
    PoolReturnsAll(c, a.stale, a.results);
  }
}
