/** Runs of many schedule requests over a changing i-Ma'luum. */
module ScheduleRuns {
  import opened Text
  import opened Options
  import opened Retry
  import opened ScheduleMapping
  import opened Sessions
  import opened WorkerPool
  import opened ScheduleResolve
  import opened ScheduleCache

  /** What a request stored in the GEI cache, and i-Ma'luum as its attempt saw it.  `read` is the store
      it had read, and `fromCache` the sessions it took from there. */
  datatype Record = Record(up: Snapshot, schedules: Schedules, read: Option<nat>, fromCache: set<string>)

  /** One request: at most two attempts around a session refresh.  A cache read returns the schedules of
      some earlier store - the newest, or an older one if the requests overlap in time. */
  datatype Request = Request(
    refresh: bool,
    first: Attempt, firstRead: Option<nat>,
    relogin: Relogin,
    second: Attempt, secondRead: Option<nat>,
    stored: bool)

  /** What the client gets.  Crashed: the router's recovery answers.  Silence: nobody does. */
  datatype Reply = Served(schedules: Schedules) | Refused(error: Error) | Crashed | Silence

  predicate Returns(a: Attempted) {
    !a.Panicked? && !a.Hung?
  }

  function ReportOf(a: Attempted): Report
    requires Returns(a)
  {
    match a
    case Bounced => Report(true, None)
    case Failure(e) => Report(false, Some(e))
    case Success(_) => Report(false, None)
  }

  predicate TriesAgain(q: Request) {
    var first := AttemptResult(q.refresh, q.first);
    Returns(first) && Retries(ReportOf(first), q.relogin)
  }

  /** The attempt that decides, and the store it read. */
  function Final(q: Request): Attempt {
    if TriesAgain(q) then q.second else q.first
  }

  function FinalRead(q: Request): Option<nat> {
    if TriesAgain(q) then q.secondRead else q.firstRead
  }

  /** What the handler answers. */
  function ReplyTo(q: Request): Reply {
    var last := AttemptResult(q.refresh, Final(q));
    if last.Panicked? then Crashed
    else if last.Hung? then Silence
    else
      var err := Verdict(ReportOf(AttemptResult(q.refresh, q.first)), q.relogin, ReportOf(last));
      if err.Some? then Refused(err.value)
      else if last.Success? && last.schedules != [] then Served(Sorted(last.schedules))
      else Refused(ScheduleIsEmpty)
  }

  /** The sessions the reply takes from the cache. */
  function FromCache(q: Request): set<string> {
    set query | query in QueriesOf(Dropdown(Final(q).up)) && StandsIn(q.refresh, Final(q), query)
  }

  /** The scrape is tried again exactly when the first attempt bounced and the refresh gave a cookie; a first
      bounce on the page that lists the sessions is the ordinary case. */
  lemma TriesAgainExactly(q: Request)
    ensures TriesAgain(q) <==> AttemptResult(q.refresh, q.first).Bounced? && q.relogin.NewCookie?
    ensures q.first.up.fetch("").Bounce? && q.relogin.NewCookie? ==> TriesAgain(q)
  {
  }

  /** What the client gets, case by case of how the attempts end. */
  lemma ReplyCases(q: Request)
    ensures var first, last := AttemptResult(q.refresh, q.first), AttemptResult(q.refresh, Final(q));
            && (first.Bounced? && q.relogin.LoginFails? ==> ReplyTo(q) == Refused(q.relogin.error))
            && (TriesAgain(q) && last.Bounced? ==> ReplyTo(q) == Refused(StaleSession))
            && (last.Failure? ==> ReplyTo(q) == Refused(last.error))
            && (last.Panicked? ==> ReplyTo(q) == Crashed)
            && (last.Hung? ==> ReplyTo(q) == Silence)
            && (last.Success? ==>
                  if last.schedules == [] then ReplyTo(q) == Refused(ScheduleIsEmpty)
                  else ReplyTo(q).Served? && multiset(ReplyTo(q).schedules) == multiset(last.schedules))
  {
    var last := AttemptResult(q.refresh, Final(q));
    if last.Success? {
      SortedPermutes(last.schedules);
    }
  }

  /** The read returned what the store it names holds. */
  predicate ReadOk(history: seq<Record>, a: Attempt, read: Option<nat>) {
    match read
    case None => a.cached == None
    case Some(t) => t < |history| && a.cached == Some(history[t].schedules)
  }

  ghost predicate RequestOk(history: seq<Record>, q: Request) {
    AttemptOk(q.refresh, q.first) && ReadOk(history, q.first, q.firstRead) &&
    (TriesAgain(q) ==> AttemptOk(q.refresh, q.second) && ReadOk(history, q.second, q.secondRead))
  }

  /** The stores so far, after `q`. */
  function After(history: seq<Record>, q: Request): seq<Record> {
    if Stores(q) then history + [RecordOf(q)] else history
  }

  /** The request leaves its reply in GEI. */
  predicate Stores(q: Request) {
    ReplyTo(q).Served? && q.stored
  }

  function RecordOf(q: Request): Record
    requires ReplyTo(q).Served?
  {
    Record(Final(q).up, ReplyTo(q).schedules, FinalRead(q), FromCache(q))
  }

  function History(run: seq<Request>, k: nat): seq<Record>
    requires k <= |run|
  {
    if k == 0 then [] else After(History(run, k - 1), run[k - 1])
  }

  ghost predicate StepOk(run: seq<Request>, k: nat)
    requires k < |run|
  {
    RequestOk(History(run, k), run[k])
  }

  ghost predicate RunOk(run: seq<Request>) {
    forall k :: 0 <= k < |run| ==> StepOk(run, k)
  }

  /** A served reply is the sorted result of the deciding attempt. */
  lemma ServedMeansSuccess(history: seq<Record>, q: Request)
    requires RequestOk(history, q) && ReplyTo(q).Served?
    ensures AttemptOk(q.refresh, Final(q)) && ReadOk(history, Final(q), FinalRead(q))
    ensures AttemptResult(q.refresh, Final(q)).Success?
    ensures ReplyTo(q).schedules == Sorted(AttemptResult(q.refresh, Final(q)).schedules)
  {
  }

  /* ---------- The cache is never contaminated ---------- */

  /** The store whose attempt scraped what store `t` holds for `query`. */
  function Scraper(history: seq<Record>, t: nat, query: string): (u: nat)
    requires t < |history|
    ensures u <= t
  {
    var record := history[t];
    if query in record.fromCache && record.read.Some? && record.read.value < t
    then Scraper(history, record.read.value, query)
    else t
  }

  lemma {:induction false} ScraperOfPrefix(history: seq<Record>, record: Record, t: nat, query: string)
    requires t < |history|
    ensures Scraper(history + [record], t, query) == Scraper(history, t, query)
  {
    var r := history[t];
    if query in r.fromCache && r.read.Some? && r.read.value < t {
      ScraperOfPrefix(history, record, r.read.value, query);
    }
  }

  /** What store `t` holds for a session is what i-Ma'luum answered in the attempt that scraped it. */
  predicate AnsweredToScraper(history: seq<Record>, t: nat, r: Response<Subject>)
    requires t < |history|
  {
    Answers(history[Scraper(history, t, r.sessionQuery)].up, r)
  }

  ghost predicate Uncontaminated(history: seq<Record>) {
    forall t: nat, k: nat :: t < |history| && k < |history[t].schedules| ==>
      AnsweredToScraper(history, t, history[t].schedules[k])
  }

  /** A served response is in the store read, if the reply takes its session from the cache; otherwise
      it is an answer of this request. */
  lemma ServedIsGenuine(history: seq<Record>, q: Request, k: nat)
    requires RequestOk(history, q) && ReplyTo(q).Served? && k < |ReplyTo(q).schedules|
    ensures var r := ReplyTo(q).schedules[k];
            if r.sessionQuery in FromCache(q)
            then FinalRead(q).Some? && FinalRead(q).value < |history| && r in history[FinalRead(q).value].schedules
            else Answers(Final(q).up, r)
  {
    ServedMeansSuccess(history, q);
    var rs, r := AttemptResult(q.refresh, Final(q)).schedules, ReplyTo(q).schedules[k];
    SortedPermutes(rs);
    assert r in multiset(Sorted(rs));
    assert r in rs;
    var i :| 0 <= i < |rs| && rs[i] == r;
    SuccessIsGenuine(q.refresh, Final(q), i);
  }

  lemma StoredIsAnswered(history: seq<Record>, q: Request, k: nat)
    requires RequestOk(history, q) && Uncontaminated(history) && ReplyTo(q).Served?
    requires k < |ReplyTo(q).schedules|
    ensures AnsweredToScraper(history + [RecordOf(q)], |history|, ReplyTo(q).schedules[k])
  {
    ServedIsGenuine(history, q, k);
    var r := ReplyTo(q).schedules[k];
    if r.sessionQuery in FromCache(q) {
      var t := FinalRead(q).value;
      var n: nat :| n < |history[t].schedules| && history[t].schedules[n] == r;
      assert AnsweredToScraper(history, t, history[t].schedules[n]);
      ScraperOfPrefix(history, RecordOf(q), t, r.sessionQuery);
    }
  }

  lemma AfterIsUncontaminated(history: seq<Record>, q: Request)
    requires RequestOk(history, q) && Uncontaminated(history)
    ensures Uncontaminated(After(history, q))
  {
    var after := After(history, q);
    forall t: nat, k: nat | t < |after| && k < |after[t].schedules|
      ensures AnsweredToScraper(after, t, after[t].schedules[k])
    {
      if t < |history| {
        assert AnsweredToScraper(history, t, history[t].schedules[k]);
        if after != history {
          ScraperOfPrefix(history, RecordOf(q), t, history[t].schedules[k].sessionQuery);
        }
      } else {
        StoredIsAnswered(history, q, k);
      }
    }
  }

  /** In every run, whatever fails or bounces, every entry ever stored in the cache is an answer of
      i-Ma'luum for its query - a payload or a real null - and never the empty response a worker makes
      up after a bounce. */
  lemma {:induction false} CacheIsUncontaminated(run: seq<Request>, k: nat)
    requires RunOk(run) && k <= |run|
    ensures Uncontaminated(History(run, k))
  {
    if k > 0 {
      CacheIsUncontaminated(run, k - 1);
      assert StepOk(run, k - 1);
      AfterIsUncontaminated(History(run, k - 1), run[k - 1]);
    }
  }

  /* ---------- When a reply is a full scrape ---------- */

  /** Up to `norm`, i-Ma'luum answers `query` now as it did then. */
  ghost predicate SameAnswer(norm: Norm, then': Snapshot, now: Snapshot, query: string) {
    var a, b := Answer(then'.fetch(query), View(then')), Answer(now.fetch(query), View(now));
    a.Some? && b.Some? && norm(a.value) == norm(b.value)
  }

  predicate Reads(history: seq<Record>, q: Request) {
    FinalRead(q).Some? && FinalRead(q).value < |history|
  }

  /** i-Ma'luum as the attempt saw it that scraped what the store read by `q` holds for `query`. */
  function ScrapeBehind(history: seq<Record>, q: Request, query: string): Snapshot
    requires Reads(history, q)
  {
    history[Scraper(history, FinalRead(q).value, query)].up
  }

  /** Up to `norm`, i-Ma'luum answers every session served from the cache as it did when it was
      scraped. */
  ghost predicate UnchangedSinceScrape(norm: Norm, history: seq<Record>, q: Request) {
    Reads(history, q) ==>
      forall query :: query in FromCache(q) ==> SameAnswer(norm, ScrapeBehind(history, q, query), Final(q).up, query)
  }

  ghost predicate AllNamed(history: seq<Record>) {
    forall t: nat, k: nat :: t < |history| && k < |history[t].schedules| ==> Named(history[t].schedules[k])
  }

  /** The queries that the first `n` requests stored tell where the year ends. */
  ghost predicate KeyedRun(run: seq<Request>, n: nat) {
    forall k :: 0 <= k < n && k < |run| && Stores(run[k]) ==> KeyedDropdown(Final(run[k]).up)
  }

  lemma ReadIsNamed(history: seq<Record>, a: Attempt, read: Option<nat>)
    requires ReadOk(history, a, read) && AllNamed(history)
    ensures CacheIsNamed(a)
  {
    if read.Some? {
      forall k: nat | k < |a.cached.value|
        ensures Named(a.cached.value[k])
      {
        assert a.cached.value[k] == history[read.value].schedules[k];
      }
    }
  }

  /** Every served response is the one some session of the dropdown is served. */
  lemma ServedItem(history: seq<Record>, q: Request, k: nat) returns (i: nat)
    requires RequestOk(history, q) && AllNamed(history) && ReplyTo(q).Served? && KeyedDropdown(Final(q).up)
    requires k < |ReplyTo(q).schedules|
    ensures i < |Dropdown(Final(q).up)| && ServedFor(q.refresh, Final(q))[i] == ReplyTo(q).schedules[k]
    ensures ReplyTo(q).schedules[k].sessionQuery == QueryOf(Dropdown(Final(q).up)[i]) && Named(ReplyTo(q).schedules[k])
    ensures !ServedFromCache(q.refresh, Final(q), i) ==> Answers(Final(q).up, ReplyTo(q).schedules[k])
  {
    ServedMeansSuccess(history, q);
    ReadIsNamed(history, Final(q), FinalRead(q));
    SuccessIsServed(q.refresh, Final(q));
    var rs, served, r := AttemptResult(q.refresh, Final(q)).schedules, ServedFor(q.refresh, Final(q)),
        ReplyTo(q).schedules[k];
    SortedPermutes(rs);
    assert r in multiset(Sorted(rs));
    assert r in served;
    i :| 0 <= i < |served| && served[i] == r;
    ServedIsWellNamed(q.refresh, Final(q));
  }

  lemma AfterIsNamed(history: seq<Record>, q: Request)
    requires RequestOk(history, q) && AllNamed(history)
    requires Stores(q) ==> KeyedDropdown(Final(q).up)
    ensures AllNamed(After(history, q))
  {
    if Stores(q) {
      forall k: nat | k < |ReplyTo(q).schedules|
        ensures Named(ReplyTo(q).schedules[k])
      {
        var i := ServedItem(history, q, k);
      }
    }
  }

  lemma {:induction false} StoresAreNamed(run: seq<Request>, n: nat)
    requires RunOk(run) && KeyedRun(run, n) && n <= |run|
    ensures AllNamed(History(run, n))
  {
    if n > 0 {
      StoresAreNamed(run, n - 1);
      assert StepOk(run, n - 1);
      AfterIsNamed(History(run, n - 1), run[n - 1]);
    }
  }

  /** What stands in for a session is in the store that was read. */
  lemma CachedIsStored(history: seq<Record>, q: Request, i: nat) returns (k: nat)
    requires RequestOk(history, q) && ReplyTo(q).Served?
    requires i < |Dropdown(Final(q).up)| && ServedFromCache(q.refresh, Final(q), i)
    ensures Reads(history, q) && k < |history[FinalRead(q).value].schedules|
    ensures history[FinalRead(q).value].schedules[k] == CachedFor(q.refresh, Final(q), i)
    ensures CachedFor(q.refresh, Final(q), i).sessionQuery == QueryOf(Dropdown(Final(q).up)[i])
  {
    ServedMeansSuccess(history, q);
    var a := Final(q);
    ByQueryHas(a.cached.value, QueryOf(Dropdown(a.up)[i]));
    k :| 0 <= k < |a.cached.value| && a.cached.value[k] == CachedFor(q.refresh, a, i);
  }

  lemma CachedIsCurrentExactly(norm: Norm, history: seq<Record>, q: Request, i: nat)
    requires RequestOk(history, q) && ReplyTo(q).Served? && Uncontaminated(history)
    requires i < |Dropdown(Final(q).up)| && ServedFromCache(q.refresh, Final(q), i)
    ensures Reads(history, q)
    ensures var query := QueryOf(Dropdown(Final(q).up)[i]);
            Current(norm, Final(q).up, CachedFor(q.refresh, Final(q), i)) <==>
            SameAnswer(norm, ScrapeBehind(history, q, query), Final(q).up, query)
  {
    var k := CachedIsStored(history, q, i);
    assert AnsweredToScraper(history, FinalRead(q).value, history[FinalRead(q).value].schedules[k]);
  }

  /** A request that is served is the full scrape of its moment, up to `norm`, if and only if every
      session it serves from the cache is unchanged, up to `norm`, since it was scraped. */
  lemma ReplyMatchesExactly(norm: Norm, history: seq<Record>, q: Request)
    requires RequestOk(history, q) && ReplyTo(q).Served? && Uncontaminated(history) && AllNamed(history)
    requires SortableDropdown(Final(q).up)
    ensures MatchesScrape(norm, Final(q).up, ReplyTo(q).schedules) <==> UnchangedSinceScrape(norm, history, q)
  {
    ServedMeansSuccess(history, q);
    ReadIsNamed(history, Final(q), FinalRead(q));
    RequestMatchesExactly(norm, q.refresh, Final(q));
    CurrentIsUnchanged(norm, history, q);
  }

  lemma CurrentIsUnchanged(norm: Norm, history: seq<Record>, q: Request)
    requires RequestOk(history, q) && ReplyTo(q).Served? && Uncontaminated(history)
    ensures CacheIsCurrent(norm, q.refresh, Final(q)) <==> UnchangedSinceScrape(norm, history, q)
  {
    var a := Final(q);
    forall i | 0 <= i < |Dropdown(a.up)| && ServedFromCache(q.refresh, a, i)
      ensures Reads(history, q) && QueryOf(Dropdown(a.up)[i]) in FromCache(q)
      ensures Current(norm, a.up, CachedFor(q.refresh, a, i)) <==>
              SameAnswer(norm, ScrapeBehind(history, q, QueryOf(Dropdown(a.up)[i])), a.up, QueryOf(Dropdown(a.up)[i]))
    {
      CachedIsCurrentExactly(norm, history, q, i);
      assert QueriesOf(Dropdown(a.up))[i] == QueryOf(Dropdown(a.up)[i]);
    }
    forall query | query in FromCache(q)
      ensures exists i ::
                0 <= i < |Dropdown(a.up)| && ServedFromCache(q.refresh, a, i) && QueryOf(Dropdown(a.up)[i]) == query
    {
      var i :| 0 <= i < |QueriesOf(Dropdown(a.up))| && QueriesOf(Dropdown(a.up))[i] == query;
    }
  }

  /** In every run of cache hits, forced refreshes, failures and dropped sessions. */
  lemma RunMatchesExactly(norm: Norm, run: seq<Request>, n: nat)
    requires RunOk(run) && n < |run| && ReplyTo(run[n]).Served?
    requires KeyedRun(run, n) && SortableDropdown(Final(run[n]).up)
    ensures MatchesScrape(norm, Final(run[n]).up, ReplyTo(run[n]).schedules) <==>
            UnchangedSinceScrape(norm, History(run, n), run[n])
  {
    CacheIsUncontaminated(run, n);
    StoresAreNamed(run, n);
    assert StepOk(run, n);
    ReplyMatchesExactly(norm, History(run, n), run[n]);
  }

  /* ---------- Steady runs ---------- */

  /** Since the store the request read, nothing it serves from the cache has changed: only the newest
      session, or sessions not cached, may have. */
  ghost predicate Steady(norm: Norm, history: seq<Record>, q: Request) {
    Reads(history, q) ==>
      forall query :: query in FromCache(q) ==>
        SameAnswer(norm, history[FinalRead(q).value].up, Final(q).up, query)
  }

  /** Request `n` and every request before it that stored its reply are steady. */
  ghost predicate SteadyRun(norm: Norm, run: seq<Request>, n: nat) {
    forall k :: 0 <= k <= n && k < |run| && Matters(run, n, k) ==> Steady(norm, History(run, k), run[k])
  }

  predicate Matters(run: seq<Request>, n: nat, k: nat)
    requires k < |run|
  {
    ReplyTo(run[k]).Served? && (k < n ==> run[k].stored)
  }

  /** Every stored response was current, up to `norm`, when it was stored. */
  ghost predicate StoredCurrent(norm: Norm, history: seq<Record>) {
    forall t: nat, k: nat :: t < |history| && k < |history[t].schedules| ==>
      Current(norm, history[t].up, history[t].schedules[k])
  }

  /** What the request serves from the cache is current. */
  lemma CachedIsCurrent(norm: Norm, history: seq<Record>, q: Request, i: nat)
    requires RequestOk(history, q) && ReplyTo(q).Served? && StoredCurrent(norm, history) && Steady(norm, history, q)
    requires i < |Dropdown(Final(q).up)| && ServedFromCache(q.refresh, Final(q), i)
    ensures Current(norm, Final(q).up, CachedFor(q.refresh, Final(q), i))
  {
    var k := CachedIsStored(history, q, i);
    var query := QueryOf(Dropdown(Final(q).up)[i]);
    assert Current(norm, history[FinalRead(q).value].up, history[FinalRead(q).value].schedules[k]);
    assert QueriesOf(Dropdown(Final(q).up))[i] == query;
    assert query in FromCache(q);
  }

  lemma SteadyIsUnchanged(norm: Norm, history: seq<Record>, q: Request)
    requires RequestOk(history, q) && ReplyTo(q).Served? && Uncontaminated(history)
    requires StoredCurrent(norm, history) && Steady(norm, history, q)
    ensures UnchangedSinceScrape(norm, history, q)
  {
    forall i | 0 <= i < |Dropdown(Final(q).up)| && ServedFromCache(q.refresh, Final(q), i)
      ensures Current(norm, Final(q).up, CachedFor(q.refresh, Final(q), i))
    {
      CachedIsCurrent(norm, history, q, i);
    }
    CurrentIsUnchanged(norm, history, q);
  }

  lemma AfterIsCurrent(norm: Norm, history: seq<Record>, q: Request)
    requires RequestOk(history, q) && StoredCurrent(norm, history) && AllNamed(history)
    requires Stores(q) ==> KeyedDropdown(Final(q).up) && Steady(norm, history, q)
    ensures StoredCurrent(norm, After(history, q))
  {
    if Stores(q) {
      forall k: nat | k < |ReplyTo(q).schedules|
        ensures Current(norm, Final(q).up, ReplyTo(q).schedules[k])
      {
        var i := ServedItem(history, q, k);
        if ServedFromCache(q.refresh, Final(q), i) {
          CachedIsCurrent(norm, history, q, i);
        }
      }
    }
  }

  /** Request `k` leaves a current cache current. */
  ghost predicate KeepsCurrent(norm: Norm, run: seq<Request>, k: nat)
    requires k < |run|
  {
    StoredCurrent(norm, History(run, k)) ==> StoredCurrent(norm, History(run, k + 1))
  }

  lemma StoreKeepsCurrent(norm: Norm, run: seq<Request>, n: nat, k: nat)
    requires RunOk(run) && k < n && k < |run| && KeyedRun(run, n) && SteadyRun(norm, run, n)
    ensures KeepsCurrent(norm, run, k)
  {
    if StoredCurrent(norm, History(run, k)) {
      StoresAreNamed(run, k);
      assert StepOk(run, k);
      assert Stores(run[k]) ==> Matters(run, n, k);
      AfterIsCurrent(norm, History(run, k), run[k]);
    }
  }

  lemma {:induction false} CurrentByInduction(norm: Norm, run: seq<Request>, n: nat)
    requires n <= |run| && forall k :: 0 <= k < n ==> KeepsCurrent(norm, run, k)
    ensures StoredCurrent(norm, History(run, n))
  {
    if n > 0 {
      CurrentByInduction(norm, run, n - 1);
      assert KeepsCurrent(norm, run, n - 1);
    }
  }

  lemma StoresStayCurrent(norm: Norm, run: seq<Request>, n: nat)
    requires RunOk(run) && n <= |run| && KeyedRun(run, n) && SteadyRun(norm, run, n)
    ensures StoredCurrent(norm, History(run, n))
  {
    forall k | 0 <= k < n
      ensures KeepsCurrent(norm, run, k)
    {
      StoreKeepsCurrent(norm, run, n, k);
    }
    CurrentByInduction(norm, run, n);
  }

  lemma SteadyRunIsUnchanged(norm: Norm, run: seq<Request>, n: nat)
    requires RunOk(run) && n < |run| && ReplyTo(run[n]).Served? && KeyedRun(run, n) && SteadyRun(norm, run, n)
    ensures UnchangedSinceScrape(norm, History(run, n), run[n])
  {
    StoresStayCurrent(norm, run, n);
    assert Matters(run, n, n);
    CacheIsUncontaminated(run, n);
    assert StepOk(run, n);
    SteadyIsUnchanged(norm, History(run, n), run[n]);
  }

  /** If since each store that was read only sessions that are newest or not cached have changed, every
      request that succeeds returns what a full scrape at its moment returns, up to `norm`. */
  lemma RunRefinesScrape(norm: Norm, run: seq<Request>, n: nat)
    requires RunOk(run) && n < |run| && ReplyTo(run[n]).Served?
    requires KeyedRun(run, n) && SteadyRun(norm, run, n) && SortableDropdown(Final(run[n]).up)
    ensures MatchesScrape(norm, Final(run[n]).up, ReplyTo(run[n]).schedules)
  {
    SteadyRunIsUnchanged(norm, run, n);
    RunMatchesExactly(norm, run, n);
  }

  /* ---------- The day of the scrape ---------- */

  /** The present schedule of `query` shows times, and so the day it is scraped. */
  predicate Dated(now: Snapshot, query: string) {
    var a := Answer(now.fetch(query), View(now));
    a.Some? && HasTimestamps(a.value)
  }

  /** Every dated session served from the cache was scraped at the present midnight. */
  ghost predicate ScrapedToday(history: seq<Record>, q: Request) {
    Reads(history, q) ==>
      forall query :: query in FromCache(q) && Dated(Final(q).up, query) ==>
        ScrapeBehind(history, q, query).midnight == Final(q).up.midnight
  }

  lemma SameAnswerToday(then': Snapshot, now: Snapshot, query: string)
    requires SameAnswer(UndatedSubjects, then', now, query)
    ensures SameAnswer(Whole, then', now, query) <==> then'.midnight == now.midnight || !Dated(now, query)
  {
    AnswerIsStamped(then', query);
    AnswerIsStamped(now, query);
    SameUndated(Answer(then'.fetch(query), View(then')).value, Answer(now.fetch(query), View(now)).value,
                then'.midnight, now.midnight);
  }

  lemma AnswerIsStamped(up: Snapshot, query: string)
    requires Answer(up.fetch(query), View(up)).Some?
    ensures SubjectsStamped(Answer(up.fetch(query), View(up)).value, up.midnight)
  {
    if up.fetch(query).Payload? {
      ScrapeIsStamped(up.fetch(query).data, up.midnight, up.numbers);
    }
  }

  /** In every run in which cached sessions change in nothing but dates, a request that succeeds returns
      exactly the full scrape if and only if every dated session it serves from the cache was scraped at
      the present midnight. */
  lemma RunReturnsScrapeExactly(run: seq<Request>, n: nat)
    requires RunOk(run) && n < |run| && ReplyTo(run[n]).Served?
    requires KeyedRun(run, n) && SteadyRun(UndatedSubjects, run, n) && SortableDropdown(Final(run[n]).up)
    ensures FullScrape(Final(run[n]).up) == Some(ReplyTo(run[n]).schedules) <==> ScrapedToday(History(run, n), run[n])
  {
    SteadyRunIsUnchanged(UndatedSubjects, run, n);
    RunMatchesExactly(Whole, run, n);
    WholeIsAll(Final(run[n]).up, ReplyTo(run[n]).schedules);
    TodayIsUnchanged(History(run, n), run[n]);
  }

  lemma TodayIsUnchanged(history: seq<Record>, q: Request)
    requires UnchangedSinceScrape(UndatedSubjects, history, q)
    ensures UnchangedSinceScrape(Whole, history, q) <==> ScrapedToday(history, q)
  {
    if Reads(history, q) {
      forall query | query in FromCache(q)
        ensures SameAnswer(Whole, ScrapeBehind(history, q, query), Final(q).up, query) <==>
                (Dated(Final(q).up, query) ==> ScrapeBehind(history, q, query).midnight == Final(q).up.midnight)
      {
        SameAnswerToday(ScrapeBehind(history, q, query), Final(q).up, query);
      }
    }
  }

  /* ---------- What steadiness means for the payloads ---------- */

  /** i-Ma'luum gives the same payload, or again no records. */
  ghost predicate SamePayload(then': Snapshot, now: Snapshot, query: string) {
    var f, g := then'.fetch(query), now.fetch(query);
    then'.numbers == now.numbers && ((f.Payload? && g.Payload? && f.data == g.data) || (f.Null? && g.Null?))
  }

  /** Request `n`, and every request before it that stored its reply, finds the sessions it serves from the
      cache with the payload they had when they were stored. */
  ghost predicate PayloadsKept(run: seq<Request>, n: nat) {
    forall k, query ::
      0 <= k <= n && k < |run| && Matters(run, n, k) && query in FromCache(run[k]) && Reads(History(run, k), run[k]) ==>
        SamePayload(History(run, k)[FinalRead(run[k]).value].up, Final(run[k]).up, query)
  }

  lemma SamePayloadSameAnswer(then': Snapshot, now: Snapshot, query: string)
    requires SamePayload(then', now, query)
    ensures SameAnswer(UndatedSubjects, then', now, query)
  {
    if then'.fetch(query).Payload? {
      ScrapeDayMatters(then'.fetch(query).data, then'.midnight, now.midnight, now.numbers);
    }
  }

  /** Kept payloads change in nothing but dates. */
  lemma KeptIsSteady(run: seq<Request>, n: nat)
    requires PayloadsKept(run, n)
    ensures SteadyRun(UndatedSubjects, run, n)
  {
    forall k | 0 <= k <= n && k < |run| && Matters(run, n, k)
      ensures Steady(UndatedSubjects, History(run, k), run[k])
    {
      if Reads(History(run, k), run[k]) {
        forall query | query in FromCache(run[k])
          ensures SameAnswer(UndatedSubjects, History(run, k)[FinalRead(run[k]).value].up, Final(run[k]).up, query)
        {
          SamePayloadSameAnswer(History(run, k)[FinalRead(run[k]).value].up, Final(run[k]).up, query);
        }
      }
    }
  }

  /** If the payloads of past sessions are kept, every successful request returns the full scrape of its
      moment up to the dates of the times - and altogether exactly if what is dated was scraped today. */
  lemma KeptRunReturnsScrape(run: seq<Request>, n: nat)
    requires RunOk(run) && n < |run| && ReplyTo(run[n]).Served?
    requires KeyedRun(run, n) && PayloadsKept(run, n) && SortableDropdown(Final(run[n]).up)
    ensures MatchesScrape(UndatedSubjects, Final(run[n]).up, ReplyTo(run[n]).schedules)
    ensures FullScrape(Final(run[n]).up) == Some(ReplyTo(run[n]).schedules) <==> ScrapedToday(History(run, n), run[n])
  {
    KeptIsSteady(run, n);
    RunRefinesScrape(UndatedSubjects, run, n);
    RunReturnsScrapeExactly(run, n);
  }

  /* ---------- The next day ---------- */

  /** i-Ma'luum lists the newer session `a` and the older session `b`, and has a payload for each, with
      times for the older one. */
  ghost predicate ListsTwo(up: Snapshot, a: SessionRef, b: SessionRef) {
    Dropdown(up) == [a, b] && PlainRef(a) && Keyed(a) && PlainRef(b) && Keyed(b) &&
    a != b && SortSessionNames(NameOf(a), NameOf(b)) &&
    up.fetch("").Payload? && up.fetch(QueryOf(a)).Payload? && up.fetch(QueryOf(b)).Payload? && Dated(up, QueryOf(b))
  }

  lemma TwoAreSortable(up: Snapshot, a: SessionRef, b: SessionRef)
    requires ListsTwo(up, a, b)
    ensures SortableDropdown(up) && FullScrape(up).Some?
  {
    PlainIsSortable(up);
  }

  lemma TwoJobs(up: Snapshot, a: SessionRef, b: SessionRef)
    requires ListsTwo(up, a, b)
    ensures JobsFor(Dropdown(up)) == [Job(QueryOf(a), NameOf(a)), Job(QueryOf(b), NameOf(b))]
    ensures Latest(JobsFor(Dropdown(up))) == QueryOf(a) != QueryOf(b)
  {
    KeyedRefs(a, b);
    NamesAreComparable(NameOf(a), NameOf(b));
    var names := JobNames(JobsFor(Dropdown(up)));
    assert names[..1] == [NameOf(a)];
  }

  /** A first request, with a forced refresh, scrapes everything. */
  lemma FirstRequest(up: Snapshot) returns (q: Request)
    requires SortableDropdown(up) && FullScrape(up).Some? && up.fetch("").Payload?
    ensures RequestOk([], q) && Final(q).up == up && FinalRead(q) == None && q.stored
    ensures ReplyTo(q) == Served(FullScrape(up).value)
  {
    var attempt := ScrapeAll(up);
    ScrapeIsNotEmpty(up, AttemptResult(true, attempt).schedules);
    q := Request(true, attempt, None, LoginFails(StaleSession), attempt, None, true);
  }

  lemma ScrapeIsNotEmpty(up: Snapshot, rs: Schedules)
    requires FullScrape(up) == Some(Sorted(rs))
    ensures rs != [] && FullScrape(up).value != []
  {
    SortedPermutes(ScrapesOf(up, Dropdown(up)));
    assert |multiset(FullScrape(up).value)| == |Dropdown(up)|;
  }

  lemma ScrapeAll(up: Snapshot) returns (attempt: Attempt)
    requires SortableDropdown(up) && FullScrape(up).Some? && up.fetch("").Payload?
    ensures attempt.up == up && attempt.cached == None && AttemptOk(true, attempt)
    ensures AttemptResult(true, attempt).Success? &&
            FullScrape(up) == Some(Sorted(AttemptResult(true, attempt).schedules))
  {
    attempt := Attempt(up, None, false, []);
    var c := PoolOf(true, attempt);
    forall j | 0 <= j < |c.fetch|
      ensures Answer(c.fetch[j], c.view).Some?
    {
      assert Answered(up, Dropdown(up)[j]);
    }
    var results := ResultsInOrder(c);
    attempt := Attempt(up, None, false, results);
    RefreshIsFullScrape(attempt);
  }

  lemma FirstStoreHas(up: Snapshot, a: SessionRef, b: SessionRef)
    requires ListsTwo(up, a, b) && FullScrape(up).Some?
    ensures QueryOf(a) in ByQuery(FullScrape(up).value) && QueryOf(b) in ByQuery(FullScrape(up).value)
  {
    var scrapes := ScrapesOf(up, Dropdown(up));
    SortedPermutes(scrapes);
    assert scrapes[0] in multiset(scrapes) && scrapes[1] in multiset(scrapes);
    assert scrapes[0] in Sorted(scrapes) && scrapes[1] in Sorted(scrapes);
    ByQueryHas(Sorted(scrapes), QueryOf(a));
    ByQueryHas(Sorted(scrapes), QueryOf(b));
  }

  lemma {:induction false} OnlyNewestPlanned(up: Snapshot, a: SessionRef, b: SessionRef, cached: Schedules)
    requires ListsTwo(up, a, b) && cached != []
    requires QueryOf(a) in ByQuery(cached) && QueryOf(b) in ByQuery(cached)
    ensures ToScrape(Some(cached), false, JobsFor(Dropdown(up))) == [Job(QueryOf(a), NameOf(a))]
    ensures StandsIn(false, Attempt(up, Some(cached), false, []), QueryOf(b))
  {
    TwoJobs(up, a, b);
    var jobs := JobsFor(Dropdown(up));
    assert jobs[..1] == [jobs[0]] && jobs[..1][..0] == [];
    assert Plan(jobs[..1], ByQuery(cached), QueryOf(a)) == [jobs[0]];
    assert QueriesOf(Dropdown(up))[1] == QueryOf(b);
  }

  lemma ReadAttempt(up: Snapshot, a: SessionRef, b: SessionRef, cached: Schedules) returns (attempt: Attempt)
    requires ListsTwo(up, a, b) && cached != []
    requires QueryOf(a) in ByQuery(cached) && QueryOf(b) in ByQuery(cached)
    ensures attempt.up == up && attempt.cached == Some(cached) && AttemptOk(false, attempt)
    ensures AttemptResult(false, attempt).Success? && AttemptResult(false, attempt).schedules != []
    ensures StandsIn(false, attempt, QueryOf(b))
  {
    OnlyNewestPlanned(up, a, b, cached);
    attempt := Attempt(up, Some(cached), false, []);
    var c := PoolOf(false, attempt);
    assert c.fetch == [up.fetch(QueryOf(a))];
    var results := ResultsInOrder(c);
    attempt := Attempt(up, Some(cached), false, results);
    CoverageOfMerge(attempt.cached, false, JobsFor(Dropdown(up)), up, false, attempt.results);
  }

  /** A request whose first attempt succeeds, having read the only store. */
  lemma FirstTryServes(history: seq<Record>, attempt: Attempt) returns (q: Request)
    requires |history| == 1 && attempt.cached == Some(history[0].schedules) && AttemptOk(false, attempt)
    requires AttemptResult(false, attempt).Success? && AttemptResult(false, attempt).schedules != []
    ensures RequestOk(history, q) && ReplyTo(q).Served?
    ensures !q.refresh && Final(q) == attempt && FinalRead(q) == Some(0)
  {
    q := Request(false, attempt, Some(0), LoginFails(StaleSession), attempt, Some(0), true);
  }

  lemma TwoRequests(first: Request, second: Request) returns (run: seq<Request>)
    requires RequestOk([], first) && Stores(first) && RequestOk([RecordOf(first)], second)
    ensures run == [first, second] && RunOk(run) && History(run, 1) == [RecordOf(first)]
  {
    run := [first, second];
    assert History(run, 0) == [] && History(run, 1) == [] + [RecordOf(first)];
    assert StepOk(run, 0) && StepOk(run, 1);
  }

  lemma ReadsFirst(first: Request, up: Snapshot, up': Snapshot, a: SessionRef, b: SessionRef) returns (second: Request)
    requires ListsTwo(up, a, b) && ListsTwo(up', a, b) && FullScrape(up).Some?
    requires ReplyTo(first) == Served(FullScrape(up).value)
    ensures RequestOk([RecordOf(first)], second) && ReplyTo(second).Served?
    ensures Final(second).up == up' && FinalRead(second) == Some(0) && QueryOf(b) in FromCache(second)
  {
    FirstStoreHas(up, a, b);
    var attempt := ReadAttempt(up', a, b, FullScrape(up).value);
    second := FirstTryServes([RecordOf(first)], attempt);
  }

  /** The same payloads on another day: a request that reads what the first one stored. */
  lemma NextDayRun(up: Snapshot, up': Snapshot, a: SessionRef, b: SessionRef) returns (run: seq<Request>)
    requires ListsTwo(up, a, b) && ListsTwo(up', a, b)
    ensures |run| == 2 && RunOk(run) && KeyedRun(run, 1) && Final(run[1]).up == up' && ReplyTo(run[1]).Served?
    ensures |History(run, 1)| == 1 && History(run, 1)[0].up == up && FinalRead(run[1]) == Some(0)
    ensures FinalRead(run[0]) == None && QueryOf(b) in FromCache(run[1])
  {
    TwoAreSortable(up, a, b);
    var first := FirstRequest(up);
    var second := ReadsFirst(first, up, up', a, b);
    run := TwoRequests(first, second);
  }

  /** It serves the older session with the old dates, and so differs from a full scrape. */
  lemma NextDayDiffers(up: Snapshot, up': Snapshot, a: SessionRef, b: SessionRef) returns (run: seq<Request>)
    requires ListsTwo(up, a, b) && ListsTwo(up', a, b)
    requires up'.fetch == up.fetch && up'.numbers == up.numbers && up'.midnight != up.midnight
    ensures |run| == 2 && RunOk(run) && PayloadsKept(run, 1) && Final(run[1]).up == up'
    ensures ReplyTo(run[1]).Served? && FullScrape(up').Some? && ReplyTo(run[1]).schedules != FullScrape(up').value
  {
    run := NextDayRun(up, up', a, b);
    TwoAreSortable(up', a, b);
    NextDayKeepsPayloads(run, up, up', a, b);
    KeptRunReturnsScrape(run, 1);
    assert ScrapeBehind(History(run, 1), run[1], QueryOf(b)).midnight == up.midnight;
    assert !ScrapedToday(History(run, 1), run[1]);
  }

  lemma {:induction false} NextDayKeepsPayloads(run: seq<Request>, up: Snapshot, up': Snapshot, a: SessionRef,
      b: SessionRef)
    requires ListsTwo(up, a, b) && up'.fetch == up.fetch && up'.numbers == up.numbers
    requires |run| == 2 && Final(run[1]).up == up' && FinalRead(run[0]) == None && FinalRead(run[1]) == Some(0)
    requires |History(run, 1)| == 1 && History(run, 1)[0].up == up
    ensures PayloadsKept(run, 1)
  {
    forall query | query in FromCache(run[1])
      ensures up.fetch(query).Payload?
    {
      assert query in QueriesOf([a, b]);
    }
  }

  /** For example two sessions of one year with one class on Mondays from eight to nine. */
  lemma TwoSessions(midnight: int, numbers: Numbers) returns (up: Snapshot, a: SessionRef, b: SessionRef)
    ensures ListsTwo(up, a, b) && up.midnight == midnight && up.numbers == numbers
    ensures a == SessionRef("2024/2025", "2") && b == SessionRef("2024/2025", "1")
  {
    a, b := SessionRef("2024/2025", "2"), SessionRef("2024/2025", "1");
    var list := ScheduleData([], [a, b]);
    var page := ScheduleData([RawSubject("", "", "", "", [RawSlot("M", "0800", "0900", "", "")])], []);
    up := Snapshot((query: string) => Payload(if query == "" then list else page), midnight, numbers);
    OffersTwo(a, b);
    TwoSemesters(a, b);
    PageIsTimed(page, midnight, numbers);
  }

  lemma OffersTwo(a: SessionRef, b: SessionRef)
    requires a == SessionRef("2024/2025", "2") && b == SessionRef("2024/2025", "1")
    ensures Offered([a, b]) == [a, b] && QueryOf(a) != "" && QueryOf(b) != ""
  {
    assert QueryOf(a)[5] == '2' && QueryOf(b)[5] == '2';
    assert UNWANTED_SESSION_QUERIES[0][5] == '1' && UNWANTED_SESSION_QUERIES[1][5] == '0';
    assert [a, b][..1] == [a] && [a][..0] == [];
    assert Offered([a]) == [a];
  }

  lemma TwoSemesters(a: SessionRef, b: SessionRef)
    requires PlainRef(a) && PlainRef(b) && a.ses == b.ses && a.sem != "" && b.sem != "" && b.sem[0] < a.sem[0]
    ensures a != b && SortSessionNames(NameOf(a), NameOf(b))
  {
    LessAt("Sem " + b.sem, "Sem " + a.sem, 4);
    SessionOrder("Sem " + a.sem, a.ses, "Sem " + b.sem, b.ses);
  }

  lemma PageIsTimed(page: ScheduleData, midnight: int, numbers: Numbers)
    requires |page.subjects| == 1 && page.subjects[0].schedule == [RawSlot("M", "0800", "0900", "", "")]
    ensures HasTimestamps(SubjectsOf(page, midnight, numbers))
  {
    var slots := page.subjects[0].schedule;
    TrimSpaceTrims("0800");
    TrimSpaceTrims("0900");
    assert Timed(slots[0]);
    SlotDaysNotEmpty(slots[0]);
    assert Offset(slots, 1) == Offset(slots, 0) + |SlotDays(slots[0])|;
    TimestampCount(slots, midnight);
    assert SubjectsOf(page, midnight, numbers)[0].timestamps == Timestamps(slots, midnight);
  }

  lemma SlotDaysNotEmpty(slot: RawSlot)
    ensures SlotDays(slot) != []
  {
  }
}
