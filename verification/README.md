# A verified model of GoMa'luum's session cache, schedule pipeline and scraping kernels

GoMa'luum is an HTTP service in front of IIUM's student portal i-Ma'luum. This project models the parts of
it that carry state across requests or goroutines, and proves what they promise.

## The session cache

A request needs the user's i-Ma'luum cookie. `TokenManager` (L1) keeps it in memory for thirty minutes, GEI
(L2) keeps it across restarts and instances, and a login mints a new one. A singleflight table collapses the
refreshes of one user. `refreshSession` evicts both caches when a page turns out to be the login page.

* `SessionProtocol.dfy` is a state machine: every atomic action of `GetToken`, `sessionFunc` and
  `refreshSession` is one step, and the steps of any number of calls interleave in any order. A step carries
  what the environment decides: whether a GEI call took effect, how a login ended, how far the clock moved.
  Each cookie carries its history (for whom, and by which login, it was minted); no step looks at it.
* `SessionInvariants.dfy`: one refresh per user, no cookie for the wrong user, a failed refresh writes nothing.
* `SessionCoherence.dfy`: L1 and GEI hold the same cookie, and every login is accounted for.
* `SessionAgreement.dfy`: what a client can see, the cookie texts. The exact causes of a disagreement, for any
  number of processes and for one, and runs from the start that disagree.
* `SessionFreshness.dfy`: when an eviction really gets rid of the old cookie. A state is *clear* for a user
  when no live L1 entry, no GEI session and no flight past its GEI read is left. Clear states are exactly
  those after which every later success is fresh; from any other state a run is constructed that serves an old
  cookie.
* `SessionTiming.dfy`: the age of L1 hits, and the completion of every finite set of calls.
* `SessionServer.dfy`: the code itself, on mutable L1 and GEI maps, one call at a time. Each action is
  recorded in a run of the state machine, so the theorems about runs apply to it.

* `Recovery.dfy`: the refresh inside the retry of a scrape, and the cookie the second attempt runs with.

## The schedule pipeline

* `ScheduleMapping.dfy`: weekday codes, times, and the public form of a payload.
* `Sessions.dfy`: the order of session names and when it works, the dropdown, the newest session, and sorting.
* `Retry.dfy`: one refresh and one retry around a scrape.
* `WorkerPool.dfy`: five workers over two buffered channels with a sticky `stale` flag, as interleaved steps.
  `RunPool` is run by a scheduler that picks any possible step; if a job panics it never returns a result.
* `ScheduleResolve.dfy`: which sessions are scraped and which come from the cache.
* `ScheduleCache.dfy`: one attempt of a request, compared with a full scrape.
* `ScheduleRuns.dfy`: runs of many requests over a changing i-Ma'luum. A cache read returns the schedules of
  any earlier store, not only of the last one, so requests that overlap in time are covered.
* `ScheduleServer.dfy`: the handler, on the mutable map GEI holds; each user's requests form such a run.

The time of a slot is stored as a Unix time on the day of the scrape (`normalizeTime` uses today's date). A
session served from the cache on a later day therefore differs from what a scrape of the same payload would
give, so the comment "past semesters are immutable" (`internal/server/schedule.go:158`) does not hold for the
response. The comparison with a full scrape is therefore proved for any view of a schedule (`Norm`). In every
run a reply is the full scrape, up to a view, if and only if each session it serves from the cache is answered
as it was when it was scraped, however many stores ago; so for kept payloads it is exactly the full scrape if
and only if every dated session it serves from the cache was scraped at the present midnight. `NextDayDiffers`
constructs a run of two requests in which it is not.

The order of session names is a strict total order on a set of names if and only if no name that does not
split into two parts crosses two sessions; only then can every list of sessions be sorted. A year with a comma
can break it (`RealNamesCanCycle`). What is proved about sorting and about the pipeline asks for no more than
that the order works on the names at hand.

## The smaller kernels

* `CarryMark.dfy`: table rows grouped into subjects through a pointer into a growing slice; the backing array
  is reused by the retry and replaced when it is full, by one of any larger capacity.
* `Address.dfy`: the fixpoint loop of `formatAddress`.
* `Relay.dfy`: the round robin over egress relays, with its 64-bit counter.
* `Text.dfy`: the functions of Go's `strings` package that these use. `Options.dfy`: a value that may be missing.
  `Counting.dfy`: truth values as numbers.

## Model

| member | source | states |
|---|---|---|
| SessionInvariants.StepKeepsInv | pkg/sf/singleflight.go:27-79 | every step of any call, of the clock or of another process keeps the invariant: flights are led by one running call of their user, waiters wait for a leader or a finished call, and every cookie belongs to the user whose place it is in |
| SessionInvariants.InvHolds | pkg/sf/singleflight.go:27-79 | the invariant holds in every state of every run of a fresh process |
| SessionInvariants.Exclusivity | pkg/sf/singleflight.go:40-66 | two calls of one user that are both inside a flight are the same call: at most one refresh closure runs per user |
| SessionInvariants.Provenance | internal/server/paseto.go:169-193 | every cookie in L1, in GEI or returned for a user was minted for that user by a login already started, or was the one GEI held for that user at the start |
| SessionInvariants.FailedRefreshWritesNothing | pkg/sf/singleflight.go:51-55 | a call that fails has written neither cache, in any interleaving |
| SessionCoherence.CoherenceHolds | internal/server/paseto.go:169-193 | with one process, and no refresh of the user losing its StoreSession while GEI holds a different session of that user, in every state a live L1 entry implies that GEI holds the same cookie or none, also between StoreSession and the L1 write |
| SessionAgreement.AgreementExactly | internal/server/paseto.go:169-206 | with any number of processes and any failures, the cookie texts agree in every state of a run if and only if no call writes a live L1 entry after losing its StoreSession over another cookie, or after another process stored another cookie while the call was about to write, with GEI left alone in between; and no other process stores a cookie other than that of a live entry |
| SessionAgreement.OneProcessAgreesExactly | internal/server/paseto.go:173-191 | with one process they agree in every state if and only if no refresh whose GetSession was not answered loses its StoreSession over another cookie of the user, which is not deleted before the refresh writes L1 in time |
| SessionAgreement.DifferenceHasCause | internal/server/paseto.go:186-191 | whenever a call is about to write L1 a cookie other than that in GEI, it lost its store over it or another process stored it since, and GEI was left alone after that |
| SessionAgreement.SightedStaysEmpty | internal/server/paseto.go:173-187 | with one process a refresh that found GEI empty still finds it empty when it stores |
| SessionCoherence.AnsweredIsCoherent | internal/server/paseto.go:173-185 | with one process whose GEI reads are answered the caches agree in every state, whatever stores are lost |
| SessionAgreement.LostStoreDisagrees | internal/server/paseto.go:173-191 | a run of one process in ten steps that ends with two different cookie texts: a GEI read that fails, a login, a lost StoreSession, the L1 write |
| SessionAgreement.OtherProcessDisagrees | internal/server/paseto.go:186-190 | a run in which every GEI call takes effect and that ends with two different cookie texts, because another process stores its own session |
| SessionCoherence.SessionConservation | internal/server/paseto.go:162-206 | sessions at the start plus successful logins equal evictions, lost stores, the session stored now and the one about to be stored; StoreSession never overwrites a session |
| SessionCoherence.OneDeletePerRecovery | internal/server/paseto.go:198-206 | the refreshSession calls begun are those that called DeleteSession and those still to call it; evictions are at most as many |
| SessionCoherence.LoginBound | internal/server/paseto.go:162-206 | with one process whose GEI reads are answered, a user's logins are at most one plus the refreshSession calls plus the lost stores, one less if GEI held a session at the start |
| SessionFreshness.FreshnessExactly | pkg/sf/singleflight.go:27-79 | from a state on every new call of a user that succeeds returns a cookie of a login started later, however the process goes on, if and only if the state is clear for the user |
| SessionFreshness.NotClearServesStale | pkg/sf/singleflight.go:31-66 | from every state that is not clear a run of one process is constructed in which a new call returns an old cookie |
| SessionFreshness.FreshFrom | internal/server/paseto.go:169-193 | in every run from a clear state both caches, the open flight and every answer to a call not settled before hold only cookies of later logins |
| SessionFreshness.FreshnessAfterEviction | internal/server/paseto.go:198-206 | if DeleteSession takes effect and no flight for the user was open since Invalidate, every call of the user not yet settled at the delete, this refreshSession included, gets a cookie of a login started after the delete |
| SessionTiming.HitAge | internal/server/paseto.go:169-193 | a cookie served by either L1 check was written by a refresh of the same user that began less than the TTL ago, whether it hit GEI or logged in |
| SessionTiming.ActionsAreBounded | pkg/sf/singleflight.go:27-72 | the actions taken plus those left never exceed twelve per call begun plus what was left at the start |
| SessionTiming.SomeCallCanAct | pkg/sf/singleflight.go:40-72 | while a call has not returned some call can act, even if every external call fails: no waiter waits forever |
| SessionTiming.AllCallsReturn | pkg/sf/singleflight.go:27-72 | every run goes on, without new calls and even if every external call fails, to a state in which all calls have returned |
| SessionTiming.QuiescentMeansDone | pkg/sf/singleflight.go:27-72 | a run in which no call can act has finished all calls |
| SessionServer.TokenManager.constructor | pkg/sf/singleflight.go:21-25 | a new token manager holds no entry |
| SessionServer.TokenManager.Lookup | pkg/sf/singleflight.go:31-38 | a hit is exactly an entry that has not expired, with its token |
| SessionServer.TokenManager.Put | pkg/sf/singleflight.go:57-63 | sets the entry of one user and no other |
| SessionServer.TokenManager.Invalidate | pkg/sf/singleflight.go:75-79 | removes the entry of one user and no other |
| SessionServer.Server.RefreshToken | internal/server/paseto.go:169-193 | sessionFunc in a flight on the real maps: a GEI hit is reused and only L1 changes, a failed login changes nothing, a login changes L1 and, if GEI obeys, GEI; the expiry counts from the start of the refresh; and it is a run of the protocol |
| SessionServer.Server.GetToken | pkg/sf/singleflight.go:27-72 | serves a live L1 entry and changes nothing, otherwise refreshes; and it is a run of the protocol |
| SessionServer.Server.EvictSession | internal/server/paseto.go:199-204 | removes the user from L1 and, if GEI obeys, from GEI |
| SessionServer.Server.RefreshSession | internal/server/paseto.go:198-206 | answers as GetToken on the evicted caches; the cookie comes from a login started during the call unless the delete did not take effect and GEI hands out the old session |
| ScheduleMapping.DayOfCode | pkg/utils/schedule_days.go:7-24 | each weekday code is read back as its weekday |
| ScheduleMapping.FirstDayNamed | pkg/utils/schedule_days.go:7-24 | the weekday of a text is the first one whose name it contains or whose code it is, and 7 if there is none |
| ScheduleMapping.DaysRoundTrip | internal/server/schedule.go:47-53 | a non-empty list of weekdays, written as codes joined with dashes, is read back as the same list |
| ScheduleMapping.CompactCodes | internal/server/schedule.go:28-33 | each compact code means the same days as its dashed spelling |
| ScheduleMapping.CompactKeys | internal/server/schedule.go:28-33 | there are four compact codes, and each is its days' codes written together |
| ScheduleMapping.SpacesDoNotMatter | internal/server/schedule.go:47-53 | removing spaces from a day code never changes its days |
| ScheduleMapping.NormalizeTimeExactly | internal/server/schedule.go:56-80 | a time is accepted if and only if, trimmed, it is hhmm of a time of day, or hmm of one before ten, and then has the text hhmm and that Unix time |
| ScheduleMapping.ShortTimesAreMorning | internal/server/schedule.go:59-61 | a three-digit time hmm is the time 0hmm |
| ScheduleMapping.MapSlot | internal/server/schedule_spa.go:129-145 | the loop over the days of a slot emits one timestamp per parsed day, and none for a slot without times |
| ScheduleMapping.WeekTimeFields | internal/server/schedule_spa.go:129-144 | a timestamp has the start of its slot's start, the end of its slot's end, and one of the days of its trimmed day code |
| ScheduleMapping.FirstNotBlankIsFirst | internal/server/schedule_spa.go:119-127 | the venue, and the lecturer, is that of the first slot that has one, and empty if none has |
| ScheduleMapping.MapSlots | internal/server/schedule_spa.go:117-147 | the loop over the slots yields the first venue and lecturer that are not blank and the timestamps of all slots |
| ScheduleMapping.MapSubject | internal/server/schedule_spa.go:103-150 | one subject with malformed credit hours and section as zero |
| ScheduleMapping.SubjectFields | internal/server/schedule_spa.go:104-115 | code, name, credit hours and section come from their parts of the payload, malformed numbers are zero, and a negative section wraps to 32 bits |
| ScheduleMapping.SubjectPlace | internal/server/schedule_spa.go:119-127 | the venue is that of the first slot with a venue, the lecturer that of the first slot with a lecturer |
| ScheduleMapping.MapSchedule | internal/server/schedule_spa.go:101-152 | one public subject per raw subject, in order, each with its code and title; none is dropped |
| ScheduleMapping.TimestampCount | internal/server/schedule_spa.go:129-146 | the timestamps are exactly one per parsed day of each slot whose start and end both parse |
| ScheduleMapping.TimestampAt | internal/server/schedule_spa.go:137-145 | the timestamp of day d of slot k stands after those of the earlier slots and the earlier days |
| ScheduleMapping.ScrapeDayMatters | internal/server/schedule.go:63-79 | the same payload scraped on two days gives the same subjects up to Unix times, and equal subjects if and only if the days are equal or nothing is timed |
| ScheduleMapping.ScrapeIsStamped | internal/server/schedule.go:71-79 | every Unix time of a scrape is its time of day on the day of that scrape |
| ScheduleMapping.SameUndated | internal/server/schedule.go:71-79 | two scrapes that agree up to Unix times are equal if and only if they are of the same day or show no times |
| Sessions.NamesAreComparable | pkg/utils/sort_sessions.go:6-25 | of two different names exactly one comes first, and none before itself |
| Sessions.NamesAreTransitive | pkg/utils/sort_sessions.go:6-25 | on well-formed names the order is transitive |
| Sessions.YearCountsFirst | pkg/utils/sort_sessions.go:14-24 | sessions without commas are ordered by year, the latest first, and within a year by semester, the highest first |
| Sessions.OrderWorksExactly | pkg/utils/sort_sessions.go:6-25 | on any set of names the order is transitive if and only if no malformed name in it crosses two of its sessions |
| Sessions.SortableExactly | internal/server/schedule.go:512-514 | every list of sessions with names in a set has an ordered arrangement if and only if the order is transitive on the set |
| Sessions.CommaInYearCycles | internal/server/schedule_spa.go:76-78 | two sessions, the newer with the higher semester, and the older one's year with a part added after a comma form a cycle |
| Sessions.RealNamesCanCycle | internal/server/schedule_spa.go:76-78 | a concrete cycle of three sessions, one with a comma in its year |
| Sessions.PlainRefs | internal/server/schedule_spa.go:76-78 | sessions without commas have well-formed names, and different ones different names |
| Sessions.KeyedRefs | internal/server/schedule_spa.go:70-72 | sessions without an ampersand in the year have different queries if they are different |
| Sessions.QueryParts | internal/server/schedule_spa.go:70-72 | a query consists of the year and the semester, in this order |
| Sessions.SessionsFromAllSem | internal/server/schedule_spa.go:83-95 | the queries and names of the offered sessions, aligned |
| Sessions.OfferedExactly | internal/server/schedule.go:22-25 | a session is offered if and only if it is listed and no placeholder |
| Sessions.OfferedInOrder | internal/server/schedule_spa.go:86-93 | the offered sessions keep the order of the list |
| Sessions.PlaceholdersAreDropped | internal/server/schedule.go:22-25 | the sessions 1111/1111-1 and 0000/0000-0 are never offered |
| Sessions.LatestSessionQuery | internal/server/schedule.go:160-168 | the query at the index one pass with the order finds, also for unaligned lists |
| Sessions.LatestComesFirst | internal/server/schedule.go:157-168 | among distinct names on which the order works the one found comes before every other |
| Sessions.NoneBeforeLatest | internal/server/schedule.go:157-168 | no name of the list comes before the one found, also among repeated names |
| Sessions.NewestHasLatestYear | internal/server/schedule.go:157-168 | the query returned is that of an offered session such that none has a later year, and none of its year a higher semester |
| Sessions.SortedPermutes | internal/server/schedule.go:512-514 | sorting keeps the responses as a multiset |
| Sessions.SortedIsOrdered | internal/server/schedule.go:512-514 | where the order works, no later response comes before an earlier one |
| Sessions.SortedIsUnique | internal/server/schedule.go:512-514 | responses that their names identify have at most one ordered arrangement |
| Sessions.SortedIsConfluent | internal/server/schedule.go:512-514 | the sorted list does not depend on the order of arrival |
| Sessions.LatestIsSortedHead | internal/server/schedule.go:160-168 | the newest session is the head of the sorted list |
| Retry.RunWithRetry | internal/server/scrape.go:140-166 | the error and the exact sequence of calls: at most two scrapes and one refresh, the second scrape with the new cookie |
| Retry.VerdictOfLastRun | internal/server/scrape.go:140-166 | success means that the last scrape was neither stale nor in error; otherwise the error of the first scrape, of the refresh or of the second scrape is reported, or a second stale scrape as the stale-session error |
| Recovery.RefreshFor | internal/server/scrape.go:175-179 | the refresh passes on exactly the session that GEI still holds after the delete and hands out, otherwise the cookie or the error of the login; the cookie is of a login started during the refresh unless GEI still holds the old session; the caches change as in refreshSession |
| Recovery.RetryIsFresh | internal/server/scrape.go:153-158 | among interleaved calls, if the refreshSession of a stale scrape deletes the session and no flight overlaps its eviction, the scrape is run again exactly when a cookie is returned, and with a cookie of a login started after the delete |
| WorkerPool.StepKeepsInv | internal/server/schedule.go:86-155 | every step of producer, workers and collector keeps: each job sent is in exactly one place, every result is right for its job, and the flag is set before a result made up after a bounce |
| WorkerPool.StepKeepsAccount | internal/server/schedule.go:114-155 | a step moves a job from one place to another and neither loses nor repeats it, except that a panic counts it as lost |
| WorkerPool.SendNeverBlocks | internal/server/schedule.go:118-119 | the results channel always has room for the result of a busy worker |
| WorkerPool.NeverStuck | internal/server/schedule.go:115-155 | without panics some step is possible until all results are collected |
| WorkerPool.StepMakesProgress | internal/server/schedule.go:86-155 | every step decreases a bound on the steps left |
| WorkerPool.CompletesUnlessPanic | pkg/utils/catch_panic.go:8-14 | a trace can collect all results if and only if no job panics before its send; a recovered panic leaves the collector waiting |
| WorkerPool.CollectResults | internal/server/schedule.go:137-154 | the first error to arrive, else all responses in the order of arrival |
| WorkerPool.RunPool | internal/server/schedule.go:115-155 | under every scheduler the pool returns if and only if no job panics, and then with one right result per job and the flag set if and only if a page bounced |
| WorkerPool.PoolReturnsAll | internal/server/schedule.go:115-155 | if every session is answered the responses are, as a multiset, one per job |
| WorkerPool.Confluence | internal/server/schedule.go:512-514 | two complete runs over the same jobs give the same sorted response, if the order works on the names and they identify the responses |
| WorkerPool.ErrorIsOfAJob | internal/server/schedule.go:150-152 | an error of the pool is the error of one of its jobs, the first to arrive |
| WorkerPool.SucceedsExactly | internal/server/schedule.go:150-154 | without a bounce the pool succeeds if and only if every session is answered |
| WorkerPool.SingleJob | internal/server/schedule_spa.go:182-228 | what one job gives for each way its fetch can end: the mapped payload, an empty schedule for null, an empty schedule with the flag up for a bounce, the error of the page or of the data, and the empty-schedule error without a token |
| WorkerPool.UnflaggedIsGenuine | internal/server/schedule.go:86-112 | if the flag is down at the end every response is what i-Ma'luum answered for its session |
| ScheduleResolve.ResolveSchedules | internal/server/schedule.go:176-239 | the result for the sessions to scrape, merged with the cache when it is used; an error of the pool is passed on, and it returns if and only if the pool does |
| ScheduleResolve.PlanExactly | internal/server/schedule.go:196-204 | a session is scraped if and only if it is offered and newest or not cached |
| ScheduleResolve.PlanInOrder | internal/server/schedule.go:198-204 | the sessions to scrape keep the order of the dropdown and none is repeated |
| ScheduleResolve.ByQueryIsLast | internal/server/schedule.go:191-194 | of several cached responses with one query the last one counts |
| ScheduleResolve.NewestIsScraped | internal/server/schedule.go:206-212 | the newest session is always scraped, so the pool never runs on nothing |
| ScheduleResolve.MergeExactly | internal/server/schedule.go:218-229 | the merge follows the dropdown element for element, scraped before cached |
| ScheduleResolve.CoverageOfMerge | internal/server/schedule.go:191-238 | on the cache path the result has the queries of the dropdown in its order; the newest and the uncached sessions come from this scrape, all others from the cache, and nothing else appears |
| ScheduleCache.RunAttempt | internal/server/schedule.go:466-500 | one attempt of the scrape closure, whatever it meets: bounced, failed, succeeded, panicked or waiting for ever, with the flag looked at after the pool |
| ScheduleCache.AttemptBouncesExactly | internal/server/schedule.go:472-497 | an attempt bounces if and only if the page that lists the sessions does, or the pool returns without an error after some page bounced |
| ScheduleCache.ListPageDecides | internal/server/schedule.go:472-488 | the errors, the empty lists and the panic of the page that lists the sessions |
| ScheduleCache.PoolDecides | internal/server/schedule.go:490-498 | otherwise the attempt hangs if and only if a job panics, fails with the error of the pool, and succeeds if and only if there is neither an error nor a bounce |
| ScheduleCache.SuccessIsGenuine | internal/server/schedule.go:490-497 | a response of a successful attempt comes from the cache if a cached response stands in for its session, and otherwise is what i-Ma'luum answered in that attempt |
| ScheduleCache.SuccessIsServed | internal/server/schedule.go:176-239 | a successful attempt returns, as a multiset, the cached response or the scrape of each offered session |
| ScheduleCache.SortedCommutes | internal/server/schedule.go:512-514 | sorting looks at names only |
| ScheduleCache.PlainIsSortable | internal/server/schedule_spa.go:76-78 | a dropdown of sessions without commas has a sorted order that the names determine |
| ScheduleCache.RequestMatchesExactly | internal/server/schedule.go:466-514 | a successful response is the full scrape, up to a view, if and only if each cached response served is what a scrape of its session would yield, up to that view |
| ScheduleCache.RefreshIsFullScrape | internal/server/schedule.go:177-179 | a forced refresh succeeds if and only if sessions are listed and all of them answered, and then returns the full scrape |
| ScheduleRuns.CacheIsUncontaminated | internal/server/schedule.go:516-522 | in every run everything ever stored is what i-Ma'luum answered for its query in the attempt that scraped it, followed back through the stores it was served from; never the empty response made up after a bounce |
| ScheduleRuns.TriesAgainExactly | internal/server/scrape.go:145-158 | the scrape is run again if and only if the first attempt bounced and the refresh gave a cookie |
| ScheduleRuns.ReplyCases | internal/server/schedule.go:499-527 | what the client gets for each way the attempts can end; a success is served with exactly its responses |
| ScheduleRuns.RunMatchesExactly | internal/server/schedule.go:466-522 | over every run of cache hits, forced refreshes, failures, panics and dropped sessions, a success is the full scrape of its moment, up to a view, if and only if every session served from the cache is answered as when it was scraped, up to that view |
| ScheduleRuns.RunRefinesScrape | internal/server/schedule.go:466-522 | if since each store that was read only sessions that are newest or not cached have changed, up to a view, every success is the full scrape of its moment, up to that view |
| ScheduleRuns.RunReturnsScrapeExactly | internal/server/schedule.go:157-159 | over every run in which cached sessions change in nothing but dates, a success is exactly the full scrape if and only if every dated session served from the cache was scraped at the present midnight |
| ScheduleRuns.KeptRunReturnsScrape | internal/server/schedule.go:157-159 | the same for runs in which cached payloads are kept; and then every success is the full scrape up to Unix times |
| ScheduleRuns.NextDayDiffers | internal/server/schedule.go:157-159 | a run of two requests on two days with the same payloads whose second reply is not the full scrape |
| ScheduleRuns.TwoSessions | internal/server/schedule.go:157-159 | a concrete i-Ma'luum with two sessions for which there is such a run |
| ScheduleServer.ScheduleServer.TryScrape | internal/server/schedule.go:466-500 | an attempt reads the cache if and only if a GEI client is configured, no refresh is forced and GEI answers |
| ScheduleServer.ScheduleServer.ScrapeWithRetry | internal/server/scrape.go:168-180 | how the deciding attempt ends, as one more request of the user's run; the session is refreshed exactly when the first attempt bounces, and the second attempt runs with the cookie of the refresh |
| ScheduleServer.ScheduleServer.Handle | internal/server/schedule.go:466-522 | without a token the invalid-token error and no change; otherwise the reply of one more request of the user's run (or none, when a job panics), stored for this user only, if and only if it is served, GEI obeys and the user name is not empty; the session is refreshed exactly when the first attempt bounces, and a second attempt follows exactly when that gives a cookie, with this cookie |
| ScheduleServer.ScheduleServer.HeldIsGenuine | internal/server/schedule.go:516-522 | after any requests, everything GEI holds was an answer of i-Ma'luum in the attempt that scraped it |
| CarryMark.ExtractsLogged | internal/server/carry_mark.go:25-37 | a logged string without a quote is extracted whole if nothing is logged before it |
| CarryMark.ExtractedWasLogged | internal/server/carry_mark.go:25-37 | what is extracted is the string of the first log call of the script |
| CarryMark.ScriptNamesSession | internal/server/carry_mark.go:72-81 | a script whose first log call logs a string names it, whatever white space is around it |
| CarryMark.FirstSessionStays | internal/server/carry_mark.go:72-81 | the first script that names a session decides |
| CarryMark.HeadsExactly | internal/server/carry_mark.go:99-112 | the rows with a code open the subjects, once each and in order |
| CarryMark.RowFields | internal/server/carry_mark.go:83-123 | what a row does, cell by cell: a short row nothing, a row with a code a new subject, a named row without code a component of the last subject |
| CarryMark.SubjectFields | internal/server/carry_mark.go:100-108 | each field of a subject is the trimmed cell of the row that opens it |
| CarryMark.ComponentFields | internal/server/carry_mark.go:114-119 | each field of a component is the trimmed cell of a row between its subject and the next |
| CarryMark.GroupedWithMore | internal/server/carry_mark.go:99-123 | one more row turns the grouping of the rows so far into the grouping of all: a new subject, a component of the last one, or nothing |
| CarryMark.NoComponentIsLost | internal/server/carry_mark.go:113-123 | from the first subject on no component row is lost, repeated or moved; those before it are dropped |
| CarryMark.Accumulator.Reset | internal/server/carry_mark.go:63-67 | empties the accumulators and keeps the backing array |
| CarryMark.Accumulator.Grow | internal/server/carry_mark.go:110 | a larger array with the same live elements |
| CarryMark.Accumulator.Append | internal/server/carry_mark.go:110 | adds one element, in place or in a new array |
| CarryMark.Accumulator.AppendComponent | internal/server/carry_mark.go:121 | the write through the pointer reaches the last live subject and no other |
| CarryMark.Accumulator.HandleRow | internal/server/carry_mark.go:83-126 | the row callback adds the row to the subjects and leaves the pointer on the last live element, also after reallocation |
| CarryMark.Accumulator.HandleScript | internal/server/carry_mark.go:72-81 | the first session found stays |
| CarryMark.Accumulator.Scrape | internal/server/carry_mark.go:61-131 | whatever an earlier attempt left, the accumulators end as the grouping of this page's rows and the session of its scripts |
| CarryMark.Accumulator.ScrapeWithRetry | internal/server/carry_mark.go:61-136 | the error is the verdict of the retry protocol, and the accumulators hold what the last page visited says, a second page being visited with the cookie of the refresh |
| CarryMark.CarryMarkHandler | internal/server/carry_mark.go:48-148 | the reply of the handler for its two possible pages, the second one visited with the cookie of the refresh |
| CarryMark.ServedIsOnePage | internal/server/carry_mark.go:132-148 | carry marks are served if and only if the deciding page was neither bounced nor in error and opens a subject, and are the grouping of that page alone |
| CarryMark.RefusedCases | internal/server/carry_mark.go:132-142 | which error is returned for each way the pages and the refresh can end |
| Address.ReplacingKeepsCollapse | internal/server/profile.service.go:25-27 | a replacement pass does not change the one-pass collapse of runs of spaces |
| Address.ReplacingShortens | internal/server/profile.service.go:25-27 | a pass over a line with a double space shortens it, so the loop ends |
| Address.CollapseCleans | internal/server/profile.service.go:24-27 | the collapse has no double space, the same characters and ends, and leaves clean strings alone |
| Address.CollapseKeepsWords | internal/server/profile.service.go:24-27 | the collapse neither changes a word nor runs two together |
| Address.CleanLineKeepsWords | internal/server/profile.service.go:23-27 | a cleaned line has the words of the line, tabs counting as spaces |
| Address.FormatAddress | internal/server/profile.service.go:14-34 | the fixpoint loops compute the collapsed, trimmed, non-empty lines joined with commas |
| Address.CleanLinesInOrder | internal/server/profile.service.go:22-31 | lines are cleaned one by one and keep their order |
| Address.FormattedLineByLine | internal/server/profile.service.go:19-33 | the first line is cleaned and joined in front of the rest, or left out if it is blank |
| Address.FormattedJoinsLines | internal/server/profile.service.go:19-33 | tidy lines are joined with commas as they are, in their order |
| Address.FormattedIsTidy | internal/server/profile.service.go:14-34 | the result is one trimmed line without tab or double space |
| Address.FormattedIsIdempotent | internal/server/profile.service.go:14-34 | formatting twice is formatting once, and a string is left alone if and only if it is tidy |
| Relay.ParseRelayPrefixes | internal/server/relay.go:82-90 | the loop yields the trimmed parts that are not blank |
| Relay.NotBlankExactly | internal/server/relay.go:84-88 | a prefix is in the list if and only if it is the non-empty trim of a part |
| Relay.NotBlankInOrder | internal/server/relay.go:84-88 | the prefixes keep the order of the parts |
| Relay.PaddedRoundTrip | internal/server/relay.go:82-90 | a list of prefixes with white space around each is read as the prefixes |
| Relay.PrefixesRoundTrip | internal/server/relay.go:81-90 | every prefix is trimmed, not blank and without a comma, and a list of such prefixes joined with commas is read back |
| Relay.RelayTransport.RoundTrip | internal/server/relay.go:45-68 | other hosts pass through and leave the counter alone; an i-Ma'luum request takes the next slot of the 64-bit counter, even if its relay URL does not parse |
| Relay.NewImaluumRelay | internal/server/relay.go:73-79 | no relay if and only if no prefix is usable; otherwise a fresh one |
| Relay.FairShare | internal/server/relay.go:49 | in a window of requests without wrap each of n relays gets the floor of its share, or one more when n does not divide the window |
| Relay.RoundRobinIsBalanced | internal/server/relay.go:36-38 | any two relays differ by at most one, and over k rounds each gets exactly k |
| Relay.TransportIsBalanced | internal/server/relay.go:45-49 | whatever requests a transport has served, to i-Ma'luum and to other hosts, the slots it really used in any window without wrap differ by at most one, and are equal over whole rounds |
| Relay.LastRelayMissesRound | internal/server/relay.go:49 | where the counter wraps and n does not divide its range, the last relay misses a round |
| Relay.BalancedForeverExactly | internal/server/relay.go:49 | every round wherever it starts uses every relay once if and only if n divides the range of the counter |
| Text.JoinSplit | internal/server/profile.service.go:19 | strings.Split: joining the pieces gives the string back |
| Text.SplitJoin | internal/server/schedule.go:52 | strings.Split: splitting joined pieces gives them back if none holds the separator's first character |
| Text.ReplacingJoinsSplit | internal/server/profile.service.go:23 | strings.ReplaceAll: replacing is splitting and joining with something else |
| Text.TrimSpaceTrims | internal/server/schedule.go:57 | strings.TrimSpace: no white space at the ends, and trimmed strings are left alone |
| Text.AsciiSpaces | internal/server/schedule.go:57 | among ASCII characters exactly the blank and the controls from tab to return are white space |
| Text.TrimSpaceCutsSpace | internal/server/schedule.go:57 | strings.TrimSpace: what is cut off is white space at the ends and nothing else |
| Text.TrimSpaceOfPadded | internal/server/relay.go:85 | strings.TrimSpace: a trimmed string with white space around it is trimmed to itself |
| Text.IndexOfIsFirst | internal/server/carry_mark.go:27 | strings.Index: the first occurrence, or none |
| Text.LessIsTransitive | pkg/utils/sort_sessions.go:11 | the order of strings is transitive |
| Text.LessIsTotal | pkg/utils/sort_sessions.go:11 | of two strings exactly one is less, unless they are equal |

## Left out

- SessionServer.Server.GetToken: runs one call at a time; interleaved calls are modelled by the steps of `SessionProtocol`, of which each call is a run.
- A refresh closure that panics inside the singleflight group: every closure is taken to return.
- The login itself is a step that returns any text or fails; the debug user's fixed cookie is not modelled.
- GEI RPCs take effect at one instant, or not at all; a call that fails after it took effect is the step that took effect.
- SessionServer.Server.RefreshToken: one flight at a time, like GetToken.
- SessionServer.Server.EvictSession: between flights; the interleavings of an eviction with flights are in `SessionFreshness`.
- SessionServer.Server.RefreshSession: one call at a time, like GetToken.
- ScheduleServer.ScheduleServer.Handle: a handler that waits for ever for a panicked job gives no reply; the write timeout of the HTTP server, which may close the connection meanwhile, is not modelled.
- The clock never goes back, as the monotone reading Go compares never does.
- ScheduleCache.SuccessIsServed: for years without an ampersand, like RunMatchesExactly below.
- Recovery.RefreshFor: the error of a failed login is a parameter; its content is not modelled.
- ScheduleRuns.RunMatchesExactly: for years without an ampersand, since otherwise two sessions can share a query; and for dropdowns whose names sort and identify the sessions.
- ScheduleMapping.MapSlot: all times of one mapping count from one midnight, which is a parameter; a mapping that runs over midnight, and a time zone that cannot be loaded, are not captured.
- ScheduleMapping.NormalizeTimeExactly: the length test counts characters; the original counts bytes, which differs only for text that no time of day has.
- ScheduleMapping.MapSubject: strconv.ParseFloat and the conversion to int32 are parameters; credit hours are reals, so NaN and infinities are left out.
- Sessions.SortedIsOrdered: sort.Slice is a verified insertion sort; where the order does not work the original's arrangement is any its algorithm reaches, and no claim is made.
- CarryMark.Accumulator.HandleRow: the pool of cell buffers and the mutex are left out; callbacks run one after another, as the collector runs them.
- Random identifiers of schedules, subjects and components: not part of the modelled records.
- Text: strings are sequences of characters; invalid UTF-8 is left out.
- The HTML, JSON and gRPC layers: a page is what its callbacks see, a fetch is one of its outcomes, and schedules are stored and read back unchanged.
- Results, exams, starpoints, disciplinary records, ads and downloads: row maps that would only add easy members.
- API keys and access tokens: their round trips rest on library cryptography.
