/** The errors of the scrapers, and the recovery from a stale session: one refresh, one retry. */
module Retry {
  import opened Options

  datatype Error = ScheduleIsEmpty | NoCarryMark | StaleSession | InvalidToken | Upstream(message: string)

  /** What one run of a scrape reports. */
  datatype Report = Report(stale: bool, err: Option<Error>)

  /** What refreshSession returns. */
  datatype Relogin = NewCookie(cookie: string) | LoginFails(error: Error)

  /** The calls runWithRetry makes. */
  datatype Action = Scrape(cookie: string) | Refresh

  /** The scrape is run again exactly when the first run is stale without an error and the refresh
      succeeds. */
  predicate Retries(first: Report, relogin: Relogin) {
    first.err.None? && first.stale && relogin.NewCookie?
  }

  /** The error of the whole, given how each part ends; `second` counts only when there is a retry. */
  function Verdict(first: Report, relogin: Relogin, second: Report): Option<Error> {
    if first.err.Some? then first.err
    else if !first.stale then None
    else if relogin.LoginFails? then Some(relogin.error)
    else if second.err.Some? then second.err
    else if second.stale then Some(StaleSession)
    else None
  }

  /** `fn(cookie, n)` is how run number `n` of the scrape ends with a cookie. */
  method RunWithRetry(cookie: string, refresh: () -> Relogin, fn: (string, nat) -> Report)
      returns (err: Option<Error>, log: seq<Action>)
    ensures var second := if refresh().NewCookie? then fn(refresh().cookie, 1) else fn(cookie, 0);
            err == Verdict(fn(cookie, 0), refresh(), second)
    ensures log == [Scrape(cookie)] +
                   (if fn(cookie, 0).err.None? && fn(cookie, 0).stale then [Refresh] else []) +
                   (if Retries(fn(cookie, 0), refresh()) then [Scrape(refresh().cookie)] else [])
  {
    var report := fn(cookie, 0);
    log := [Scrape(cookie)];
    if report.err.Some? {
      return report.err, log;
    }
    if !report.stale {
      return None, log;
    }
    var relogin := refresh();
    log := log + [Refresh];
    if relogin.LoginFails? {
      return Some(relogin.error), log;
    }
    report := fn(relogin.cookie, 1);
    log := log + [Scrape(relogin.cookie)];
    if report.err.Some? {
      return report.err, log;
    }
    if report.stale {
      return Some(StaleSession), log;
    }
    return None, log;
  }

  /** Success means that the last run of the scrape was neither stale nor in error; otherwise the first
      thing that failed is reported, and a second stale run as a stale session. */
  lemma VerdictOfLastRun(first: Report, relogin: Relogin, second: Report)
    ensures Verdict(first, relogin, second).None? <==>
            var last := if Retries(first, relogin) then second else first; last.err.None? && !last.stale
    ensures first.err.Some? ==> Verdict(first, relogin, second) == first.err
    ensures first.err.None? && first.stale && relogin.LoginFails? ==>
              Verdict(first, relogin, second) == Some(relogin.error)
    ensures Retries(first, relogin) && second.err.Some? ==> Verdict(first, relogin, second) == second.err
    ensures Retries(first, relogin) && second.err.None? && second.stale ==>
              Verdict(first, relogin, second) == Some(StaleSession)
  {
  }
}
