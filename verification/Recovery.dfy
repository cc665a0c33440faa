/** The session refresh inside the retry of a scrape: which cookie the second attempt runs with. */
module Recovery {
  import opened Options
  import opened Retry
  import opened SessionProtocol
  import opened SessionInvariants
  import opened SessionFreshness
  import SessionServer

  /** The part of a request's token that the scrapers use. */
  datatype Token = Token(username: User, cookie: string)

  /** What the world does while a session is refreshed, and the error of the login if it fails. */
  datatype Aid = Aid(out: SessionServer.Outside, error: Error)

  function ReloginOf(r: SessionProtocol.Result, error: Error): Relogin {
    if r.Ok? then NewCookie(r.cookie.text) else LoginFails(error)
  }

  /** What GEI holds after the delete of the refresh. */
  function Evicted(gei: bool, sessions: map<User, Cookie>, m: User, aid: Aid): map<User, Cookie> {
    if gei && aid.out.deleted then sessions - {m} else sessions
  }

  /** The cookie or the error that the refresh passes on: a session GEI still holds and hands out, otherwise
      the login's. */
  function ReloginFor(gei: bool, sessions: map<User, Cookie>, m: User, aid: Aid): Relogin {
    var left := Evicted(gei, sessions, m, aid);
    if gei && aid.out.answered && m in left then NewCookie(left[m].text)
    else if aid.out.login.Some? then NewCookie(aid.out.login.value)
    else LoginFails(aid.error)
  }

  /** The refresh passes on exactly this; `minted` is the cookie passed on, and of a login started after
      action `start`, unless GEI still holds the old session. */
  predicate Recovers(gei: bool, sessions: map<User, Cookie>, m: User, aid: Aid, start: nat,
                     relogin: Relogin, minted: Option<Cookie>) {
    relogin == ReloginFor(gei, sessions, m, aid) && (minted.Some? <==> relogin.NewCookie?) &&
    (minted.Some? ==>
       relogin.cookie == minted.value.text &&
       (m !in Evicted(gei, sessions, m, aid) ==> SessionFreshness.Fresh(minted.value, start)))
  }

  /** A refresh can be asked for: the clock has not passed the times at which it acts. */
  ghost predicate Ready(server: SessionServer.Server, aid: Aid)
    reads server, server.tokenManager
  {
    server.Valid() && server.run.Last().now <= aid.out.readAt <= aid.out.recheckAt <= aid.out.refreshAt
  }

  /** The refresh that scrapeWithRetry passes on. */
  method RefreshFor(server: SessionServer.Server, m: User, aid: Aid)
      returns (relogin: Relogin, ghost minted: Option<Cookie>)
    requires Ready(server, aid)
    modifies server`run, server`actions, server`sessions, server.tokenManager
    ensures server.Valid() && server.Continues(old(server.run))
    ensures Recovers(server.gei, old(server.sessions), m, aid, old(server.actions), relogin, minted)
    ensures SessionServer.Answers(
              old(server.tokenManager.tokens) - {m}, Evicted(server.gei, old(server.sessions), m, aid),
              server.tokenManager.tokens, server.sessions, server.gei, m, aid.out, old(server.actions),
              if minted.Some? then SessionProtocol.Ok(minted.value) else SessionProtocol.Failed)
  {
    var r := server.RefreshSession(m, aid.out);
    relogin := ReloginOf(r, aid.error);
    minted := if r.Ok? then Some(r.cookie) else None;
  }

  /** Among interleaved calls: if a scrape is stale, its refreshSession call `c` deletes the session at `j`,
      and no flight of the user was open since its Invalidate at `i`, then the scrape is run again exactly
      when the call returns a cookie, and with a cookie of a login started after the delete. */
  lemma RetryIsFresh(r: Run, i: nat, j: nat, c: nat, stale: Report, error: Error)
    requires r.FromInit() && r.OneProcess() && i < j < |r.steps| && c < |r.states[i].calls|
    requires r.steps[i] == Act(c, SessionProtocol.Invalidate) && r.steps[j] == Act(c, DeleteL2(true))
    requires NoFlightDuring(r, i, j, r.states[i].calls[c].user)
    requires c < |r.Last().calls| && r.Last().calls[c].pc.Done?
    requires stale.stale && stale.err.None?
    ensures var result := r.Last().calls[c].pc.result;
            && (Retries(stale, ReloginOf(result, error)) <==> result.Ok?)
            && (result.Ok? ==> ReloginOf(result, error).cookie == result.cookie.text && Fresh(result.cookie, j + 1))
  {
    if r.Last().calls[c].pc.result.Ok? {
      UserIsFixed(r, i, |r.steps|, c);
      assert r.StepOk(j);
      FreshnessAfterEviction(r, i, j, c, c);
    }
  }
}
