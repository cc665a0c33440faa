/** The code of the schedule handler over the schedules GEI holds, request by request.

    Each user's requests are recorded as a run, so that what is proved about every run holds of what
    this code answers and stores. */
module ScheduleServer {
  import opened Options
  import opened Retry
  import opened Sessions
  import opened ScheduleResolve
  import opened ScheduleCache
  import opened ScheduleRuns
  import opened Recovery
  import SessionProtocol
  import SessionServer

  type User = string

  /** How attempt number `n` of a request meets the world with a cookie. */
  type World = (string, nat) -> Moment

  /** The world during one attempt: i-Ma'luum, and whether GEI answers the cache read. */
  datatype Moment = Moment(up: Snapshot, answered: bool)

  /** What a request stores changes nothing about the requests before it. */
  lemma {:induction false} HistoryOfPrefix(run: seq<Request>, q: Request, k: nat)
    requires k <= |run|
    ensures History(run + [q], k) == History(run, k)
  {
    if k > 0 {
      HistoryOfPrefix(run, q, k - 1);
    }
  }

  lemma StepStaysOk(run: seq<Request>, q: Request, k: nat)
    requires k < |run| && StepOk(run, k)
    ensures StepOk(run + [q], k)
  {
    HistoryOfPrefix(run, q, k);
  }

  lemma LastStepOk(run: seq<Request>, q: Request)
    requires RequestOk(History(run, |run|), q)
    ensures StepOk(run + [q], |run|)
  {
    HistoryOfPrefix(run, q, |run|);
  }

  lemma RunGoesOn(run: seq<Request>, q: Request)
    requires RunOk(run) && StepOk(run + [q], |run|)
    ensures RunOk(run + [q])
  {
    forall k | 0 <= k < |run|
      ensures StepOk(run + [q], k)
    {
      StepStaysOk(run, q, k);
    }
  }

  /** What GEI holds for a user after a run: the last store, if any. */
  ghost predicate Holds(run: seq<Request>, held: Option<Schedules>) {
    var history := History(run, |run|);
    held == if history == [] then None else Some(history[|history| - 1].schedules)
  }

  lemma HoldsAfter(run: seq<Request>, q: Request, held: Option<Schedules>)
    requires Holds(run, held)
    ensures Holds(run + [q], if Stores(q) then Some(ReplyTo(q).schedules) else held)
  {
    HistoryOfPrefix(run, q, |run|);
  }

  ghost predicate Consistent(run: seq<Request>, held: Option<Schedules>) {
    RunOk(run) && Holds(run, held)
  }

  lemma StaysConsistent(run: seq<Request>, q: Request, held: Option<Schedules>)
    requires Consistent(run, held) && StepOk(run + [q], |run|)
    ensures Consistent(run + [q], if Stores(q) then Some(ReplyTo(q).schedules) else held)
  {
    RunGoesOn(run, q);
    HoldsAfter(run, q, held);
  }

  /** The reply to a scrape that ends in `result`. */
  function ReplyFor(result: Attempted): Reply
    requires !result.Bounced?
  {
    match result
    case Panicked => Crashed
    case Hung => Silence
    case Failure(e) => Refused(e)
    case Success(scraped) => if scraped == [] then Refused(ScheduleIsEmpty) else Served(Sorted(scraped))
  }

  /** Without a retry the first attempt decides. */
  lemma FirstDecides(history: seq<Record>, q: Request)
    requires AttemptOk(q.refresh, q.first) && ReadOk(history, q.first, q.firstRead)
    requires AttemptResult(q.refresh, q.first).Bounced? ==> q.relogin.LoginFails?
    ensures RequestOk(history, q) && !TriesAgain(q)
    ensures var result := AttemptResult(q.refresh, q.first);
            ReplyTo(q) == ReplyFor(if result.Bounced? then Failure(q.relogin.error) else result)
  {
  }

  /** With a retry the second one does. */
  lemma SecondDecides(history: seq<Record>, q: Request)
    requires AttemptOk(q.refresh, q.first) && ReadOk(history, q.first, q.firstRead)
    requires AttemptOk(q.refresh, q.second) && ReadOk(history, q.second, q.secondRead)
    requires AttemptResult(q.refresh, q.first).Bounced? && q.relogin.NewCookie?
    ensures RequestOk(history, q) && TriesAgain(q)
    ensures var result := AttemptResult(q.refresh, q.second);
            ReplyTo(q) == ReplyFor(if result.Bounced? then Failure(StaleSession) else result)
  {
  }

  class ScheduleServer {
    /** Whether a GEI client is configured. */
    const gei: bool
    /** The session cache. */
    const sessions: SessionServer.Server
    /** The schedules GEI holds. */
    var schedules: map<User, Schedules>
    /** The requests served so far. */
    ghost var runs: map<User, seq<Request>>

    ghost function RunOf(u: User): seq<Request>
      reads this
    {
      if u in runs then runs[u] else []
    }

    function Held(u: User): Option<Schedules>
      reads this
    {
      if u in schedules then Some(schedules[u]) else None
    }

    ghost function StoresOf(u: User): seq<Record>
      reads this
    {
      History(RunOf(u), |RunOf(u)|)
    }

    ghost predicate Valid()
      reads this
    {
      forall u: User :: Consistent(RunOf(u), Held(u))
    }

    constructor (gei: bool, sessions: SessionServer.Server)
      ensures Valid() && schedules == map[] && runs == map[] && this.gei == gei && this.sessions == sessions
    {
      this.gei := gei;
      this.sessions := sessions;
      this.schedules := map[];
      this.runs := map[];
    }

    /** Whatever requests came before, everything GEI holds was once an answer of i-Ma'luum. */
    lemma HeldIsGenuine(u: User, k: nat)
      requires Valid() && u in schedules && k < |schedules[u]|
      ensures StoresOf(u) != [] && AnsweredToScraper(StoresOf(u), |StoresOf(u)| - 1, schedules[u][k])
    {
      assert Consistent(RunOf(u), Held(u));
      CacheIsUncontaminated(RunOf(u), |RunOf(u)|);
    }

    /** One attempt of the scrape closure.  The cache is read when a GEI client is configured and no
        refresh is forced. */
    method TryScrape(username: User, refresh: bool, world: Moment)
        returns (result: Attempted, a: Attempt, ghost read: Option<nat>)
      requires Valid()
      ensures a.up == world.up && a.cached == if gei && !refresh && world.answered then Held(username) else None
      ensures AttemptOk(refresh, a) && result == AttemptResult(refresh, a) && ReadOk(StoresOf(username), a, read)
    {
      var cached := None;
      read := None;
      if gei && !refresh && world.answered && username in schedules {
        cached := Some(schedules[username]);
        read := Some(|StoresOf(username)| - 1);
      }
      assert Consistent(RunOf(username), Held(username));
      result, a := RunAttempt(refresh, world.up, cached);
    }

    /** The request had these parameters and saw this world, the second attempt with the new cookie. */
    ghost predicate Saw(q: Request, refresh: bool, token: Token, world: World, held: Option<Schedules>) {
      q.refresh == refresh && Met(q.first, world(token.cookie, 0), refresh, held) &&
      (TriesAgain(q) ==> Met(q.second, world(q.relogin.cookie, 1), refresh, held))
    }

    ghost predicate Met(a: Attempt, moment: Moment, refresh: bool, held: Option<Schedules>) {
      a.up == moment.up &&
      a.cached == if gei && !refresh && moment.answered then held else None
    }

    /** The scrape with its retry: how it ends, bounced no longer among the ways.  The session is refreshed
        exactly when the first attempt bounces. */
    method ScrapeWithRetry(token: Token, refresh: bool, world: World, aid: Aid, ghost stored: bool)
        returns (result: Attempted, ghost q: Request, ghost minted: Option<SessionProtocol.Cookie>)
      requires Valid() && Ready(sessions, aid)
      modifies sessions`run, sessions`actions, sessions`sessions, sessions.tokenManager
      ensures sessions.Valid() && sessions.Continues(old(sessions.run))
      ensures RequestOk(StoresOf(token.username), q) && Saw(q, refresh, token, world, Held(token.username))
      ensures q.stored == stored && !result.Bounced? && ReplyTo(q) == ReplyFor(result)
      ensures if AttemptResult(refresh, q.first).Bounced?
              then Recovers(sessions.gei, old(sessions.sessions), token.username, aid, old(sessions.actions),
                            q.relogin, minted)
              else sessions.run == old(sessions.run) && sessions.sessions == old(sessions.sessions) &&
                   sessions.tokenManager.tokens == old(sessions.tokenManager.tokens)
    {
      var a;
      ghost var read;
      var moment := world(token.cookie, 0);
      result, a, read := TryScrape(token.username, refresh, moment);
      minted := None;
      if !result.Bounced? {
        q := Request(refresh, a, read, LoginFails(aid.error), a, None, stored);
        FirstDecides(StoresOf(token.username), q);
        return;
      }
      var relogin;
      relogin, minted := RefreshFor(sessions, token.username, aid);
      if relogin.LoginFails? {
        q := Request(refresh, a, read, relogin, a, None, stored);
        FirstDecides(StoresOf(token.username), q);
        return Failure(relogin.error), q, minted;
      }
      var a2;
      ghost var read2;
      moment := world(relogin.cookie, 1);
      result, a2, read2 := TryScrape(token.username, refresh, moment);
      q := Request(refresh, a, read, relogin, a2, read2, stored);
      SecondDecides(StoresOf(token.username), q);
      if result.Bounced? {
        result := Failure(StaleSession);
      }
    }

    /** The part of the handler that answers. */
    method Answer(token: Token, refresh: bool, world: World, aid: Aid, ghost stored: bool)
        returns (reply: Reply, ghost q: Request, ghost minted: Option<SessionProtocol.Cookie>)
      requires Valid() && Ready(sessions, aid)
      modifies sessions`run, sessions`actions, sessions`sessions, sessions.tokenManager
      ensures sessions.Valid() && sessions.Continues(old(sessions.run))
      ensures StepOk(RunOf(token.username) + [q], |RunOf(token.username)|) && reply == ReplyTo(q)
      ensures Saw(q, refresh, token, world, Held(token.username)) && q.stored == stored
      ensures if AttemptResult(refresh, q.first).Bounced?
              then Recovers(sessions.gei, old(sessions.sessions), token.username, aid, old(sessions.actions),
                            q.relogin, minted)
              else sessions.run == old(sessions.run) && sessions.sessions == old(sessions.sessions) &&
                   sessions.tokenManager.tokens == old(sessions.tokenManager.tokens)
    {
      var result;
      result, q, minted := ScrapeWithRetry(token, refresh, world, aid, stored);
      LastStepOk(RunOf(token.username), q);
      match result {
        case Panicked => reply := Crashed;
        case Hung => reply := Silence;
        case Failure(e) => reply := Refused(e);
        case Success(scraped) =>
          if scraped == [] {
            return Refused(ScheduleIsEmpty), q, minted;
          }
          reply := Served(Sorted(scraped));
      }
    }

    /** The part of the handler that stores, and the record of the request. */
    method Store(username: User, reply: Reply, willStore: bool, ghost q: Request)
      requires Valid() && StepOk(RunOf(username) + [q], |RunOf(username)|)
      requires reply == ReplyTo(q) && willStore == q.stored
      modifies this
      ensures Valid() && runs == old(runs)[username := old(RunOf(username)) + [q]]
      ensures schedules ==
              if reply.Served? && willStore then old(schedules)[username := reply.schedules] else old(schedules)
    {
      StaysConsistent(RunOf(username), q, Held(username));
      if reply.Served? && willStore {
        schedules := schedules[username := reply.schedules];
      }
      runs := runs[username := RunOf(username) + [q]];
      forall u: User
        ensures Consistent(RunOf(u), Held(u))
      {
        assert old(Consistent(RunOf(u), Held(u)));
      }
    }

    /** The handler.  `session` is the request's token, if it carries one.  The reply and what is stored are
        those of one more request of that user's run; what GEI holds changes only for this user, only to the
        served reply, and never under the empty user name.  Exactly when the first attempt bounces the
        session is refreshed; a second attempt then follows if and only if GEI hands out a session or the
        login succeeds, with that cookie, which is of a login started after the request came in if the old
        session is gone. */
    method Handle(session: Option<Token>, refresh: bool, world: World, aid: Aid, obeys: bool)
        returns (reply: Reply, ghost q: Request, ghost minted: Option<SessionProtocol.Cookie>)
      requires Valid() && Ready(sessions, aid)
      modifies this, sessions`run, sessions`actions, sessions`sessions, sessions.tokenManager
      ensures Valid() && sessions.Valid() && sessions.Continues(old(sessions.run))
      ensures session.None? ==> reply == Refused(InvalidToken) && schedules == old(schedules) && runs == old(runs)
      ensures session.Some? ==>
                var u := session.value.username;
                && runs == old(runs)[u := old(RunOf(u)) + [q]]
                && reply == ReplyTo(q) && Saw(q, refresh, session.value, world, old(Held(u)))
                && schedules == (if reply.Served? && gei && obeys && u != "" then old(schedules)[u := reply.schedules]
                                 else old(schedules))
                && (if AttemptResult(refresh, q.first).Bounced?
                    then Recovers(sessions.gei, old(sessions.sessions), u, aid, old(sessions.actions),
                                  q.relogin, minted) &&
                         (q.relogin.NewCookie? ==> TriesAgain(q))
                    else sessions.run == old(sessions.run) && sessions.sessions == old(sessions.sessions) &&
                         sessions.tokenManager.tokens == old(sessions.tokenManager.tokens))
    {
      if session.None? {
        q, minted := *, None;
        return Refused(InvalidToken), q, minted;
      }
      var username := session.value.username;
      var willStore := gei && obeys && username != "";
      reply, q, minted := Answer(session.value, refresh, world, aid, willStore);
      Store(username, reply, willStore, q);
    }
  }
}
