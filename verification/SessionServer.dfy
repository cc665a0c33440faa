/** The code of the session cache, one goroutine at a time.

    The methods update L1 and GEI in place, action by action, and record each action in a run of the
    session protocol.  What is proved about every run therefore holds of this code, and what one call
    does to the two caches is stated outright. */
module SessionServer {
  import opened Options
  import opened SessionProtocol

  /** The in-memory token cache.  Each method is one critical section. */
  class TokenManager {
    var tokens: map<User, Entry>

    constructor ()
      ensures tokens == map[]
    {
      tokens := map[];
    }

    /** The token of an entry that has not expired at `now`. */
    method Lookup(matric: User, now: int) returns (hit: Option<Cookie>)
      ensures hit.Some? <==> matric in tokens && now < tokens[matric].expiry
      ensures hit.Some? ==> hit.value == tokens[matric].token
    {
      if matric in tokens && now < tokens[matric].expiry {
        return Some(tokens[matric].token);
      }
      return None;
    }

    method Put(matric: User, token: Cookie, expiry: int)
      modifies this
      ensures tokens == old(tokens)[matric := Entry(token, expiry)]
    {
      tokens := tokens[matric := Entry(token, expiry)];
    }

    method Invalidate(matric: User)
      modifies this
      ensures tokens == old(tokens) - {matric}
    {
      tokens := tokens - {matric};
    }
  }

  /** What the world outside does during one call: the times of the two L1 checks and of the start of
      the refresh, whether GEI answers or obeys, and how the login ends. */
  datatype Outside = Outside(
    readAt: int, recheckAt: int, refreshAt: int,
    deleted: bool, answered: bool, login: Option<string>, stored: bool)

  /** What a refresh that starts at `out.refreshAt` does to the caches, and its result.  A login of
      the refresh is dated no earlier than `start`. */
  predicate Refreshes(l1: map<User, Entry>, l2: map<User, Cookie>, l1': map<User, Entry>, l2': map<User, Cookie>,
                      gei: bool, m: User, out: Outside, start: nat, r: Result) {
    if gei && out.answered && m in l2 then
      r == Ok(l2[m]) && l2' == l2 && l1' == l1[m := Entry(l2[m], out.refreshAt + IMALUUM_SESSION_TTL)]
    else if out.login.None? then
      r == Failed && l1' == l1 && l2' == l2
    else
      r.Ok? && r.cookie.text == out.login.value && r.cookie.owner == m &&
      r.cookie.origin.LoggedIn? && r.cookie.origin.start >= start &&
      l1' == l1[m := Entry(r.cookie, out.refreshAt + IMALUUM_SESSION_TTL)] &&
      l2' == if gei && out.stored then l2[m := r.cookie] else l2
  }

  /** GetToken serves a live L1 entry and changes nothing, or refreshes. */
  predicate Answers(l1: map<User, Entry>, l2: map<User, Cookie>, l1': map<User, Entry>, l2': map<User, Cookie>,
                    gei: bool, m: User, out: Outside, start: nat, r: Result) {
    if m in l1 && out.readAt < l1[m].expiry then r == Ok(l1[m].token) && l1' == l1 && l2' == l2
    else Refreshes(l1, l2, l1', l2', gei, m, out, start, r)
  }

  class Server {
    const tokenManager: TokenManager
    /** Whether a GEI client is configured. */
    const gei: bool
    /** The cookies GEI holds. */
    var sessions: map<User, Cookie>
    /** How many actions the calls have taken; it dates the logins. */
    var actions: nat
    /** The protocol run these calls have performed. */
    ghost var run: Run

    /** The run ends in the present caches. */
    ghost predicate Synced()
      reads this, tokenManager
    {
      run.FromInit() && run.OneProcess() && run.Last().gei == gei && run.Last().count == actions &&
      run.Last().l1 == tokenManager.tokens && run.Last().l2 == sessions
    }

    /** Between calls no flight is open. */
    ghost predicate Valid()
      reads this, tokenManager
    {
      Synced() && run.Last().flights == map[]
    }

    /** Call `i`, for `m`, is about to act at `pc`; the other calls are over. */
    ghost predicate At(i: nat, m: User, pc: Pc)
      reads this, tokenManager
    {
      Synced() && i < |run.Last().calls| && run.Last().calls[i] == Call(m, pc) &&
      run.Last().flights == if Leading(pc) then map[m := i] else map[]
    }

    /** The present run goes on from `before`. */
    ghost predicate Continues(before: Run)
      reads this
    {
      before.Shaped() && before.steps <= run.steps && before.Last().count <= actions
    }

    constructor (gei: bool, sessions: map<User, Cookie>, now: int)
      requires forall m :: m in sessions ==> sessions[m].owner == m && sessions[m].origin.Preexisting?
      requires !gei ==> sessions == map[]
      ensures Valid() && fresh(tokenManager) && tokenManager.tokens == map[] && this.sessions == sessions
      ensures run.steps == [] && run.Last().now == now
    {
      this.tokenManager := new TokenManager();
      this.gei := gei;
      this.sessions := sessions;
      this.actions := 0;
      this.run := Still(State(now, 0, gei, map[], sessions, map[], []));
    }

    /** Every action of a call takes its place in the run. */
    method Record(ghost step: Step)
      requires run.FromInit() && run.OneProcess() && Enabled(run.Last(), step) && !step.OtherProcess?
      requires run.Last().count == actions
      modifies this`run, this`actions
      ensures run.FromInit() && run.OneProcess() && old(run).steps <= run.steps
      ensures run.Last() == Apply(old(run).Last(), step)
      ensures actions == old(actions) + 1
    {
      ExtendIsRun(run, step);
      run := Extend(run, step);
      actions := actions + 1;
    }

    /** The L1 check before the flight. */
    method FirstCheck(matric: User, at: int, ghost i: nat) returns (hit: Option<Cookie>)
      requires At(i, matric, Read) && run.Last().now <= at
      modifies this`run, this`actions
      ensures At(i, matric, if hit.Some? then Done(Ok(hit.value)) else Join)
      ensures run.Last().now == at && Continues(old(run))
      ensures hit.Some? <==> matric in tokenManager.tokens && at < tokenManager.tokens[matric].expiry
      ensures hit.Some? ==> hit.value == tokenManager.tokens[matric].token
    {
      Record(Tick(at));
      hit := tokenManager.Lookup(matric, at);
      Record(Act(i, ReadL1));
    }

    /** Winning the flight and checking L1 again. */
    method SecondCheck(matric: User, at: int, ghost i: nat) returns (hit: Option<Cookie>)
      requires At(i, matric, Join) && run.Last().now <= at
      modifies this`run, this`actions
      ensures At(i, matric, if hit.Some? then Finish(Ok(hit.value)) else Refresh)
      ensures run.Last().now == at && Continues(old(run))
      ensures hit.Some? <==> matric in tokenManager.tokens && at < tokenManager.tokens[matric].expiry
      ensures hit.Some? ==> hit.value == tokenManager.tokens[matric].token
    {
      Record(Act(i, Enter));
      Record(Tick(at));
      hit := tokenManager.Lookup(matric, at);
      Record(Act(i, RecheckL1));
    }

    /** The GEI read of the refresh closure. */
    method ReadSession(username: User, at: int, answered: bool, ghost i: nat)
        returns (cookie: Option<Cookie>, expiry: int)
      requires At(i, username, Refresh) && run.Last().now <= at
      modifies this`run, this`actions
      ensures expiry == at + IMALUUM_SESSION_TTL
      ensures At(i, username, if cookie.Some? then Write(expiry, cookie.value) else Login(expiry, !(gei && answered)))
      ensures run.Last().now == at && Continues(old(run))
      ensures cookie == if gei && answered && username in sessions then Some(sessions[username]) else None
    {
      Record(Tick(at));
      expiry := at + IMALUUM_SESSION_TTL;
      Record(Act(i, StartRefresh));
      cookie := None;
      if gei && answered && username in sessions {
        cookie := Some(sessions[username]);
      }
      Record(Act(i, GetL2(gei && answered)));
    }

    /** The login of the refresh closure. */
    method LogIn(username: User, login: Option<string>, ghost i: nat, ghost expiry: int, ghost blind: bool)
        returns (cookie: Option<Cookie>)
      requires At(i, username, Login(expiry, blind))
      modifies this`run, this`actions
      ensures At(i, username, if cookie.Some? then Store(expiry, blind, cookie.value) else Finish(Failed))
      ensures run.Last().now == old(run.Last().now) && Continues(old(run))
      ensures cookie.Some? <==> login.Some?
      ensures cookie.Some? ==> cookie.value == Cookie(login.value, username, LoggedIn(old(actions)))
    {
      cookie := None;
      if login.Some? {
        cookie := Some(Cookie(login.value, username, LoggedIn(actions)));
      }
      Record(Act(i, StartLogin));
      Record(Act(i, EndLogin(login)));
    }

    /** The GEI write of the refresh closure. */
    method StoreSession(username: User, cookie: Cookie, stored: bool, ghost i: nat, ghost expiry: int,
        ghost blind: bool)
      requires At(i, username, Store(expiry, blind, cookie))
      modifies this`run, this`actions, this`sessions
      ensures At(i, username, Write(expiry, cookie))
      ensures sessions == if gei && stored then old(sessions)[username := cookie] else old(sessions)
      ensures run.Last().now == old(run.Last().now) && Continues(old(run))
    {
      if gei && stored {
        sessions := sessions[username := cookie];
      }
      Record(Act(i, StoreL2(gei && stored)));
    }

    /** The L1 write and the end of the flight. */
    method Publish(matric: User, token: Cookie, expiry: int, ghost i: nat)
      requires At(i, matric, Write(expiry, token))
      modifies this`run, this`actions, tokenManager
      ensures At(i, matric, Done(Ok(token)))
      ensures tokenManager.tokens == old(tokenManager.tokens)[matric := Entry(token, expiry)]
      ensures run.Last().now == old(run.Last().now) && Continues(old(run))
    {
      tokenManager.Put(matric, token, expiry);
      Record(Act(i, WriteL1));
      Record(Act(i, Leave));
    }

    /** sessionFunc inside a flight: reuse the GEI session, otherwise log in and persist the cookie;
        then publish the cookie in L1. */
    method RefreshToken(m: User, out: Outside, ghost i: nat) returns (r: Result)
      requires At(i, m, Refresh) && run.Last().now <= out.refreshAt
      modifies this`run, this`actions, this`sessions, tokenManager
      ensures At(i, m, Done(r)) && Continues(old(run)) && run.Last().now == out.refreshAt
      ensures Refreshes(old(tokenManager.tokens), old(sessions), tokenManager.tokens, sessions, gei, m, out,
              old(actions), r)
    {
      var found, expiry := ReadSession(m, out.refreshAt, out.answered, i);
      if found.Some? {
        Publish(m, found.value, expiry, i);
        return Ok(found.value);
      }
      ghost var blind := !(gei && out.answered);
      var minted := LogIn(m, out.login, i, expiry, blind);
      if minted.None? {
        Record(Act(i, Leave));
        return Failed;
      }
      StoreSession(m, minted.value, out.stored, i, expiry, blind);
      Publish(m, minted.value, expiry, i);
      return Ok(minted.value);
    }

    /** GetToken of a call that has begun. */
    method AnswerToken(m: User, out: Outside, ghost i: nat) returns (r: Result)
      requires At(i, m, Read) && run.Last().now <= out.readAt <= out.recheckAt <= out.refreshAt
      modifies this`run, this`actions, this`sessions, tokenManager
      ensures At(i, m, Done(r)) && Continues(old(run)) && run.Last().now <= out.refreshAt
      ensures Answers(old(tokenManager.tokens), old(sessions), tokenManager.tokens, sessions, gei, m, out,
              old(actions), r)
    {
      var hit := FirstCheck(m, out.readAt, i);
      if hit.Some? {
        return Ok(hit.value);
      }
      hit := SecondCheck(m, out.recheckAt, i);
      r := RefreshToken(m, out, i);
    }

    /** GetToken with the refresh closure of sessionFunc. */
    method GetToken(m: User, out: Outside) returns (r: Result)
      requires Valid() && run.Last().now <= out.readAt <= out.recheckAt <= out.refreshAt
      modifies this`run, this`actions, this`sessions, tokenManager
      ensures Valid() && Continues(old(run)) && run.Last().now <= out.refreshAt
      ensures run.Last().calls != [] && At(|old(run).Last().calls|, m, Done(r))
      ensures Answers(old(tokenManager.tokens), old(sessions), tokenManager.tokens, sessions, gei, m, out,
              old(actions), r)
    {
      ghost var i := |run.Last().calls|;
      Record(Begin(m, Plain));
      r := AnswerToken(m, out, i);
    }

    /** Evicting the session from L1 and, if GEI obeys, from GEI. */
    method EvictSession(m: User, deleted: bool, ghost i: nat)
      requires At(i, m, Evict)
      modifies this`run, this`actions, this`sessions, tokenManager
      ensures At(i, m, Read) && Continues(old(run)) && run.Last().now == old(run.Last().now)
      ensures tokenManager.tokens == old(tokenManager.tokens) - {m}
      ensures sessions == if gei && deleted then old(sessions) - {m} else old(sessions)
    {
      tokenManager.Invalidate(m);
      Record(Act(i, SessionProtocol.Invalidate));
      if gei && deleted {
        sessions := sessions - {m};
      }
      Record(Act(i, DeleteL2(gei && deleted)));
    }

    /** refreshSession: evict, then get a token.  The answer comes from a login started during the call,
        unless the DeleteSession did not take effect and GEI hands the old session out again. */
    method RefreshSession(m: User, out: Outside) returns (r: Result)
      requires Valid() && run.Last().now <= out.readAt <= out.recheckAt <= out.refreshAt
      modifies this`run, this`actions, this`sessions, tokenManager
      ensures Valid() && Continues(old(run)) && run.Last().now <= out.refreshAt
      ensures var l2 := if gei && out.deleted then old(sessions) - {m} else old(sessions);
              && Answers(old(tokenManager.tokens) - {m}, l2, tokenManager.tokens, sessions, gei, m, out,
                  old(actions), r)
              && (r.Ok? ==> if gei && out.answered && m in l2 then r.cookie == old(sessions)[m]
                            else r.cookie.origin.LoggedIn? && r.cookie.origin.start >= old(actions))
    {
      ghost var i := |run.Last().calls|;
      Record(Begin(m, Recovery));
      EvictSession(m, out.deleted, i);
      r := AnswerToken(m, out, i);
    }
  }
}
