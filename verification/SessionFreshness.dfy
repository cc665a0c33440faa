/** When refreshSession really gets rid of a stale cookie.

    A login counts as fresh for a position of the run when it starts at or after it.  The main result
    says exactly when, from a state on, every later GetToken of a user returns only fresh cookies. */
module SessionFreshness {
  import opened Options
  import opened SessionProtocol
  import opened SessionInvariants

  predicate Fresh(c: Cookie, t: nat) {
    c.origin.LoggedIn? && c.origin.start >= t
  }

  /** The flight is past its GEI read and may hand out a cookie whose login has already started. */
  predicate Delivers(pc: Pc) {
    pc.Authenticating? || pc.Store? || pc.Write? || (pc.Finish? && pc.result.Ok?)
  }

  /** Nothing that could serve an old cookie of `m` is left: no live L1 entry, no GEI session, and no
      flight that has read GEI and gone on to log in or to deliver. */
  predicate Clear(s: State, m: User) {
    !Live(s, m) && m !in s.l2 &&
    (m in s.flights && s.flights[m] < |s.calls| ==> !Delivers(s.calls[s.flights[m]].pc))
  }

  predicate Settled(pc: Pc) {
    pc.Done? || pc.Wait?
  }

  /** Call `i` had returned, or had joined a flight, in state `s`. */
  predicate SettledIn(s: State, i: nat) {
    i < |s.calls| && Settled(s.calls[i].pc)
  }

  /* ---------- Clear is enough ---------- */

  /** In `s`, reached from `z`, the caches and the flight of `m` hold only cookies fresh for `z`. */
  ghost predicate UserFresh(z: State, s: State, m: User) {
    z.count <= s.count && |z.calls| <= |s.calls| &&
    (Live(s, m) ==> Fresh(s.l1[m].token, z.count)) &&
    (m in s.l2 ==> Fresh(s.l2[m], z.count)) &&
    (m in s.flights && s.flights[m] < |s.calls| ==>
       var pc := s.calls[s.flights[m]].pc;
       (Carried(pc).Some? ==> Fresh(Carried(pc).value, z.count)) &&
       (pc.Authenticating? ==> pc.start >= z.count))
  }

  ghost predicate CallFresh(z: State, s: State, i: nat)
    requires i < |s.calls|
  {
    var pc := s.calls[i].pc;
    if SettledIn(z, i) then Settled(pc)
    else (pc.Wait? ==> !SettledIn(z, pc.leader)) &&
         (Returned(pc).Some? ==> Fresh(Returned(pc).value, z.count))
  }

  ghost predicate AllFresh(z: State, s: State, m: User) {
    UserFresh(z, s, m) && forall i: nat :: i < |s.calls| && s.calls[i].user == m ==> CallFresh(z, s, i)
  }

  lemma OthersKeepUserFresh(z: State, s: State, i: nat, a: Action, m: User)
    requires Enabled(s, Act(i, a)) && s.calls[i].user != m && FlightOk(s, m) && UserFresh(z, s, m)
    ensures UserFresh(z, Apply(s, Act(i, a)), m)
  {
    OtherFlightUntouched(s, i, a, m);
  }

  lemma LeaderKeepsUserFresh(z: State, s: State, i: nat, a: Action)
    requires Enabled(s, Act(i, a)) && Leading(s.calls[i].pc) && UserFresh(z, s, s.calls[i].user)
    requires s.calls[i].user in s.flights && s.flights[s.calls[i].user] == i
    ensures UserFresh(z, Apply(s, Act(i, a)), s.calls[i].user)
  {
  }

  lemma FollowerKeepsUserFresh(z: State, s: State, i: nat, a: Action)
    requires Enabled(s, Act(i, a)) && !Leading(s.calls[i].pc)
    requires FlightOk(s, s.calls[i].user) && UserFresh(z, s, s.calls[i].user)
    ensures UserFresh(z, Apply(s, Act(i, a)), s.calls[i].user)
  {
  }

  lemma ActKeepsUserFresh(stored: map<User, Cookie>, z: State, s: State, i: nat, a: Action, m: User)
    requires Enabled(s, Act(i, a)) && CallOk(stored, s, i) && FlightOk(s, m) && UserFresh(z, s, m)
    ensures UserFresh(z, Apply(s, Act(i, a)), m)
  {
    if s.calls[i].user != m {
      OthersKeepUserFresh(z, s, i, a, m);
    } else if Leading(s.calls[i].pc) {
      LeaderKeepsUserFresh(z, s, i, a);
    } else {
      FollowerKeepsUserFresh(z, s, i, a);
    }
  }

  lemma ActKeepsCallFresh(stored: map<User, Cookie>, z: State, s: State, i: nat, a: Action)
    requires Enabled(s, Act(i, a)) && CallOk(stored, s, i) && FlightOk(s, s.calls[i].user)
    requires UserFresh(z, s, s.calls[i].user) && CallFresh(z, s, i)
    requires s.calls[i].pc.Wait? ==> CallFresh(z, s, s.calls[i].pc.leader)
    requires s.calls[i].user in s.flights ==> CallFresh(z, s, s.flights[s.calls[i].user])
    ensures CallFresh(z, Apply(s, Act(i, a)), i)
  {
  }

  lemma ActKeepsFresh(stored: map<User, Cookie>, z: State, s: State, i: nat, a: Action, m: User)
    requires Inv(stored, s) && Enabled(s, Act(i, a)) && AllFresh(z, s, m)
    ensures AllFresh(z, Apply(s, Act(i, a)), m)
  {
    var t := Apply(s, Act(i, a));
    assert FlightOk(s, m) && CallOk(stored, s, i);
    ActKeepsUserFresh(stored, z, s, i, a, m);
    assert |t.calls| == |s.calls| && t.calls[i].user == s.calls[i].user;
    forall j: nat | j < |t.calls| && t.calls[j].user == m
      ensures CallFresh(z, t, j)
    {
      if j == i {
        ActKeepsCallFresh(stored, z, s, i, a);
      } else {
        assert t.calls[j] == s.calls[j] && CallFresh(z, s, j);
      }
    }
  }

  lemma StepKeepsFresh(stored: map<User, Cookie>, z: State, s: State, step: Step, m: User)
    requires Inv(stored, s) && Enabled(s, step) && !step.OtherProcess? && AllFresh(z, s, m)
    ensures AllFresh(z, Apply(s, step), m)
  {
    if step.Act? {
      ActKeepsFresh(stored, z, s, step.i, step.action, m);
    } else {
      var t := Apply(s, step);
      assert FlightOk(s, m);
      forall j: nat | j < |t.calls| && t.calls[j].user == m
        ensures CallFresh(z, t, j)
      {
        assert j < |s.calls| ==> t.calls[j] == s.calls[j] && CallFresh(z, s, j);
      }
    }
  }

  lemma ClearIsFresh(stored: map<User, Cookie>, z: State, m: User)
    requires Inv(stored, z) && Clear(z, m)
    ensures AllFresh(z, z, m)
  {
    assert FlightOk(z, m);
    if m in z.flights {
      assert CallOk(stored, z, z.flights[m]);
    }
    forall i: nat | i < |z.calls|
      ensures CallFresh(z, z, i)
    {
      assert CallOk(stored, z, i);
    }
  }

  lemma {:induction false} FreshFrom(stored: map<User, Cookie>, r: Run, k: nat, m: User)
    requires r.IsRun() && r.OneProcess() && k <= |r.steps|
    requires Inv(stored, r.states[0]) && Clear(r.states[0], m)
    ensures AllFresh(r.states[0], r.states[k], m)
  {
    if k == 0 {
      ClearIsFresh(stored, r.states[0], m);
    } else {
      FreshFrom(stored, r, k - 1, m);
      InvHoldsFrom(stored, r, k - 1);
      assert r.StepOk(k - 1);
      StepKeepsFresh(stored, r.states[0], r.states[k - 1], r.steps[k - 1], m);
    }
  }

  /* ---------- Clear is needed ---------- */

  /** `r` ends with a call for `m`, not among the first `n`, that returned a cookie not fresh for `t`. */
  ghost predicate ServesStale(r: Run, n: nat, t: nat, m: User) {
    r.IsRun() && r.OneProcess() &&
    exists w: nat :: n <= w < |r.Last().calls| && Stale(r.Last().calls[w], t, m)
  }

  predicate Stale(call: Call, t: nat, m: User) {
    call.user == m && Returned(call.pc).Some? && !Fresh(Returned(call.pc).value, t)
  }

  /** The leader at `pc` will deliver a stale cookie if every external call goes its way. */
  predicate Doomed(s: State, m: User, pc: Pc, t: nat) {
    match pc
    case Authenticating(_, _, start) => start < t
    case Store(_, _, c) => !Fresh(c, t)
    case Write(_, c) => !Fresh(c, t)
    case Finish(Ok(c)) => !Fresh(c, t)
    case Recheck => !Live(s, m) && s.gei && m in s.l2 && !Fresh(s.l2[m], t)
    case Refresh => s.gei && m in s.l2 && !Fresh(s.l2[m], t)
    case Get(_) => s.gei && m in s.l2 && !Fresh(s.l2[m], t)
    case _ => false
  }

  function DoomedAction(pc: Pc): Action {
    match pc
    case Authenticating(_, _, _) => EndLogin(Some("cookie"))
    case Store(_, _, _) => StoreL2(false)
    case Write(_, _) => WriteL1
    case Recheck => RecheckL1
    case Refresh => StartRefresh
    case Get(_) => GetL2(true)
    case _ => Leave
  }

  lemma DoomedStaysDoomed(s: State, m: User, l: nat, t: nat)
    requires l < |s.calls| && s.calls[l].user == m && Doomed(s, m, s.calls[l].pc, t) && !s.calls[l].pc.Finish?
    ensures var step := Act(l, DoomedAction(s.calls[l].pc));
            && Enabled(s, step)
            && var pc := Apply(s, step).calls[l].pc;
               Doomed(Apply(s, step), m, pc, t) && StepsLeft(pc) < StepsLeft(s.calls[l].pc)
  {
  }

  /** One more step in front of a run that serves a stale cookie. */
  lemma ExtendStale(s: State, step: Step, r: Run, n: nat, t: nat, m: User) returns (q: Run)
    requires ServesStale(r, n, t, m) && Enabled(s, step) && !step.OtherProcess? && r.states[0] == Apply(s, step)
    ensures q.Shaped() && q.states[0] == s && ServesStale(q, n, t, m)
  {
    PrependIsRun(s, step, r);
    q := Prepend(s, step, r);
  }

  /** The leader leaves the flight; if `w` waited for it, `w` wakes up with the same cookie. */
  lemma DeliverStale(s: State, m: User, l: nat, w: nat, n: nat, t: nat) returns (r: Run)
    requires l < |s.calls| && s.calls[l].user == m && s.calls[l].pc.Finish? && Doomed(s, m, s.calls[l].pc, t)
    requires n <= w < |s.calls| && s.calls[w].user == m && (w == l || s.calls[w].pc == Wait(l))
    ensures r.Shaped() && r.states[0] == s && ServesStale(r, n, t, m)
  {
    var s' := Apply(s, Act(l, Leave));
    if w == l {
      r := Still(s');
      assert Stale(r.Last().calls[w], t, m);
    } else {
      assert s'.calls[w] == s.calls[w];
      r := Still(Apply(s', Act(w, Wake)));
      assert Stale(r.Last().calls[w], t, m);
      r := ExtendStale(s', Act(w, Wake), r, n, t, m);
    }
    r := ExtendStale(s, Act(l, Leave), r, n, t, m);
  }

  /** A doomed leader `l` drives its own call, or a waiter `w`, to a stale result. */
  lemma {:induction false} DriveFlight(s: State, m: User, l: nat, w: nat, n: nat, t: nat) returns (r: Run)
    requires l < |s.calls| && s.calls[l].user == m && Doomed(s, m, s.calls[l].pc, t)
    requires n <= w < |s.calls| && s.calls[w].user == m && (w == l || s.calls[w].pc == Wait(l))
    ensures r.Shaped() && r.states[0] == s && ServesStale(r, n, t, m)
    decreases StepsLeft(s.calls[l].pc)
  {
    if s.calls[l].pc.Finish? {
      r := DeliverStale(s, m, l, w, n, t);
    } else {
      DoomedStaysDoomed(s, m, l, t);
      var step := Act(l, DoomedAction(s.calls[l].pc));
      assert w != l ==> Apply(s, step).calls[w] == s.calls[w];
      r := DriveFlight(Apply(s, step), m, l, w, n, t);
      r := ExtendStale(s, step, r, n, t, m);
    }
  }

  /** What a new call finds at the singleflight group: `w` is the new call, `l` the leader. */
  lemma NewcomerServedStale(s: State, m: User, l: nat, n: nat, t: nat) returns (r: Run)
    requires !Live(s, m) && n <= |s.calls|
    requires if m in s.flights then l == s.flights[m] && l < |s.calls| && s.calls[l].user == m &&
                                    Doomed(s, m, s.calls[l].pc, t)
             else l == |s.calls| && s.gei && m in s.l2 && !Fresh(s.l2[m], t)
    ensures r.Shaped() && r.states[0] == s && ServesStale(r, n, t, m)
  {
    var w := |s.calls|;
    var s1 := Apply(s, Begin(m, Plain));
    var s2 := Apply(s1, Act(w, ReadL1));
    var s3 := Apply(s2, Act(w, Enter));
    assert l < w ==> s3.calls[l] == s.calls[l];
    assert s3.calls[w] == Call(m, if m in s.flights then Wait(l) else Recheck);
    r := DriveFlight(s3, m, l, w, n, t);
    r := ExtendStale(s2, Act(w, Enter), r, n, t, m);
    r := ExtendStale(s1, Act(w, ReadL1), r, n, t, m);
    r := ExtendStale(s, Begin(m, Plain), r, n, t, m);
  }

  /** A live L1 entry with an old cookie is served by the next call. */
  lemma LiveEntryServedStale(s: State, m: User, n: nat, t: nat) returns (r: Run)
    requires Live(s, m) && !Fresh(s.l1[m].token, t) && n <= |s.calls|
    ensures r.Shaped() && r.states[0] == s && ServesStale(r, n, t, m)
  {
    var w := |s.calls|;
    var s1 := Apply(s, Begin(m, Plain));
    r := Still(Apply(s1, Act(w, ReadL1)));
    assert Stale(r.Last().calls[w], t, m);
    r := ExtendStale(s1, Act(w, ReadL1), r, n, t, m);
    r := ExtendStale(s, Begin(m, Plain), r, n, t, m);
  }

  /** An old GEI session is served once the present flight, if any, is over. */
  lemma {:induction false} OldSessionServedStale(s: State, m: User, n: nat, t: nat) returns (r: Run)
    requires !Live(s, m) && s.gei && m in s.l2 && !Fresh(s.l2[m], t) && n <= |s.calls|
    requires FlightOk(s, m) && (m in s.flights ==> !Delivers(s.calls[s.flights[m]].pc))
    ensures r.Shaped() && r.states[0] == s && ServesStale(r, n, t, m)
  {
    if m !in s.flights {
      r := NewcomerServedStale(s, m, |s.calls|, n, t);
    } else {
      var l := s.flights[m];
      match s.calls[l].pc
      case Login(_, _) =>
        var s1 := Apply(s, Act(l, StartLogin));
        var s2 := Apply(s1, Act(l, EndLogin(None)));
        var s3 := Apply(s2, Act(l, Leave));
        r := NewcomerServedStale(s3, m, |s.calls|, n, t);
        r := ExtendStale(s2, Act(l, Leave), r, n, t, m);
        r := ExtendStale(s1, Act(l, EndLogin(None)), r, n, t, m);
        r := ExtendStale(s, Act(l, StartLogin), r, n, t, m);
      case Finish(_) =>
        r := NewcomerServedStale(Apply(s, Act(l, Leave)), m, |s.calls|, n, t);
        r := ExtendStale(s, Act(l, Leave), r, n, t, m);
      case _ =>
        r := NewcomerServedStale(s, m, l, n, t);
    }
  }

  /** Whenever the state is not clear, some continuation serves a new call an old cookie. */
  lemma NotClearServesStale(stored: map<User, Cookie>, s: State, m: User) returns (r: Run)
    requires Inv(stored, s) && !Clear(s, m)
    ensures r.Shaped() && r.states[0] == s && ServesStale(r, |s.calls|, s.count, m)
  {
    assert FlightOk(s, m) && CachesOk(stored, s, m);
    if Live(s, m) {
      r := LiveEntryServedStale(s, m, |s.calls|, s.count);
    } else if m in s.flights && Delivers(s.calls[s.flights[m]].pc) {
      assert CallOk(stored, s, s.flights[m]);
      r := NewcomerServedStale(s, m, s.flights[m], |s.calls|, s.count);
    } else {
      r := OldSessionServedStale(s, m, |s.calls|, s.count);
    }
  }

  /* ---------- Main results ---------- */

  /** However the process goes on, every new call for `m` that succeeds returns a cookie whose login
      started after this state. */
  ghost predicate AlwaysFresh(s: State, m: User) {
    forall r: Run :: r.IsRun() && r.states[0] == s ==> !ServesStale(r, |s.calls|, s.count, m)
  }

  /** Exactly the clear states guarantee freshness from then on. */
  lemma FreshnessExactly(stored: map<User, Cookie>, s: State, m: User)
    requires Inv(stored, s)
    ensures AlwaysFresh(s, m) <==> Clear(s, m)
  {
    if Clear(s, m) {
      forall r: Run | r.IsRun() && r.states[0] == s
        ensures !ServesStale(r, |s.calls|, s.count, m)
      {
        if r.OneProcess() {
          FreshFrom(stored, r, |r.steps|, m);
          forall w: nat | |s.calls| <= w < |r.Last().calls| && r.Last().calls[w].user == m
            ensures !Stale(r.Last().calls[w], s.count, m)
          {
            assert CallFresh(s, r.Last(), w);
          }
        }
      }
    } else {
      var r := NotClearServesStale(stored, s, m);
      assert r.IsRun();
    }
  }

  /** Between an Invalidate at `i` and a DeleteSession at `j` no flight for `m` is open. */
  ghost predicate NoFlightDuring(r: Run, i: nat, j: nat, m: User)
    requires r.Shaped() && j < |r.steps|
  {
    forall k :: i <= k <= j ==> m !in r.states[k].flights
  }

  lemma {:induction false} StaysInvalidated(r: Run, i: nat, k: nat, j: nat, m: User)
    requires r.FromInit() && i < k <= j < |r.steps| && NoFlightDuring(r, i, j, m)
    requires r.steps[i].Act? && r.steps[i].action == Invalidate && r.steps[i].i < |r.states[i].calls| &&
             r.states[i].calls[r.steps[i].i].user == m
    ensures m !in r.states[k].l1
  {
    assert r.StepOk(k - 1);
    if k - 1 > i {
      StaysInvalidated(r, i, k - 1, j, m);
      InvHolds(r, k - 1);
      var s, step := r.states[k - 1], r.steps[k - 1];
      if step.Act? {
        assert CallOk(r.states[0].l2, s, step.i);
        assert s.calls[step.i].user == m ==> !step.action.WriteL1?;
      }
    }
  }

  /** refreshSession recovers: if its DeleteSession takes effect at `j` and no flight for the user was
      open since its Invalidate at `i`, then every call for the user that had not yet returned or
      joined a flight when the session was deleted - the rest of this refreshSession call and every
      later GetToken among them - gets a cookie from a login that started after the delete. */
  lemma FreshnessAfterEviction(r: Run, i: nat, j: nat, c: nat, w: nat)
    requires r.FromInit() && r.OneProcess() && i < j < |r.steps|
    requires c < |r.states[i].calls| && r.steps[i] == Act(c, Invalidate) && r.steps[j] == Act(c, DeleteL2(true))
    requires NoFlightDuring(r, i, j, r.states[i].calls[c].user)
    requires w < |r.Last().calls| && r.Last().calls[w].user == r.states[i].calls[c].user
    requires !SettledIn(r.states[j + 1], w) && Returned(r.Last().calls[w].pc).Some?
    ensures Fresh(Returned(r.Last().calls[w].pc).value, j + 1)
  {
    var m := r.states[i].calls[c].user;
    UserIsFixed(r, i, j, c);
    CountIsPosition(r, j + 1);
    assert r.StepOk(j);
    StaysInvalidated(r, i, j, j, m);
    InvHolds(r, j + 1);
    var tail := Run(r.states[j + 1..], r.steps[j + 1..]);
    forall k: nat | k < |tail.steps|
      ensures tail.StepOk(k)
    {
      assert r.StepOk(j + 1 + k);
    }
    FreshFrom(r.states[0].l2, tail, |tail.steps|, m);
    assert CallFresh(tail.states[0], tail.Last(), w);
  }

  lemma {:induction false} CountIsPosition(r: Run, k: nat)
    requires r.FromInit() && k <= |r.steps|
    ensures r.states[k].count == k
  {
    if k > 0 {
      CountIsPosition(r, k - 1);
      assert r.StepOk(k - 1);
    }
  }
}
