/** What every reachable state of the session protocol satisfies, with any number of processes and
    any outcome of the external calls: one refresh at a time per user, waiters wait for a call that
    leads or has finished, and no cookie ever crosses from one user to another. */
module SessionInvariants {
  import opened Options
  import opened SessionProtocol

  /** The cookie a call carries or has returned. */
  function Carried(pc: Pc): Option<Cookie> {
    match pc
    case Store(_, _, c) => Some(c)
    case Write(_, c) => Some(c)
    case Finish(Ok(c)) => Some(c)
    case Done(Ok(c)) => Some(c)
    case _ => None
  }

  /** The cookie a successful GetToken has returned. */
  function Returned(pc: Pc): Option<Cookie> {
    if pc.Done? then Carried(pc) else None
  }

  /** `c` was minted for `m` by a login that has started, or GEI held it for `m` at the beginning. */
  ghost predicate Genuine(stored: map<User, Cookie>, s: State, m: User, c: Cookie) {
    c.owner == m &&
    match c.origin
    case Preexisting => m in stored && stored[m] == c
    case LoggedIn(start) => start < s.count
  }

  ghost predicate FlightOk(s: State, m: User) {
    m in s.flights ==>
      s.flights[m] < |s.calls| && s.calls[s.flights[m]].user == m && Leading(s.calls[s.flights[m]].pc)
  }

  ghost predicate CallOk(stored: map<User, Cookie>, s: State, i: nat)
    requires i < |s.calls|
  {
    var Call(m, pc) := s.calls[i];
    (Leading(pc) ==> m in s.flights && s.flights[m] == i) &&
    (pc.Wait? ==> pc.leader < |s.calls| && s.calls[pc.leader].user == m &&
                  (Leading(s.calls[pc.leader].pc) || s.calls[pc.leader].pc.Done?)) &&
    (pc.Authenticating? ==> pc.start < s.count) &&
    (Carried(pc).Some? ==> Genuine(stored, s, m, Carried(pc).value))
  }

  ghost predicate CachesOk(stored: map<User, Cookie>, s: State, m: User) {
    (m in s.l1 ==> Genuine(stored, s, m, s.l1[m].token)) &&
    (m in s.l2 ==> s.gei && Genuine(stored, s, m, s.l2[m]))
  }

  ghost predicate Inv(stored: map<User, Cookie>, s: State) {
    (forall m :: FlightOk(s, m)) &&
    (forall i: nat :: i < |s.calls| ==> CallOk(stored, s, i)) &&
    (forall m :: CachesOk(stored, s, m))
  }

  lemma LeaderKeepsActor(stored: map<User, Cookie>, s: State, i: nat, a: Action)
    requires Enabled(s, Act(i, a)) && CallOk(stored, s, i) && Leading(s.calls[i].pc)
    requires CachesOk(stored, s, s.calls[i].user)
    ensures CallOk(stored, Apply(s, Act(i, a)), i)
  {
  }

  lemma FollowerKeepsActor(stored: map<User, Cookie>, s: State, i: nat, a: Action)
    requires Enabled(s, Act(i, a)) && CallOk(stored, s, i) && !Leading(s.calls[i].pc)
    requires FlightOk(s, s.calls[i].user) && CachesOk(stored, s, s.calls[i].user)
    requires s.calls[i].pc.Wait? ==> CallOk(stored, s, s.calls[i].pc.leader)
    ensures CallOk(stored, Apply(s, Act(i, a)), i)
  {
  }

  /** The acting call stays well formed. */
  lemma ActKeepsActor(stored: map<User, Cookie>, s: State, i: nat, a: Action)
    requires Enabled(s, Act(i, a)) && CallOk(stored, s, i)
    requires FlightOk(s, s.calls[i].user) && CachesOk(stored, s, s.calls[i].user)
    requires s.calls[i].pc.Wait? ==> CallOk(stored, s, s.calls[i].pc.leader)
    ensures CallOk(stored, Apply(s, Act(i, a)), i)
  {
    if Leading(s.calls[i].pc) {
      LeaderKeepsActor(stored, s, i, a);
    } else {
      FollowerKeepsActor(stored, s, i, a);
    }
  }

  /** So does every other call, among them the waiters of the acting one. */
  lemma ActKeepsOthers(stored: map<User, Cookie>, s: State, i: nat, a: Action, j: nat)
    requires Enabled(s, Act(i, a)) && CallOk(stored, s, i)
    requires j < |s.calls| && j != i && CallOk(stored, s, j)
    ensures CallOk(stored, Apply(s, Act(i, a)), j)
  {
    var t := Apply(s, Act(i, a));
    assert t.calls[j] == s.calls[j];
    if s.calls[j].pc.Wait? {
      var l := s.calls[j].pc.leader;
      assert l != i ==> t.calls[l] == s.calls[l];
    }
  }

  /** An action of one user's call does not touch what belongs to another user. */
  lemma OtherUsersUntouched(s: State, i: nat, a: Action, m: User)
    requires Enabled(s, Act(i, a)) && s.calls[i].user != m
    ensures var t := Apply(s, Act(i, a));
            && (m in t.l1 <==> m in s.l1) && (m in s.l1 ==> t.l1[m] == s.l1[m])
            && (m in t.l2 <==> m in s.l2) && (m in s.l2 ==> t.l2[m] == s.l2[m])
            && (m in t.flights <==> m in s.flights) && (m in s.flights ==> t.flights[m] == s.flights[m])
  {
  }

  /** Nor does it move the leader of another user's flight. */
  lemma OtherFlightUntouched(s: State, i: nat, a: Action, m: User)
    requires Enabled(s, Act(i, a)) && s.calls[i].user != m && FlightOk(s, m)
    ensures var t := Apply(s, Act(i, a));
            && (m in t.l1 <==> m in s.l1) && (m in s.l1 ==> t.l1[m] == s.l1[m])
            && (m in t.l2 <==> m in s.l2) && (m in s.l2 ==> t.l2[m] == s.l2[m])
            && (m in t.flights <==> m in s.flights) && (m in s.flights ==> t.flights[m] == s.flights[m])
            && |t.calls| == |s.calls| && t.now == s.now
            && (m in s.flights ==> t.calls[s.flights[m]] == s.calls[s.flights[m]])
  {
    OtherUsersUntouched(s, i, a, m);
  }

  lemma ActKeepsFlight(stored: map<User, Cookie>, s: State, i: nat, a: Action, m: User)
    requires Enabled(s, Act(i, a)) && CallOk(stored, s, i) && FlightOk(s, m)
    ensures FlightOk(Apply(s, Act(i, a)), m)
  {
    if s.calls[i].user != m {
      OtherUsersUntouched(s, i, a, m);
    }
  }

  lemma ActorKeepsCaches(stored: map<User, Cookie>, s: State, i: nat, a: Action)
    requires Enabled(s, Act(i, a)) && ChangesCaches(a) && CallOk(stored, s, i) && CachesOk(stored, s, s.calls[i].user)
    ensures CachesOk(stored, Apply(s, Act(i, a)), s.calls[i].user)
  {
  }

  lemma ActKeepsCaches(stored: map<User, Cookie>, s: State, i: nat, a: Action, m: User)
    requires Enabled(s, Act(i, a)) && CallOk(stored, s, i) && CachesOk(stored, s, m)
    ensures CachesOk(stored, Apply(s, Act(i, a)), m)
  {
    if !ChangesCaches(a) {
      OthersKeepCaches(s, i, a);
    } else if s.calls[i].user != m {
      OtherUsersUntouched(s, i, a, m);
    } else {
      ActorKeepsCaches(stored, s, i, a);
    }
  }

  lemma ActKeepsInv(stored: map<User, Cookie>, s: State, i: nat, a: Action)
    requires Inv(stored, s) && Enabled(s, Act(i, a))
    ensures Inv(stored, Apply(s, Act(i, a)))
  {
    assert CallOk(stored, s, i);
    forall j: nat | j < |s.calls|
      ensures CallOk(stored, Apply(s, Act(i, a)), j)
    {
      if j == i {
        assert FlightOk(s, s.calls[i].user) && CachesOk(stored, s, s.calls[i].user);
        ActKeepsActor(stored, s, i, a);
      } else {
        ActKeepsOthers(stored, s, i, a, j);
      }
    }
    forall m
      ensures FlightOk(Apply(s, Act(i, a)), m) && CachesOk(stored, Apply(s, Act(i, a)), m)
    {
      ActKeepsFlight(stored, s, i, a, m);
      ActKeepsCaches(stored, s, i, a, m);
    }
    assert |Apply(s, Act(i, a)).calls| == |s.calls|;
  }

  lemma StepKeepsInv(stored: map<User, Cookie>, s: State, step: Step)
    requires Inv(stored, s) && Enabled(s, step)
    ensures Inv(stored, Apply(s, step))
  {
    if step.Act? {
      ActKeepsInv(stored, s, step.i, step.action);
    } else {
      var t := Apply(s, step);
      forall j: nat | j < |t.calls|
        ensures CallOk(stored, t, j)
      {
        assert j < |s.calls| ==> CallOk(stored, s, j);
      }
      forall m
        ensures FlightOk(t, m) && CachesOk(stored, t, m)
      {
        assert FlightOk(s, m) && CachesOk(stored, s, m);
      }
    }
  }

  lemma {:induction false} InvHoldsFrom(stored: map<User, Cookie>, r: Run, k: nat)
    requires r.IsRun() && Inv(stored, r.states[0]) && k <= |r.steps|
    ensures Inv(stored, r.states[k])
  {
    if k > 0 {
      InvHoldsFrom(stored, r, k - 1);
      assert r.StepOk(k - 1);
      StepKeepsInv(stored, r.states[k - 1], r.steps[k - 1]);
    }
  }

  /** The invariant holds in every state of every run of a fresh process. */
  lemma InvHolds(r: Run, k: nat)
    requires r.FromInit() && k <= |r.steps|
    ensures Inv(r.states[0].l2, r.states[k])
  {
    InvHoldsFrom(r.states[0].l2, r, k);
  }

  /** A call keeps its user. */
  lemma {:induction false} UserIsFixed(r: Run, i: nat, k: nat, c: nat)
    requires r.IsRun() && i <= k <= |r.steps| && c < |r.states[i].calls|
    ensures c < |r.states[k].calls| && r.states[k].calls[c].user == r.states[i].calls[c].user
  {
    if i < k {
      UserIsFixed(r, i, k - 1, c);
      assert r.StepOk(k - 1);
      if r.steps[k - 1].Act? {
        ActMovesOneCall(r.states[k - 1], r.steps[k - 1].i, r.steps[k - 1].action);
      }
    }
  }

  /** At most one call per user is inside the refresh closure or any other leader action. */
  lemma Exclusivity(r: Run, k: nat, i: nat, j: nat)
    requires r.FromInit() && k <= |r.steps| && i < |r.states[k].calls| && j < |r.states[k].calls|
    requires r.states[k].calls[i].user == r.states[k].calls[j].user
    requires Leading(r.states[k].calls[i].pc) && Leading(r.states[k].calls[j].pc)
    ensures i == j
  {
    InvHolds(r, k);
    assert CallOk(r.states[0].l2, r.states[k], i) && CallOk(r.states[0].l2, r.states[k], j);
  }

  /** Every cookie in L1, in GEI or returned by GetToken for `m` was minted for `m` by a login of
      this run, or was the one GEI held for `m` at the start. */
  lemma Provenance(r: Run, k: nat, m: User)
    requires r.FromInit() && k <= |r.steps|
    ensures var s := r.states[k]; var stored := r.states[0].l2;
            && (m in s.l1 ==> Genuine(stored, s, m, s.l1[m].token))
            && (m in s.l2 ==> Genuine(stored, s, m, s.l2[m]))
            && forall i: nat :: i < |s.calls| && s.calls[i].user == m && Returned(s.calls[i].pc).Some? ==>
                 Genuine(stored, s, m, Returned(s.calls[i].pc).value)
  {
    InvHolds(r, k);
    var s := r.states[k];
    assert CachesOk(r.states[0].l2, s, m);
    forall i: nat | i < |s.calls| && s.calls[i].user == m && Returned(s.calls[i].pc).Some?
      ensures Genuine(r.states[0].l2, s, m, Returned(s.calls[i].pc).value)
    {
      assert CallOk(r.states[0].l2, s, i);
    }
  }

  /** The call has written to neither cache up to position `k`. */
  ghost predicate WroteNothing(r: Run, k: nat, i: nat)
    requires k <= |r.steps|
  {
    forall j :: 0 <= j < k && r.steps[j].Act? && r.steps[j].i == i ==>
      !r.steps[j].action.WriteL1? && !r.steps[j].action.StoreL2?
  }

  /** The states a call can be in before its first write, or after a flight that failed. */
  predicate CleanPc(pc: Pc) {
    !pc.Write? && !(pc.Finish? && pc.result.Ok?) && !(pc.Done? && pc.result.Ok?)
  }

  lemma {:induction false} CleanCallsWroteNothing(r: Run, k: nat, i: nat)
    requires r.FromInit() && k <= |r.steps|
    requires i < |r.states[k].calls| ==> CleanPc(r.states[k].calls[i].pc)
    ensures WroteNothing(r, k, i)
  {
    if k > 0 {
      var s, step := r.states[k - 1], r.steps[k - 1];
      assert r.StepOk(k - 1);
      InvHolds(r, k - 1);
      if i < |s.calls| {
        assert CallOk(r.states[0].l2, s, i);
        if step.Act? && step.i == i {
          assert r.states[k].calls[i].pc == Perform(s, i, step.action).calls[i].pc;
        } else {
          assert r.states[k].calls[i] == s.calls[i];
        }
      }
      CleanCallsWroteNothing(r, k - 1, i);
    }
  }

  /** A GetToken that fails has written neither L1 nor GEI, in any interleaving. */
  lemma FailedRefreshWritesNothing(r: Run, i: nat)
    requires r.FromInit() && i < |r.Last().calls| && r.Last().calls[i].pc == Done(Failed)
    ensures WroteNothing(r, |r.steps|, i)
  {
    CleanCallsWroteNothing(r, |r.steps|, i);
  }
}
