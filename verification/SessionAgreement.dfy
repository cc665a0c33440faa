/** When a client can see that L1 and GEI disagree: the causes, exactly. */
module SessionAgreement {
  import opened Options
  import opened SessionProtocol
  import opened SessionInvariants
  import opened SessionTiming

  /** A live L1 entry and a GEI session of the same user are the same cookie text. */
  predicate Agrees(s: State, m: User) {
    Live(s, m) && m in s.l2 ==> s.l2[m].text == s.l1[m].token.text
  }

  /* ---------- The step at which the agreement breaks ---------- */

  predicate Breaks(s: State, step: Step, m: User)
    requires Enabled(s, step)
  {
    match step
    case Act(i, WriteL1) =>
      s.calls[i].user == m && s.now < s.calls[i].pc.expiry && m in s.l2 && s.l2[m].text != s.calls[i].pc.cookie.text
    case OtherProcess(u, Some(c)) => u == m && Live(s, m) && s.l1[m].token.text != c.text
    case _ => false
  }

  predicate Refreshing(pc: Pc) {
    pc.Refresh? || pc.Get? || pc.Login? || pc.Authenticating? || pc.Store? || pc.Write?
  }

  /** While a flight refreshes, no L1 entry is live. */
  predicate Quiet(s: State, m: User) {
    m in s.flights && s.flights[m] < |s.calls| && Refreshing(s.calls[s.flights[m]].pc) ==> !Live(s, m)
  }

  lemma LeaderKeepsAgreement(s: State, i: nat, a: Action)
    requires Enabled(s, Act(i, a)) && !Breaks(s, Act(i, a), s.calls[i].user) && Leading(s.calls[i].pc)
    requires s.calls[i].user in s.flights && s.flights[s.calls[i].user] == i
    requires Quiet(s, s.calls[i].user) && Agrees(s, s.calls[i].user)
    ensures Quiet(Apply(s, Act(i, a)), s.calls[i].user) && Agrees(Apply(s, Act(i, a)), s.calls[i].user)
  {
  }

  lemma FollowerKeepsAgreement(s: State, i: nat, a: Action)
    requires Enabled(s, Act(i, a)) && !Leading(s.calls[i].pc) && FlightOk(s, s.calls[i].user)
    requires Quiet(s, s.calls[i].user) && Agrees(s, s.calls[i].user)
    ensures Quiet(Apply(s, Act(i, a)), s.calls[i].user) && Agrees(Apply(s, Act(i, a)), s.calls[i].user)
  {
  }

  lemma OthersKeepAgreement(s: State, i: nat, a: Action, m: User)
    requires Enabled(s, Act(i, a)) && s.calls[i].user != m && FlightOk(s, m) && Quiet(s, m) && Agrees(s, m)
    ensures Quiet(Apply(s, Act(i, a)), m) && Agrees(Apply(s, Act(i, a)), m)
  {
    OtherFlightUntouched(s, i, a, m);
  }

  lemma StepKeepsAgreement(stored: map<User, Cookie>, s: State, step: Step, m: User)
    requires Enabled(s, step) && !Breaks(s, step, m) && Inv(stored, s) && Quiet(s, m) && Agrees(s, m)
    ensures Quiet(Apply(s, step), m) && Agrees(Apply(s, step), m)
  {
    assert FlightOk(s, m);
    if step.Act? {
      var i := step.i;
      assert CallOk(stored, s, i);
      if s.calls[i].user != m {
        OthersKeepAgreement(s, i, step.action, m);
      } else if Leading(s.calls[i].pc) {
        LeaderKeepsAgreement(s, i, step.action);
      } else {
        FollowerKeepsAgreement(s, i, step.action);
      }
    }
  }

  ghost predicate KeepsAgreement(r: Run, k: nat, m: User)
    requires r.Shaped() && k < |r.steps|
  {
    r.StepOk(k) ==> !Breaks(r.states[k], r.steps[k], m)
  }

  lemma {:induction false} UnbrokenAgrees(r: Run, m: User, k: nat)
    requires r.FromInit() && k <= |r.steps| && forall j: nat :: j < |r.steps| ==> KeepsAgreement(r, j, m)
    ensures Quiet(r.states[k], m) && Agrees(r.states[k], m)
  {
    if k > 0 {
      UnbrokenAgrees(r, m, k - 1);
      InvHolds(r, k - 1);
      assert r.StepOk(k - 1) && KeepsAgreement(r, k - 1, m);
      StepKeepsAgreement(r.states[0].l2, r.states[k - 1], r.steps[k - 1], m);
    }
  }

  /* ---------- What makes a write disagree ---------- */

  /** The step deletes the session of `m`, or is another process's write to it. */
  predicate Touches(s: State, step: Step, m: User) {
    match step
    case Act(i, DeleteL2(true)) => i < |s.calls| && s.calls[i].user == m
    case OtherProcess(u, _) => u == m
    case _ => false
  }

  /** Nothing strictly between `j` and `k` touches the session of `m`. */
  ghost predicate Untouched(r: Run, j: nat, k: nat, m: User)
    requires r.Shaped() && k <= |r.steps|
  {
    forall h: nat :: j < h < k ==> !Touches(r.states[h], r.steps[h], m)
  }

  /** At `j` call `i` fails to store its cookie while GEI holds another one for `m`. */
  predicate LosesOver(r: Run, j: nat, i: nat, m: User)
    requires r.Shaped() && j < |r.steps|
  {
    var s := r.states[j];
    r.steps[j] == Act(i, StoreL2(false)) && i < |s.calls| && s.calls[i].pc.Store? &&
    m in s.l2 && s.l2[m].text != s.calls[i].pc.cookie.text
  }

  /** At `j`, while call `i` is about to write L1, another process stores another cookie for `m`. */
  predicate OverStored(r: Run, j: nat, i: nat, m: User)
    requires r.Shaped() && j < |r.steps|
  {
    var s, step := r.states[j], r.steps[j];
    i < |s.calls| && s.calls[i].pc.Write? && step.OtherProcess? && step.user == m && step.session.Some? &&
    step.session.value.text != s.calls[i].pc.cookie.text
  }

  /** At `k` call `i` of `m` writes to L1 an entry that has not expired. */
  predicate WritesLive(r: Run, k: nat, i: nat, m: User)
    requires r.Shaped() && k < |r.steps|
  {
    var s := r.states[k];
    r.steps[k] == Act(i, WriteL1) && i < |s.calls| && s.calls[i].user == m && s.calls[i].pc.Write? &&
    s.now < s.calls[i].pc.expiry
  }

  /** The write of call `i` at `k` comes after `j`, where GEI came to hold, or kept, another cookie. */
  ghost predicate BadWrite(r: Run, j: nat, k: nat, i: nat, m: User)
    requires r.Shaped()
  {
    j < k < |r.steps| && WritesLive(r, k, i, m) && Untouched(r, j, k, m) &&
    (LosesOver(r, j, i, m) || OverStored(r, j, i, m))
  }

  /** At `k` another process stores a cookie for `m` other than that of the live L1 entry. */
  predicate BadStore(r: Run, k: nat, m: User)
    requires r.Shaped()
  {
    k < |r.steps| &&
    var s, step := r.states[k], r.steps[k];
    step.OtherProcess? && step.user == m && step.session.Some? &&
    Live(s, m) && s.l1[m].token.text != step.session.value.text
  }

  /** A call about to write L1 carries another cookie than GEI holds. */
  predicate Differs(s: State, i: nat, m: User) {
    i < |s.calls| && s.calls[i].user == m && s.calls[i].pc.Write? && m in s.l2 &&
    s.l2[m].text != s.calls[i].pc.cookie.text
  }

  /** Where a difference comes from: the step before made it, or left it. */
  lemma DifferenceComesFrom(stored: map<User, Cookie>, s: State, step: Step, i: nat, m: User)
    requires Inv(stored, s) && Enabled(s, step) && Differs(Apply(s, step), i, m)
    ensures i < |s.calls|
    ensures (Differs(s, i, m) && !Touches(s, step, m)) ||
            (step == Act(i, StoreL2(false)) && s.calls[i].pc.Store? && m in s.l2 &&
             s.l2[m].text != s.calls[i].pc.cookie.text) ||
            (step.OtherProcess? && step.user == m && step.session.Some? && s.calls[i].pc.Write? &&
             step.session.value.text != s.calls[i].pc.cookie.text)
  {
    if step.Act? {
      assert CallOk(stored, s, step.i);
      assert step.i < |s.calls|;
      ActMovesOneCall(s, step.i, step.action);
      if step.i == i {
        OwnDifference(stored, s, i, step.action);
      } else {
        assert CallOk(stored, s, i);
        OthersDifference(s, step.i, step.action, i, m);
      }
    }
  }

  lemma OwnDifference(stored: map<User, Cookie>, s: State, i: nat, a: Action)
    requires Enabled(s, Act(i, a)) && CallOk(stored, s, i) && Differs(Apply(s, Act(i, a)), i, s.calls[i].user)
    requires s.calls[i].pc.Wait? ==> s.calls[i].pc.leader < |s.calls|
    ensures a == StoreL2(false) && s.calls[i].pc.Store? && s.calls[i].user in s.l2
    ensures s.l2[s.calls[i].user].text != s.calls[i].pc.cookie.text
  {
  }

  lemma OthersDifference(s: State, g: nat, a: Action, i: nat, m: User)
    requires Enabled(s, Act(g, a)) && g != i && i < |s.calls| && s.calls[i].user == m
    requires s.calls[i].pc.Write? ==> m in s.flights && s.flights[m] == i
    requires Leading(s.calls[g].pc) ==> s.calls[g].user in s.flights && s.flights[s.calls[g].user] == g
    requires Differs(Apply(s, Act(g, a)), i, m)
    ensures Differs(s, i, m) && !Touches(s, Act(g, a), m)
  {
    assert Apply(s, Act(g, a)).calls[i] == s.calls[i];
  }

  /** Every difference goes back to a lost store or to another process's store. */
  lemma {:induction false} DifferenceHasCause(r: Run, k: nat, i: nat, m: User) returns (j: nat)
    requires r.FromInit() && k <= |r.steps| && Differs(r.states[k], i, m)
    ensures j < k && Untouched(r, j, k, m) && (LosesOver(r, j, i, m) || OverStored(r, j, i, m))
  {
    assert k > 0;
    InvHolds(r, k - 1);
    assert r.StepOk(k - 1);
    DifferenceComesFrom(r.states[0].l2, r.states[k - 1], r.steps[k - 1], i, m);
    if LosesOver(r, k - 1, i, m) || OverStored(r, k - 1, i, m) {
      j := k - 1;
    } else {
      j := DifferenceHasCause(r, k - 1, i, m);
    }
  }

  /** A difference lasts until the write, unless GEI is touched. */
  lemma DifferenceStays(stored: map<User, Cookie>, s: State, step: Step, i: nat, m: User)
    requires Inv(stored, s) && Enabled(s, step) && Differs(s, i, m) && !Touches(s, step, m)
    ensures i < |Apply(s, step).calls|
    ensures Differs(Apply(s, step), i, m) || StepsLeft(Apply(s, step).calls[i].pc) < 2
  {
    if step.Act? {
      assert CallOk(stored, s, step.i) && CallOk(stored, s, i);
      ActMovesOneCall(s, step.i, step.action);
      OthersKeepDifference(s, step.i, step.action, i, m);
    }
  }

  lemma OthersKeepDifference(s: State, g: nat, a: Action, i: nat, m: User)
    requires Enabled(s, Act(g, a)) && Differs(s, i, m) && !Touches(s, Act(g, a), m)
    requires m in s.flights && s.flights[m] == i
    requires Leading(s.calls[g].pc) ==> s.calls[g].user in s.flights && s.flights[s.calls[g].user] == g
    ensures i < |Apply(s, Act(g, a)).calls|
    ensures g != i ==> Differs(Apply(s, Act(g, a)), i, m)
    ensures g == i ==> StepsLeft(Apply(s, Act(g, a)).calls[i].pc) < 2
  {
    assert g != i ==> Apply(s, Act(g, a)).calls[i] == s.calls[i];
  }

  lemma StepsLeftFalls(s: State, step: Step, i: nat)
    requires Enabled(s, step) && i < |s.calls|
    ensures i < |Apply(s, step).calls| && StepsLeft(Apply(s, step).calls[i].pc) <= StepsLeft(s.calls[i].pc)
  {
    if step.Act? {
      ActMovesOneCall(s, step.i, step.action);
      ActMakesProgress(s, step.i, step.action);
    }
  }

  lemma CauseMakesDifference(r: Run, j: nat, i: nat, m: User)
    requires r.FromInit() && j < |r.steps| && (LosesOver(r, j, i, m) || OverStored(r, j, i, m))
    requires r.states[j].calls[i].user == m
    ensures Differs(r.states[j + 1], i, m)
  {
    assert r.StepOk(j);
  }

  /** From its cause on the difference stays, until the call has written L1. */
  lemma {:induction false} DifferenceUntilWrite(r: Run, j: nat, h: nat, i: nat, m: User)
    requires r.FromInit() && j < h <= |r.steps| && Untouched(r, j, h, m)
    requires (LosesOver(r, j, i, m) || OverStored(r, j, i, m)) && r.states[j].calls[i].user == m
    ensures i < |r.states[h].calls| && (Differs(r.states[h], i, m) || StepsLeft(r.states[h].calls[i].pc) < 2)
  {
    if h == j + 1 {
      CauseMakesDifference(r, j, i, m);
    } else {
      DifferenceUntilWrite(r, j, h - 1, i, m);
      InvHolds(r, h - 1);
      assert r.StepOk(h - 1);
      StepsLeftFalls(r.states[h - 1], r.steps[h - 1], i);
      if Differs(r.states[h - 1], i, m) {
        DifferenceStays(r.states[0].l2, r.states[h - 1], r.steps[h - 1], i, m);
      }
    }
  }

  lemma BadWriteDisagrees(r: Run, j: nat, k: nat, i: nat, m: User)
    requires r.FromInit() && BadWrite(r, j, k, i, m)
    ensures !Agrees(r.states[k + 1], m)
  {
    UserIsFixed(r, j, k, i);
    DifferenceUntilWrite(r, j, k, i, m);
    assert r.StepOk(k);
  }

  lemma BreakHasCause(r: Run, k: nat, m: User)
    requires r.FromInit() && k < |r.steps| && r.StepOk(k) && Breaks(r.states[k], r.steps[k], m)
    ensures BadStore(r, k, m) || exists i: nat, j: nat :: BadWrite(r, j, k, i, m)
  {
    if r.steps[k].Act? {
      var i := r.steps[k].i;
      var j := DifferenceHasCause(r, k, i, m);
      assert BadWrite(r, j, k, i, m);
    }
  }

  /* ---------- Main results ---------- */

  /** With any number of processes and any failures, the cookies agree in every state of a run if and only
      if no call writes a live entry after losing its store over another cookie, or after another process has
      stored another cookie, with GEI left alone in between; and no other process stores a cookie other than
      that of a live entry. */
  lemma AgreementExactly(r: Run, m: User)
    requires r.FromInit()
    ensures (forall k: nat :: k < |r.states| ==> Agrees(r.states[k], m)) <==>
            (forall i: nat, j: nat, k: nat :: !BadWrite(r, j, k, i, m)) && (forall k: nat :: !BadStore(r, k, m))
  {
    if i: nat, j: nat, k: nat :| BadWrite(r, j, k, i, m) {
      BadWriteDisagrees(r, j, k, i, m);
    } else if k: nat :| BadStore(r, k, m) {
      assert r.StepOk(k);
      assert !Agrees(r.states[k + 1], m);
    } else {
      forall k: nat | k < |r.steps|
        ensures KeepsAgreement(r, k, m)
      {
        if r.StepOk(k) && Breaks(r.states[k], r.steps[k], m) {
          BreakHasCause(r, k, m);
        }
      }
      forall k: nat | k < |r.states|
        ensures Agrees(r.states[k], m)
      {
        UnbrokenAgrees(r, m, k);
      }
    }
  }

  /** A refresh that found GEI empty still finds it empty when it stores. */
  predicate SightedEmpty(s: State, m: User) {
    m in s.flights && s.flights[m] < |s.calls| ==>
      var pc := s.calls[s.flights[m]].pc;
      (pc.Login? || pc.Authenticating? || pc.Store?) && !pc.blind ==> m !in s.l2
  }

  lemma LeaderKeepsEmpty(s: State, i: nat, a: Action)
    requires Enabled(s, Act(i, a)) && Leading(s.calls[i].pc) && SightedEmpty(s, s.calls[i].user)
    requires s.calls[i].user in s.flights && s.flights[s.calls[i].user] == i
    ensures SightedEmpty(Apply(s, Act(i, a)), s.calls[i].user)
  {
  }

  lemma FollowerKeepsEmpty(s: State, i: nat, a: Action)
    requires Enabled(s, Act(i, a)) && !Leading(s.calls[i].pc) && FlightOk(s, s.calls[i].user)
    requires SightedEmpty(s, s.calls[i].user)
    ensures SightedEmpty(Apply(s, Act(i, a)), s.calls[i].user)
  {
  }

  lemma StepKeepsEmpty(stored: map<User, Cookie>, s: State, step: Step, m: User)
    requires Inv(stored, s) && Enabled(s, step) && !step.OtherProcess? && SightedEmpty(s, m)
    ensures SightedEmpty(Apply(s, step), m)
  {
    assert FlightOk(s, m);
    if step.Act? {
      var i := step.i;
      assert CallOk(stored, s, i);
      if s.calls[i].user != m {
        OtherFlightUntouched(s, i, step.action, m);
      } else if Leading(s.calls[i].pc) {
        LeaderKeepsEmpty(s, i, step.action);
      } else {
        FollowerKeepsEmpty(s, i, step.action);
      }
    }
  }

  lemma {:induction false} SightedStaysEmpty(r: Run, k: nat, m: User)
    requires r.FromInit() && r.OneProcess() && k <= |r.steps|
    ensures SightedEmpty(r.states[k], m)
  {
    if k > 0 {
      SightedStaysEmpty(r, k - 1, m);
      InvHolds(r, k - 1);
      assert r.StepOk(k - 1);
      StepKeepsEmpty(r.states[0].l2, r.states[k - 1], r.steps[k - 1], m);
    }
  }

  /** A call of `m` that GEI did not answer loses its store over another cookie at `j` and writes a live entry
      at `k`, with no session of `m` deleted in between. */
  ghost predicate BlindLoss(r: Run, j: nat, k: nat, i: nat, m: User)
    requires r.Shaped()
  {
    j < k < |r.steps| && WritesLive(r, k, i, m) && Untouched(r, j, k, m) &&
    LosesOver(r, j, i, m) && r.states[j].calls[i].pc.blind
  }

  lemma LossIsBlind(r: Run, j: nat, k: nat, i: nat, m: User)
    requires r.FromInit() && r.OneProcess() && BadWrite(r, j, k, i, m)
    ensures BlindLoss(r, j, k, i, m)
  {
    UserIsFixed(r, j, k, i);
    SightedStaysEmpty(r, j, m);
    InvHolds(r, j);
    assert CallOk(r.states[0].l2, r.states[j], i);
  }

  /** With one process the cookies agree in every state of a run if and only if no refresh loses both its GEI
      read and its GEI write over another cookie that GEI still holds when the refresh writes L1 in time. */
  lemma OneProcessAgreesExactly(r: Run, m: User)
    requires r.FromInit() && r.OneProcess()
    ensures (forall k: nat :: k < |r.states| ==> Agrees(r.states[k], m)) <==>
            forall i: nat, j: nat, k: nat :: !BlindLoss(r, j, k, i, m)
  {
    AgreementExactly(r, m);
    if i: nat, j: nat, k: nat :| BlindLoss(r, j, k, i, m) {
      assert BadWrite(r, j, k, i, m);
    }
    if i: nat, j: nat, k: nat :| BadWrite(r, j, k, i, m) {
      LossIsBlind(r, j, k, i, m);
    }
  }

  /* ---------- Runs that disagree ---------- */

  /** A process that starts with a session of `m` in GEI. */
  function Restarted(m: User, old': Cookie): State {
    State(0, 0, true, map[], map[m := old'], map[], [])
  }

  /** A call of `m` misses L1 and is about to read GEI. */
  lemma FirstMiss(m: User, old': Cookie) returns (r: Run)
    requires old'.owner == m && old'.origin.Preexisting?
    ensures r.FromInit() && r.OneProcess() && r.states[0] == Restarted(m, old')
    ensures r.steps == [Begin(m, Plain), Act(0, ReadL1), Act(0, Enter), Act(0, RecheckL1), Act(0, StartRefresh)]
    ensures r.Last() == State(0, 5, true, map[], map[m := old'], map[m := 0], [Call(m, Get(IMALUUM_SESSION_TTL))])
  {
    r := Still(Restarted(m, old'));
    r := Take(r, Begin(m, Plain));
    r := Take(r, Act(0, ReadL1));
    r := Take(r, Act(0, Enter));
    r := Take(r, Act(0, RecheckL1));
    r := Take(r, Act(0, StartRefresh));
  }

  lemma Take(r: Run, step: Step) returns (q: Run)
    requires r.FromInit() && Enabled(r.Last(), step)
    ensures q == Extend(r, step) && q.FromInit() && q.Last() == Apply(r.Last(), step)
    ensures q.states[0] == r.states[0] && |q.steps| == |r.steps| + 1 && q.steps[|r.steps|] == step
    ensures r.OneProcess() && !step.OtherProcess? ==> q.OneProcess()
  {
    ExtendIsRun(r, step);
    q := Extend(r, step);
  }

  /** One process alone can lose the agreement: a blind refresh logs in, loses its StoreSession, and writes
      L1 while GEI still holds the old session. */
  lemma LostStoreDisagrees(m: User, old': Cookie, text: string) returns (r: Run)
    requires old'.owner == m && old'.origin.Preexisting? && text != old'.text
    ensures r.FromInit() && r.OneProcess() && r.states[0] == Restarted(m, old') && |r.steps| == 10
    ensures Live(r.Last(), m) && r.Last().l1[m].token.text == text
    ensures m in r.Last().l2 && r.Last().l2[m].text == old'.text
  {
    r := FirstMiss(m, old');
    r := Take(r, Act(0, GetL2(false)));
    r := Take(r, Act(0, StartLogin));
    r := Take(r, Act(0, EndLogin(Some(text))));
    r := Take(r, Act(0, StoreL2(false)));
    r := Take(r, Act(0, WriteL1));
  }

  /** Two processes can lose it even if every GEI call takes effect: after this process has written L1,
      another one, which has logged in too, stores its own session. */
  lemma OtherProcessDisagrees(m: User, old': Cookie, c: Cookie) returns (r: Run)
    requires old'.owner == m && old'.origin.Preexisting? && c.owner == m && c.origin == LoggedIn(0)
    requires c.text != old'.text
    ensures r.FromInit() && r.states[0] == Restarted(m, old')
    ensures r.steps == [Begin(m, Plain), Act(0, ReadL1), Act(0, Enter), Act(0, RecheckL1), Act(0, StartRefresh),
                        Act(0, GetL2(true)), Act(0, WriteL1), OtherProcess(m, Some(c))]
    ensures Live(r.Last(), m) && r.Last().l1[m].token.text == old'.text
    ensures m in r.Last().l2 && r.Last().l2[m].text == c.text
  {
    r := FirstMiss(m, old');
    r := Take(r, Act(0, GetL2(true)));
    r := Take(r, Act(0, WriteL1));
    r := Take(r, OtherProcess(m, Some(c)));
  }
}
