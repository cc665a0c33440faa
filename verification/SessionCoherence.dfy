/** L1 and GEI agree, and every login is accounted for. */
module SessionCoherence {
  import opened Options
  import opened Counting
  import opened SessionProtocol
  import opened SessionInvariants

  /** A live L1 entry and a GEI session of the same user hold the same cookie. */
  ghost predicate Coherent(s: State, m: User) {
    Live(s, m) && m in s.l2 ==> s.l2[m] == s.l1[m].token
  }

  /** What the leader of a flight may rely on between its L1 check and its L1 write. */
  ghost predicate LeaderCoherent(s: State, m: User, pc: Pc) {
    (pc.Refresh? || pc.Get? || pc.Login? || pc.Authenticating? || pc.Store? || pc.Write? ==> !Live(s, m)) &&
    ((pc.Login? || pc.Authenticating? || pc.Store?) && !pc.blind ==> m !in s.l2) &&
    (pc.Write? && m in s.l2 ==> s.l2[m] == pc.cookie)
  }

  ghost predicate CoherentAt(s: State, m: User) {
    Coherent(s, m) &&
    (m in s.flights && s.flights[m] < |s.calls| ==> LeaderCoherent(s, m, s.calls[s.flights[m]].pc))
  }

  /** A refresh for `m` fails to store its cookie while GEI holds a different session of `m`, which its own
      GEI read did not find. */
  predicate LosesStore(s: State, step: Step, m: User)
    requires Enabled(s, step)
  {
    step.Act? && step.action == StoreL2(false) && s.calls[step.i].user == m &&
    m in s.l2 && s.l2[m] != s.calls[step.i].pc.cookie
  }

  /** One process, and no refresh for `m` loses its store over another session. */
  ghost predicate Faithful(r: Run, m: User)
    requires r.IsRun()
  {
    r.OneProcess() && forall k: nat :: k < |r.steps| ==> KeepsStore(r, k, m)
  }

  ghost predicate KeepsStore(r: Run, k: nat, m: User)
    requires r.Shaped() && k < |r.steps|
  {
    r.StepOk(k) ==> !LosesStore(r.states[k], r.steps[k], m)
  }

  lemma OthersKeepCoherence(s: State, i: nat, a: Action, m: User)
    requires Enabled(s, Act(i, a)) && s.calls[i].user != m && FlightOk(s, m) && CoherentAt(s, m)
    ensures CoherentAt(Apply(s, Act(i, a)), m)
  {
    OtherFlightUntouched(s, i, a, m);
  }

  lemma LeaderKeepsCoherence(stored: map<User, Cookie>, s: State, i: nat, a: Action)
    requires Enabled(s, Act(i, a)) && !LosesStore(s, Act(i, a), s.calls[i].user) && Leading(s.calls[i].pc)
    requires CallOk(stored, s, i) && CachesOk(stored, s, s.calls[i].user) && CoherentAt(s, s.calls[i].user)
    ensures CoherentAt(Apply(s, Act(i, a)), s.calls[i].user)
  {
  }

  lemma FollowerKeepsCoherence(s: State, i: nat, a: Action)
    requires Enabled(s, Act(i, a)) && !Leading(s.calls[i].pc)
    requires FlightOk(s, s.calls[i].user) && CoherentAt(s, s.calls[i].user)
    ensures CoherentAt(Apply(s, Act(i, a)), s.calls[i].user)
  {
  }

  lemma ActKeepsCoherence(stored: map<User, Cookie>, s: State, i: nat, a: Action, m: User)
    requires Enabled(s, Act(i, a)) && !LosesStore(s, Act(i, a), m)
    requires CallOk(stored, s, i) && FlightOk(s, m) && CachesOk(stored, s, m) && CoherentAt(s, m)
    ensures CoherentAt(Apply(s, Act(i, a)), m)
  {
    if s.calls[i].user != m {
      OthersKeepCoherence(s, i, a, m);
    } else if Leading(s.calls[i].pc) {
      LeaderKeepsCoherence(stored, s, i, a);
    } else {
      FollowerKeepsCoherence(s, i, a);
    }
  }

  lemma StepKeepsCoherence(stored: map<User, Cookie>, s: State, step: Step, m: User)
    requires Enabled(s, step) && !LosesStore(s, step, m) && !step.OtherProcess?
    requires Inv(stored, s) && CoherentAt(s, m)
    ensures CoherentAt(Apply(s, step), m)
  {
    assert FlightOk(s, m) && CachesOk(stored, s, m);
    if step.Act? {
      assert CallOk(stored, s, step.i);
      ActKeepsCoherence(stored, s, step.i, step.action, m);
    }
  }

  /** In every state of every faithful run, also between StoreSession and the L1 write of a flight,
      a live L1 entry for `m` implies that GEI holds the same cookie or nothing. */
  lemma {:induction false} CoherenceHolds(r: Run, k: nat, m: User)
    requires r.FromInit() && Faithful(r, m) && k <= |r.steps|
    ensures CoherentAt(r.states[k], m)
  {
    if k > 0 {
      CoherenceHolds(r, k - 1, m);
      InvHolds(r, k - 1);
      assert r.StepOk(k - 1) && KeepsStore(r, k - 1, m);
      StepKeepsCoherence(r.states[0].l2, r.states[k - 1], r.steps[k - 1], m);
    }
  }

  /* ---------- Conservation of sessions ---------- */

  datatype Event =
    | LoginSucceeds      // a login of sessionFunc returned a cookie
    | StoreLost          // StoreSession did not take effect
    | Overwrite          // StoreSession replaced a session
    | Eviction           // DeleteSession removed a session
    | DeleteCalled       // refreshSession called DeleteSession
    | RecoveryBegins     // refreshSession was called

  predicate Happens(e: Event, m: User, s: State, step: Step) {
    match step
    case Begin(u, kind) => e.RecoveryBegins? && u == m && kind.Recovery?
    case Act(i, a) =>
      i < |s.calls| && s.calls[i].user == m &&
      (match e
       case LoginSucceeds => a.EndLogin? && a.text.Some?
       case StoreLost => a == StoreL2(false)
       case Overwrite => a == StoreL2(true) && m in s.l2
       case Eviction => a == DeleteL2(true) && m in s.l2
       case DeleteCalled => a.DeleteL2?
       case RecoveryBegins => false)
    case _ => false
  }

  /** How often `e` happens for `m` in the first `k` steps. */
  function Count(e: Event, m: User, r: Run, k: nat): nat
    requires r.Shaped() && k <= |r.steps|
  {
    if k == 0 then 0
    else Count(e, m, r, k - 1) + Bit(Happens(e, m, r.states[k - 1], r.steps[k - 1]))
  }

  /** Every GetSession call is answered. */
  ghost predicate ReadsAnswered(r: Run) {
    forall k :: 0 <= k < |r.steps| && r.steps[k].Act? ==> r.steps[k].action != GetL2(false)
  }

  /** A cookie was minted for `m` and is about to be stored. */
  predicate Pending(s: State, m: User) {
    m in s.flights && s.flights[m] < |s.calls| && s.calls[s.flights[m]].pc.Store?
  }

  function Sessions(s: State, m: User): nat {
    Bit(m in s.l2) + Bit(Pending(s, m))
  }

  predicate Sighted(s: State, i: nat)
    requires i < |s.calls|
  {
    var pc := s.calls[i].pc;
    pc.Login? || pc.Authenticating? || pc.Store? ==> !pc.blind
  }

  lemma {:induction false} AnsweredIsSighted(r: Run, k: nat, i: nat)
    requires r.FromInit() && ReadsAnswered(r) && k <= |r.steps| && i < |r.states[k].calls|
    ensures Sighted(r.states[k], i)
  {
    if k > 0 {
      assert r.StepOk(k - 1);
      var s, step := r.states[k - 1], r.steps[k - 1];
      if i < |s.calls| {
        AnsweredIsSighted(r, k - 1, i);
        if !(step.Act? && step.i == i) {
          assert r.states[k].calls[i] == s.calls[i];
        } else if s.calls[i].pc.Wait? {
          InvHolds(r, k - 1);
          assert CallOk(r.states[0].l2, s, i);
        }
      }
    }
  }

  lemma SightedKeepsStore(s: State, step: Step, m: User)
    requires Enabled(s, step) && (step.Act? ==> Sighted(s, step.i))
    requires step.Act? && s.calls[step.i].user == m && Leading(s.calls[step.i].pc) ==>
               m in s.flights && s.flights[m] == step.i
    requires CoherentAt(s, m)
    ensures !LosesStore(s, step, m)
  {
  }

  /** Then the caches agree. */
  lemma {:induction false} AnsweredIsCoherent(r: Run, k: nat, m: User)
    requires r.FromInit() && r.OneProcess() && ReadsAnswered(r) && k <= |r.steps|
    ensures CoherentAt(r.states[k], m)
  {
    if k > 0 {
      AnsweredIsCoherent(r, k - 1, m);
      var s, step := r.states[k - 1], r.steps[k - 1];
      InvHolds(r, k - 1);
      assert r.StepOk(k - 1);
      if step.Act? {
        AnsweredIsSighted(r, k - 1, step.i);
        assert CallOk(r.states[0].l2, s, step.i);
      }
      SightedKeepsStore(s, step, m);
      StepKeepsCoherence(r.states[0].l2, s, step, m);
    }
  }

  lemma OthersKeepBalance(s: State, i: nat, a: Action, m: User)
    requires Enabled(s, Act(i, a)) && s.calls[i].user != m && FlightOk(s, m)
    ensures Sessions(Apply(s, Act(i, a)), m) == Sessions(s, m)
    ensures forall e :: !Happens(e, m, s, Act(i, a))
  {
    OtherFlightUntouched(s, i, a, m);
  }

  lemma LeaderBalance(s: State, i: nat, a: Action)
    requires Enabled(s, Act(i, a)) && Sighted(s, i) && Leading(s.calls[i].pc)
    requires s.calls[i].user in s.flights && s.flights[s.calls[i].user] == i && CoherentAt(s, s.calls[i].user)
    ensures var t, step := Apply(s, Act(i, a)), Act(i, a);
            var m := s.calls[i].user;
            && Sessions(s, m) + Bit(Happens(LoginSucceeds, m, s, step)) ==
               Sessions(t, m) + Bit(Happens(Eviction, m, s, step)) + Bit(Happens(StoreLost, m, s, step))
            && !Happens(Overwrite, m, s, step)
  {
  }

  lemma FollowerBalance(s: State, i: nat, a: Action)
    requires Enabled(s, Act(i, a)) && !Leading(s.calls[i].pc) && FlightOk(s, s.calls[i].user)
    ensures var t, step := Apply(s, Act(i, a)), Act(i, a);
            var m := s.calls[i].user;
            && Sessions(s, m) + Bit(Happens(LoginSucceeds, m, s, step)) ==
               Sessions(t, m) + Bit(Happens(Eviction, m, s, step)) + Bit(Happens(StoreLost, m, s, step))
            && !Happens(Overwrite, m, s, step)
  {
  }

  lemma ActBalance(stored: map<User, Cookie>, s: State, i: nat, a: Action, m: User)
    requires Enabled(s, Act(i, a)) && Sighted(s, i)
    requires CallOk(stored, s, i) && FlightOk(s, m) && CoherentAt(s, m)
    ensures var t, step := Apply(s, Act(i, a)), Act(i, a);
            && Sessions(s, m) + Bit(Happens(LoginSucceeds, m, s, step)) ==
               Sessions(t, m) + Bit(Happens(Eviction, m, s, step)) + Bit(Happens(StoreLost, m, s, step))
            && !Happens(Overwrite, m, s, step)
  {
    if s.calls[i].user != m {
      OthersKeepBalance(s, i, a, m);
    } else if Leading(s.calls[i].pc) {
      LeaderBalance(s, i, a);
    } else {
      FollowerBalance(s, i, a);
    }
  }

  lemma StepBalance(r: Run, k: nat, m: User)
    requires r.FromInit() && r.OneProcess() && ReadsAnswered(r) && k < |r.steps|
    ensures var s, t, step := r.states[k], r.states[k + 1], r.steps[k];
            && Sessions(s, m) + Bit(Happens(LoginSucceeds, m, s, step)) ==
               Sessions(t, m) + Bit(Happens(Eviction, m, s, step)) + Bit(Happens(StoreLost, m, s, step))
            && !Happens(Overwrite, m, s, step)
  {
    var s, step := r.states[k], r.steps[k];
    assert r.StepOk(k);
    InvHolds(r, k);
    assert FlightOk(s, m);
    if step.Act? {
      AnsweredIsCoherent(r, k, m);
      AnsweredIsSighted(r, k, step.i);
      assert CallOk(r.states[0].l2, s, step.i);
      ActBalance(r.states[0].l2, s, step.i, step.action, m);
    }
  }

  /** With one process whose GEI reads are answered, every successful login is accounted for: the
      sessions at the start plus the logins equal the sessions evicted, lost, stored now or about to
      be stored; and StoreSession never replaces a session. */
  lemma {:induction false} SessionConservation(r: Run, k: nat, m: User)
    requires r.FromInit() && r.OneProcess() && ReadsAnswered(r) && k <= |r.steps|
    ensures Bit(m in r.states[0].l2) + Count(LoginSucceeds, m, r, k) ==
            Count(Eviction, m, r, k) + Count(StoreLost, m, r, k) +
            Bit(m in r.states[k].l2) + Bit(Pending(r.states[k], m))
    ensures Count(Overwrite, m, r, k) == 0
    ensures Sessions(r.states[k], m) <= 1
  {
    if k > 0 {
      SessionConservation(r, k - 1, m);
      StepBalance(r, k - 1, m);
    }
    AnsweredIsCoherent(r, k, m);
    if Pending(r.states[k], m) {
      AnsweredIsSighted(r, k, r.states[k].flights[m]);
    }
  }

  /* ---------- At most one login per eviction ---------- */

  predicate Recovering(call: Call, m: User) {
    call.user == m && (call.pc.Evict? || call.pc.Delete?)
  }

  function CountRecovering(calls: seq<Call>, m: User): nat {
    if calls == [] then 0
    else CountRecovering(calls[..|calls| - 1], m) + Bit(Recovering(calls[|calls| - 1], m))
  }

  lemma {:induction false} CountAfterUpdate(calls: seq<Call>, i: nat, c: Call, m: User)
    requires i < |calls|
    ensures CountRecovering(calls[i := c], m) + Bit(Recovering(calls[i], m)) ==
            CountRecovering(calls, m) + Bit(Recovering(c, m))
  {
    var n := |calls| - 1;
    if i == n {
      assert calls[i := c][..n] == calls[..n];
    } else {
      assert calls[i := c][..n] == calls[..n][i := c];
      CountAfterUpdate(calls[..n], i, c, m);
    }
  }

  lemma ActRecovering(s: State, i: nat, a: Action, m: User)
    requires Enabled(s, Act(i, a))
    ensures Bit(Recovering(Apply(s, Act(i, a)).calls[i], m)) + Bit(Happens(DeleteCalled, m, s, Act(i, a))) ==
            Bit(Recovering(s.calls[i], m))
  {
  }

  lemma StepRecovering(s: State, step: Step, m: User)
    requires Enabled(s, step)
    ensures CountRecovering(Apply(s, step).calls, m) + Bit(Happens(DeleteCalled, m, s, step)) ==
            CountRecovering(s.calls, m) + Bit(Happens(RecoveryBegins, m, s, step))
  {
    var t := Apply(s, step);
    match step
    case Begin(_, _) => assert t.calls[..|t.calls| - 1] == s.calls;
    case Act(i, a) =>
      ActMovesOneCall(s, i, a);
      ActRecovering(s, i, a, m);
      CountAfterUpdate(s.calls, i, t.calls[i], m);
    case _ =>
  }

  /** A refreshSession call deletes once: the calls begun are those that deleted and those still to. */
  lemma {:induction false} OneDeletePerRecovery(r: Run, k: nat, m: User)
    requires r.FromInit() && k <= |r.steps|
    ensures Count(DeleteCalled, m, r, k) + CountRecovering(r.states[k].calls, m) == Count(RecoveryBegins, m, r, k)
    ensures Count(Eviction, m, r, k) <= Count(DeleteCalled, m, r, k)
  {
    if k > 0 {
      OneDeletePerRecovery(r, k - 1, m);
      assert r.StepOk(k - 1);
      StepRecovering(r.states[k - 1], r.steps[k - 1], m);
    }
  }

  /** A user logs in at most once, plus once per refreshSession call and per lost StoreSession; not
      even that first time when GEI already held a session. */
  lemma LoginBound(r: Run, m: User)
    requires r.FromInit() && r.OneProcess() && ReadsAnswered(r)
    ensures Count(LoginSucceeds, m, r, |r.steps|) + Bit(m in r.states[0].l2) <=
            1 + Count(RecoveryBegins, m, r, |r.steps|) + Count(StoreLost, m, r, |r.steps|)
  {
    SessionConservation(r, |r.steps|, m);
    OneDeletePerRecovery(r, |r.steps|, m);
  }
}
