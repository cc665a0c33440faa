/** How old a cached cookie can be, and why every call comes back. */
module SessionTiming {
  import opened Options
  import opened SessionProtocol
  import opened SessionInvariants

  /* ---------- Age of L1 hits ---------- */

  predicate HasExpiry(pc: Pc) {
    pc.Get? || pc.Login? || pc.Authenticating? || pc.Store? || pc.Write?
  }

  /** A refresh of `m` began at step `p`; its call wrote entry `e` at step `q`. */
  ghost predicate WrittenBy(r: Run, p: nat, q: nat, m: User, e: Entry)
    requires r.Shaped()
  {
    p < q < |r.steps| &&
    r.steps[p].Act? && r.steps[p].action == StartRefresh &&
    r.steps[q] == Act(r.steps[p].i, WriteL1) &&
    r.steps[p].i < |r.states[q].calls| &&
    r.states[q].calls[r.steps[p].i] == Call(m, Write(e.expiry, e.token)) &&
    e.expiry == r.states[p].now + IMALUUM_SESSION_TTL
  }

  /** The expiry a call carries was computed when its refresh began. */
  lemma {:induction false} RefreshBegan(r: Run, k: nat, i: nat) returns (p: nat)
    requires r.FromInit() && k <= |r.steps| && i < |r.states[k].calls| && HasExpiry(r.states[k].calls[i].pc)
    ensures p < k && r.steps[p] == Act(i, StartRefresh)
    ensures r.states[k].calls[i].pc.expiry == r.states[p].now + IMALUUM_SESSION_TTL
  {
    assert r.StepOk(k - 1);
    var s, step := r.states[k - 1], r.steps[k - 1];
    if step == Act(i, StartRefresh) {
      p := k - 1;
    } else {
      if step.Act? {
        ActMovesOneCall(s, step.i, step.action);
      }
      p := RefreshBegan(r, k - 1, i);
    }
  }

  /** Every L1 entry goes back to the refresh that wrote it. */
  lemma {:induction false} EntryHistory(r: Run, k: nat, m: User) returns (p: nat, q: nat)
    requires r.FromInit() && k <= |r.steps| && m in r.states[k].l1
    ensures q < k && WrittenBy(r, p, q, m, r.states[k].l1[m])
  {
    assert r.StepOk(k - 1);
    var s, step := r.states[k - 1], r.steps[k - 1];
    if step.Act? && step.action.WriteL1? && s.calls[step.i].user == m {
      q := k - 1;
      p := RefreshBegan(r, k - 1, step.i);
    } else {
      assert m in s.l1 && s.l1[m] == r.states[k].l1[m];
      p, q := EntryHistory(r, k - 1, m);
    }
  }

  lemma {:induction false} ClockIsMonotone(r: Run, j: nat, k: nat)
    requires r.IsRun() && j <= k <= |r.steps|
    ensures r.states[j].now <= r.states[k].now
  {
    if j < k {
      ClockIsMonotone(r, j, k - 1);
      assert r.StepOk(k - 1);
    }
  }

  /** A cookie served from L1, by the first check or by the check inside the flight, was written by a
      refresh of the same user that began less than the TTL ago. */
  lemma HitAge(r: Run, k: nat, i: nat) returns (p: nat, q: nat)
    requires r.FromInit() && k < |r.steps| && (r.steps[k] == Act(i, ReadL1) || r.steps[k] == Act(i, RecheckL1))
    requires r.StepOk(k) && Live(r.states[k], r.states[k].calls[i].user)
    ensures var m := r.states[k].calls[i].user;
            && q < k && WrittenBy(r, p, q, m, r.states[k].l1[m])
            && Carried(r.states[k + 1].calls[i].pc) == Some(r.states[k].l1[m].token)
            && 0 <= r.states[k].now - r.states[p].now < IMALUUM_SESSION_TTL
  {
    p, q := EntryHistory(r, k, r.states[k].calls[i].user);
    ClockIsMonotone(r, p, k);
  }

  /* ---------- Progress ---------- */

  function TotalLeft(calls: seq<Call>): nat {
    if calls == [] then 0 else TotalLeft(calls[..|calls| - 1]) + StepsLeft(calls[|calls| - 1].pc)
  }

  lemma {:induction false} TotalAfterUpdate(calls: seq<Call>, i: nat, c: Call)
    requires i < |calls|
    ensures TotalLeft(calls[i := c]) + StepsLeft(calls[i].pc) == TotalLeft(calls) + StepsLeft(c.pc)
  {
    var n := |calls| - 1;
    if i == n {
      assert calls[i := c][..n] == calls[..n];
    } else {
      assert calls[i := c][..n] == calls[..n][i := c];
      TotalAfterUpdate(calls[..n], i, c);
    }
  }

  lemma ActMakesProgress(s: State, i: nat, a: Action)
    requires Enabled(s, Act(i, a))
    ensures StepsLeft(Apply(s, Act(i, a)).calls[i].pc) < StepsLeft(s.calls[i].pc)
  {
  }

  function CountActs(r: Run, k: nat): nat
    requires k <= |r.steps|
  {
    if k == 0 then 0 else CountActs(r, k - 1) + if r.steps[k - 1].Act? then 1 else 0
  }

  function CountBegins(r: Run, k: nat): nat
    requires k <= |r.steps|
  {
    if k == 0 then 0 else CountBegins(r, k - 1) + if r.steps[k - 1].Begin? then 1 else 0
  }

  /** Every action uses up some of what the calls have left: a finite set of calls takes finitely many
      actions, however the clock and other processes interleave. */
  lemma {:induction false} ActionsAreBounded(r: Run, k: nat)
    requires r.IsRun() && k <= |r.steps|
    ensures CountActs(r, k) + TotalLeft(r.states[k].calls) <=
            TotalLeft(r.states[0].calls) + StepsLeft(Evict) * CountBegins(r, k)
  {
    if k > 0 {
      ActionsAreBounded(r, k - 1);
      assert r.StepOk(k - 1);
      var s, t := r.states[k - 1], r.states[k];
      match r.steps[k - 1]
      case Begin(_, _) => assert t.calls[..|t.calls| - 1] == s.calls;
      case Act(i, a) =>
        ActMovesOneCall(s, i, a);
        ActMakesProgress(s, i, a);
        TotalAfterUpdate(s.calls, i, t.calls[i]);
      case _ =>
    }
  }

  /** The action a call takes next when every external call fails; any call that does not wait has one. */
  function NextAction(pc: Pc): Action {
    match pc
    case Evict => Invalidate
    case Delete => DeleteL2(false)
    case Read => ReadL1
    case Join => Enter
    case Wait(_) => Wake
    case Recheck => RecheckL1
    case Refresh => StartRefresh
    case Get(_) => GetL2(false)
    case Login(_, _) => StartLogin
    case Authenticating(_, _, _) => EndLogin(None)
    case Store(_, _, _) => StoreL2(false)
    case Write(_, _) => WriteL1
    case Finish(_) => Leave
    case Done(_) => Leave
  }

  /** No deadlock: while a call has not returned, some call can act; a waiter never waits for a waiter.
      With ActionsAreBounded, every finite set of calls returns. */
  lemma SomeCallCanAct(r: Run, k: nat, i: nat) returns (j: nat)
    requires r.FromInit() && k <= |r.steps| && i < |r.states[k].calls| && !r.states[k].calls[i].pc.Done?
    ensures j < |r.states[k].calls| && Enabled(r.states[k], Act(j, NextAction(r.states[k].calls[j].pc)))
  {
    InvHolds(r, k);
    var s := r.states[k];
    assert CallOk(r.states[0].l2, s, i);
    j := if s.calls[i].pc.Wait? && !s.calls[s.calls[i].pc.leader].pc.Done? then s.calls[i].pc.leader else i;
  }

  predicate AllDone(s: State) {
    forall i :: 0 <= i < |s.calls| ==> s.calls[i].pc.Done?
  }

  /** No step from position `n` on begins a call. */
  predicate NoneBegins(r: Run, n: nat) {
    forall k :: n <= k < |r.steps| ==> !r.steps[k].Begin?
  }

  /** Every run can go on, without new calls and without help from the outside, until all calls have
      returned. */
  lemma {:induction false} AllCallsReturn(r: Run) returns (q: Run)
    requires r.FromInit()
    ensures q.FromInit() && r.steps <= q.steps && r.states <= q.states && NoneBegins(q, |r.steps|) && AllDone(q.Last())
    decreases TotalLeft(r.Last().calls)
  {
    if AllDone(r.Last()) {
      return r;
    }
    var s := r.Last();
    var i: nat :| i < |s.calls| && !s.calls[i].pc.Done?;
    var j := SomeCallCanAct(r, |r.steps|, i);
    var a := NextAction(s.calls[j].pc);
    ExtendIsRun(r, Act(j, a));
    ActMovesOneCall(s, j, a);
    ActMakesProgress(s, j, a);
    TotalAfterUpdate(s.calls, j, Apply(s, Act(j, a)).calls[j]);
    q := AllCallsReturn(Extend(r, Act(j, a)));
  }

  /** And a run that cannot take any action of a call has finished them all. */
  lemma QuiescentMeansDone(r: Run)
    requires r.FromInit() && forall j: nat, a: Action :: !Enabled(r.Last(), Act(j, a))
    ensures AllDone(r.Last())
  {
    forall i | 0 <= i < |r.Last().calls|
      ensures r.Last().calls[i].pc.Done?
    {
      if !r.Last().calls[i].pc.Done? {
        var j := SomeCallCanAct(r, |r.steps|, i);
      }
    }
  }
}
