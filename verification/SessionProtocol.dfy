/** The session cache protocol as a state machine over many goroutines.

    Two caches hold a user's i-Ma'luum cookie: `l1` is the TokenManager's in-memory map with an
    expiry per entry, `l2` is the persistent GEI session store.  A singleflight table collapses the
    refreshes of one user.  Every atomic action of GetToken, sessionFunc and refreshSession is one
    step; the steps of different calls interleave in any order.

    A step is a label that carries every choice the environment makes (how an RPC ended, what a login
    returned, how far the clock moved), so that applying a label to a state is a function. */
module SessionProtocol {
  import opened Options

  type User = string

  /** How long L1 reuses a cookie, in nanoseconds. */
  const IMALUUM_SESSION_TTL: int := 30 * 60 * 1_000_000_000

  /** Where a cookie comes from: GEI held it before the process started, or a login that started
      at the given position of the run minted it. */
  datatype Origin = Preexisting | LoggedIn(start: nat)

  /** A MOD_AUTH_CAS cookie.  `owner` and `origin` are history: no step branches on them. */
  datatype Cookie = Cookie(text: string, owner: User, origin: Origin)

  datatype Entry = Entry(token: Cookie, expiry: int)

  /** What GetToken returns. */
  datatype Result = Ok(cookie: Cookie) | Failed

  /** Who makes the call: the authenticator (GetToken alone) or the stale recovery (refreshSession). */
  datatype Kind = Plain | Recovery

  /** The next action of one call.  Recheck to Finish are the actions of a flight's leader. */
  datatype Pc =
    | Evict                                              // Invalidate of refreshSession
    | Delete                                             // DeleteSession of refreshSession
    | Read                                               // first L1 check
    | Join                                               // entering the singleflight group
    | Wait(leader: nat)                                  // joined the flight of another call
    | Recheck                                            // L1 check inside the flight
    | Refresh                                            // start of the refresh closure
    | Get(expiry: int)                                   // GEI GetSession
    | Login(expiry: int, blind: bool)                    // about to log in; blind: GEI did not answer
    | Authenticating(expiry: int, blind: bool, start: nat)
    | Store(expiry: int, blind: bool, cookie: Cookie)    // GEI StoreSession
    | Write(expiry: int, cookie: Cookie)                 // write to L1
    | Finish(result: Result)                             // leaving the flight
    | Done(result: Result)

  datatype Call = Call(user: User, pc: Pc)

  /** `count` is the number of steps taken so far; `gei` is false when no GEI client is configured. */
  datatype State = State(
    now: int,
    count: nat,
    gei: bool,
    l1: map<User, Entry>,
    l2: map<User, Cookie>,
    flights: map<User, nat>,
    calls: seq<Call>)

  /** One atomic action of a call. */
  datatype Action =
    | Invalidate
    | DeleteL2(effective: bool)
    | ReadL1
    | Enter
    | RecheckL1
    | StartRefresh
    | GetL2(answered: bool)
    | StartLogin
    | EndLogin(text: Option<string>)
    | StoreL2(effective: bool)
    | WriteL1
    | Leave
    | Wake

  datatype Step =
    | Begin(user: User, kind: Kind)
    | Tick(to: int)
    | OtherProcess(user: User, session: Option<Cookie>)  // another instance writes or deletes in GEI
    | Act(i: nat, action: Action)

  predicate Leading(pc: Pc) {
    pc.Recheck? || pc.Refresh? || pc.Get? || pc.Login? || pc.Authenticating? || pc.Store? || pc.Write? || pc.Finish?
  }

  /** How many actions of its own a call has left at most. */
  function StepsLeft(pc: Pc): nat {
    match pc
    case Evict => 12
    case Delete => 11
    case Read => 10
    case Join => 9
    case Recheck => 8
    case Refresh => 7
    case Get(_) => 6
    case Login(_, _) => 5
    case Authenticating(_, _, _) => 4
    case Store(_, _, _) => 3
    case Write(_, _) => 2
    case Finish(_) => 1
    case Wait(_) => 1
    case Done(_) => 0
  }

  /** L1 holds an entry for `m` that has not expired. */
  predicate Live(s: State, m: User) {
    m in s.l1 && s.now < s.l1[m].expiry
  }

  /** Call `i` is at the point where it takes action `a`; `effective` and `answered` need a GEI client. */
  predicate CanDo(s: State, i: nat, a: Action)
    requires i < |s.calls|
  {
    var pc := s.calls[i].pc;
    match a
    case Invalidate => pc.Evict?
    case DeleteL2(effective) => pc.Delete? && (effective ==> s.gei)
    case ReadL1 => pc.Read?
    case Enter => pc.Join?
    case RecheckL1 => pc.Recheck?
    case StartRefresh => pc.Refresh?
    case GetL2(answered) => pc.Get? && (answered ==> s.gei)
    case StartLogin => pc.Login?
    case EndLogin(_) => pc.Authenticating?
    case StoreL2(effective) => pc.Store? && (effective ==> s.gei)
    case WriteL1 => pc.Write?
    case Leave => pc.Finish?
    case Wake => pc.Wait? && pc.leader < |s.calls| && s.calls[pc.leader].pc.Done?
  }

  predicate Enabled(s: State, step: Step) {
    match step
    case Begin(_, _) => true
    case Tick(to) => s.now <= to
    case OtherProcess(m, session) =>
      s.gei && (session.Some? ==> session.value.owner == m && session.value.origin.LoggedIn? &&
                                  session.value.origin.start < s.count)
    case Act(i, a) => i < |s.calls| && CanDo(s, i, a)
  }

  function MoveTo(s: State, i: nat, pc: Pc): State
    requires i < |s.calls|
  {
    s.(calls := s.calls[i := s.calls[i].(pc := pc)])
  }

  /** The effect of one action of call `i`. */
  function Perform(s: State, i: nat, a: Action): State
    requires i < |s.calls| && CanDo(s, i, a)
  {
    var m := s.calls[i].user;
    var pc := s.calls[i].pc;
    match a
    case Invalidate => MoveTo(s.(l1 := s.l1 - {m}), i, Delete)
    case DeleteL2(effective) =>
      MoveTo(if effective then s.(l2 := s.l2 - {m}) else s, i, Read)
    case ReadL1 => MoveTo(s, i, if Live(s, m) then Done(Ok(s.l1[m].token)) else Join)
    case Enter =>
      if m in s.flights then MoveTo(s, i, Wait(s.flights[m]))
      else MoveTo(s.(flights := s.flights[m := i]), i, Recheck)
    case RecheckL1 => MoveTo(s, i, if Live(s, m) then Finish(Ok(s.l1[m].token)) else Refresh)
    case StartRefresh => MoveTo(s, i, Get(s.now + IMALUUM_SESSION_TTL))
    case GetL2(answered) =>
      MoveTo(s, i, if answered && m in s.l2 then Write(pc.expiry, s.l2[m]) else Login(pc.expiry, !answered))
    case StartLogin => MoveTo(s, i, Authenticating(pc.expiry, pc.blind, s.count))
    case EndLogin(text) =>
      MoveTo(s, i, if text.Some?
                   then Store(pc.expiry, pc.blind, Cookie(text.value, m, LoggedIn(pc.start)))
                   else Finish(Failed))
    case StoreL2(effective) =>
      MoveTo(if effective then s.(l2 := s.l2[m := pc.cookie]) else s, i, Write(pc.expiry, pc.cookie))
    case WriteL1 => MoveTo(s.(l1 := s.l1[m := Entry(pc.cookie, pc.expiry)]), i, Finish(Ok(pc.cookie)))
    case Leave => MoveTo(s.(flights := s.flights - {m}), i, Done(pc.result))
    case Wake => MoveTo(s, i, s.calls[pc.leader].pc)
  }

  /** The effect of a step, apart from the step counter. */
  function Effect(s: State, step: Step): State
    requires Enabled(s, step)
  {
    match step
    case Begin(m, kind) => s.(calls := s.calls + [Call(m, if kind.Recovery? then Evict else Read)])
    case Tick(to) => s.(now := to)
    case OtherProcess(m, session) =>
      s.(l2 := if session.Some? then s.l2[m := session.value] else s.l2 - {m})
    case Act(i, a) => Perform(s, i, a)
  }

  function Apply(s: State, step: Step): State
    requires Enabled(s, step)
  {
    Effect(s, step).(count := s.count + 1)
  }

  /** An action moves the acting call and no other. */
  lemma ActMovesOneCall(s: State, i: nat, a: Action)
    requires Enabled(s, Act(i, a))
    ensures var t := Apply(s, Act(i, a));
            |t.calls| == |s.calls| && t.calls == s.calls[i := Call(s.calls[i].user, t.calls[i].pc)]
  {
  }

  /** The actions that change one of the two caches. */
  predicate ChangesCaches(a: Action) {
    a.Invalidate? || a.DeleteL2? || a.StoreL2? || a.WriteL1?
  }

  lemma OthersKeepCaches(s: State, i: nat, a: Action)
    requires Enabled(s, Act(i, a)) && !ChangesCaches(a)
    ensures Apply(s, Act(i, a)).l1 == s.l1 && Apply(s, Act(i, a)).l2 == s.l2
  {
  }

  /** A process that has just started: no call, no flight, an empty L1, any GEI content. */
  ghost predicate Init(s: State) {
    s.l1 == map[] && s.flights == map[] && s.calls == [] && s.count == 0 &&
    (!s.gei ==> s.l2 == map[]) &&
    forall m :: m in s.l2 ==> s.l2[m].owner == m && s.l2[m].origin.Preexisting?
  }

  /** `states[k]` is the state before `steps[k]`. */
  datatype Run = Run(states: seq<State>, steps: seq<Step>) {
    predicate Shaped() {
      |states| == |steps| + 1
    }

    ghost predicate StepOk(k: nat)
      requires Shaped() && k < |steps|
    {
      Enabled(states[k], steps[k]) && states[k + 1] == Apply(states[k], steps[k])
    }

    ghost predicate IsRun() {
      Shaped() && forall k: nat :: k < |steps| ==> StepOk(k)
    }

    function Last(): State
      requires Shaped()
    {
      states[|steps|]
    }

    ghost predicate FromInit() {
      IsRun() && Init(states[0])
    }

    /** No other instance touches GEI. */
    ghost predicate OneProcess() {
      forall k :: 0 <= k < |steps| ==> !steps[k].OtherProcess?
    }
  }

  /** The run that takes no step. */
  function Still(s: State): Run {
    Run([s], [])
  }

  /** `r` with one more step in front. */
  function Prepend(s: State, step: Step, r: Run): Run {
    Run([s] + r.states, [step] + r.steps)
  }

  lemma PrependIsRun(s: State, step: Step, r: Run)
    requires r.IsRun() && r.OneProcess() && Enabled(s, step) && !step.OtherProcess?
    requires r.states[0] == Apply(s, step)
    ensures var q := Prepend(s, step, r); q.IsRun() && q.OneProcess() && q.states[0] == s && q.Last() == r.Last()
  {
    var q := Prepend(s, step, r);
    forall k: nat | k < |q.steps|
      ensures q.StepOk(k)
    {
      if k > 0 {
        assert r.StepOk(k - 1);
      }
    }
  }

  /** `r` with one more step at the end. */
  function Extend(r: Run, step: Step): Run
    requires r.Shaped() && Enabled(r.Last(), step)
  {
    Run(r.states + [Apply(r.Last(), step)], r.steps + [step])
  }

  lemma ExtendIsRun(r: Run, step: Step)
    requires r.FromInit() && Enabled(r.Last(), step)
    ensures var q := Extend(r, step);
            q.FromInit() && q.Last() == Apply(r.Last(), step) && r.steps <= q.steps && r.states <= q.states
    ensures r.OneProcess() && !step.OtherProcess? ==> Extend(r, step).OneProcess()
  {
    var q := Extend(r, step);
    forall k: nat | k < |q.steps|
      ensures q.StepOk(k)
    {
      if k < |r.steps| {
        assert r.StepOk(k);
      }
    }
  }
}
