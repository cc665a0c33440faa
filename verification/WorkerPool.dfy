/** The schedule worker pool: five workers take jobs from one channel and send results to another,
    sharing a sticky `stale` flag.  The steps of the producer, the workers and the collector
    interleave in any order. */
module WorkerPool {
  import opened Options
  import opened Counting
  import opened Retry
  import opened Sessions

  const MAX_WORKERS: nat := 5

  /** How fetching one session ends: page load, page token, data request. */
  datatype Fetch<D> =
    | Payload(data: D)
    | Null                      // the payload's data field is null: no records
    | Bounce                    // the page is the login page
    | PageFails(error: Error)
    | NoToken
    | DataFails(error: Error)
    | Panics                    // the job panics before it sends

  datatype Job = Job(query: string, name: string)

  /** The jobs, how each of them ends when it is fetched, and how a payload is mapped. */
  datatype Config<!D, T> = Config(jobs: seq<Job>, fetch: seq<Fetch<D>>, view: D -> seq<T>) {
    predicate Valid() {
      |fetch| == |jobs|
    }
  }

  /** History of a response: mapped from what i-Ma'luum answered, or made up after a bounce. */
  datatype Source = FromUpstream | AfterBounce

  datatype Body<T> = Failed(error: Error) | Scraped(response: Response<T>, source: Source)

  datatype Result<T> = Result(job: nat, body: Body<T>)

  datatype Worker<T> =
    | Idle
    | Loading(job: nat)
    | Checking(job: nat)
    | Fetching(job: nat)
    | Sending(result: Result<T>)
    | Exited

  /** `queue` and `buffer` are the two channels, of capacity |jobs|. */
  datatype Pool<T> = Pool(
    sent: nat,
    closed: bool,
    queue: seq<nat>,
    workers: seq<Worker<T>>,
    buffer: seq<Result<T>>,
    collected: seq<Result<T>>,
    lost: seq<nat>,
    stale: bool)

  datatype Step = SendJob | CloseJobs | Collect | Work(w: nat, kind: WorkKind)

  datatype WorkKind = Take | Load | Check | FetchData | Send | Exit

  function Start<T>(stale: bool): Pool<T> {
    Pool(0, false, [], seq(MAX_WORKERS, i => Idle), [], [], [], stale)
  }

  predicate Enabled<D, T>(c: Config<D, T>, p: Pool<T>, step: Step) {
    match step
    case SendJob => p.sent < |c.jobs| && |p.queue| < |c.jobs|
    case CloseJobs => p.sent == |c.jobs| && !p.closed
    case Collect => p.buffer != [] && |p.collected| < |c.jobs|
    case Work(w, kind) => w < |p.workers| && CanWork(c, p, p.workers[w], kind)
  }

  predicate CanWork<D, T>(c: Config<D, T>, p: Pool<T>, worker: Worker<T>, kind: WorkKind) {
    match kind
    case Take => worker.Idle? && p.queue != []
    case Load => worker.Loading? && worker.job < |c.fetch|
    case Check => worker.Checking? && worker.job < |c.fetch|
    case FetchData => worker.Fetching? && worker.job < |c.fetch|
    case Send => worker.Sending? && |p.buffer| < |c.jobs|
    case Exit => worker.Idle? && p.queue == [] && p.closed
  }

  /** The response a worker emits for job `j`. */
  function ResponseOf<D, T>(c: Config<D, T>, j: nat, schedule: seq<T>): Response<T>
    requires j < |c.jobs|
  {
    Response(c.jobs[j].name, c.jobs[j].query, schedule)
  }

  /** What the worker does after the page load. */
  function AfterLoad<D, T>(c: Config<D, T>, j: nat): Worker<T>
    requires c.Valid() && j < |c.jobs|
  {
    match c.fetch[j]
    case PageFails(e) => Sending(Result(j, Failed(e)))
    case Panics => Idle
    case _ => Checking(j)
  }

  /** What the worker does after looking at the flag and the page token. */
  function AfterCheck<D, T>(c: Config<D, T>, j: nat, stale: bool): Worker<T>
    requires c.Valid() && j < |c.jobs|
  {
    if stale then Sending(Result(j, Scraped(ResponseOf(c, j, []), AfterBounce)))
    else if c.fetch[j].NoToken? then Sending(Result(j, Failed(ScheduleIsEmpty)))
    else Fetching(j)
  }

  /** What the worker does after the data request. */
  function AfterFetch<D, T>(c: Config<D, T>, j: nat): Worker<T>
    requires c.Valid() && j < |c.jobs|
  {
    match c.fetch[j]
    case Payload(d) => Sending(Result(j, Scraped(ResponseOf(c, j, c.view(d)), FromUpstream)))
    case DataFails(e) => Sending(Result(j, Failed(e)))
    case _ => Sending(Result(j, Scraped(ResponseOf(c, j, []), FromUpstream)))
  }

  function Put<T>(p: Pool<T>, w: nat, worker: Worker<T>): Pool<T>
    requires w < |p.workers|
  {
    p.(workers := p.workers[w := worker])
  }

  function DoWork<D, T>(c: Config<D, T>, p: Pool<T>, w: nat, kind: WorkKind): Pool<T>
    requires c.Valid() && w < |p.workers| && CanWork(c, p, p.workers[w], kind)
  {
    var worker := p.workers[w];
    match kind
    case Take => Put(p.(queue := p.queue[1..]), w, Loading(p.queue[0]))
    case Load => Put(AtLoad(c, p, worker.job), w, AfterLoad(c, worker.job))
    case Check => Put(p, w, AfterCheck(c, worker.job, p.stale))
    case FetchData => Put(p, w, AfterFetch(c, worker.job))
    case Send => Put(p.(buffer := p.buffer + [worker.result]), w, Idle)
    case Exit => Put(p, w, Exited)
  }

  /** What a page load does to the shared state: a bounce sets the flag, a panic loses the job. */
  function AtLoad<D, T>(c: Config<D, T>, p: Pool<T>, j: nat): Pool<T>
    requires c.Valid() && j < |c.jobs|
  {
    match c.fetch[j]
    case Bounce => p.(stale := true)
    case Panics => p.(lost := p.lost + [j])
    case _ => p
  }

  function Apply<D, T>(c: Config<D, T>, p: Pool<T>, step: Step): Pool<T>
    requires c.Valid() && Enabled(c, p, step)
  {
    match step
    case SendJob => p.(queue := p.queue + [p.sent], sent := p.sent + 1)
    case CloseJobs => p.(closed := true)
    case Collect => p.(collected := p.collected + [p.buffer[0]], buffer := p.buffer[1..])
    case Work(w, kind) => DoWork(c, p, w, kind)
  }

  /* ---------- Every job is somewhere, once ---------- */

  /** How often `j` occurs in `s`. */
  function Times(s: seq<nat>, j: nat): nat {
    if s == [] then 0 else Times(s[..|s| - 1], j) + Bit(s[|s| - 1] == j)
  }

  function JobsOf<T>(results: seq<Result<T>>): seq<nat> {
    seq(|results|, i requires 0 <= i < |results| => results[i].job)
  }

  predicate Busy<T>(worker: Worker<T>) {
    worker.Loading? || worker.Checking? || worker.Fetching? || worker.Sending?
  }

  predicate Holds<T>(worker: Worker<T>, j: nat) {
    match worker
    case Loading(k) => k == j
    case Checking(k) => k == j
    case Fetching(k) => k == j
    case Sending(r) => r.job == j
    case _ => false
  }

  function CountHolding<T>(workers: seq<Worker<T>>, j: nat): nat {
    if workers == [] then 0 else CountHolding(workers[..|workers| - 1], j) + Bit(Holds(workers[|workers| - 1], j))
  }

  function CountBusy<T>(workers: seq<Worker<T>>): nat {
    if workers == [] then 0 else CountBusy(workers[..|workers| - 1]) + Bit(Busy(workers[|workers| - 1]))
  }

  /** How often job `j` is queued, in process, buffered, collected or lost. */
  function Places<T>(p: Pool<T>, j: nat): nat {
    Times(p.queue, j) + CountHolding(p.workers, j) + Times(JobsOf(p.buffer), j) + Times(JobsOf(p.collected), j) +
    Times(p.lost, j)
  }

  function Total<T>(p: Pool<T>): nat {
    |p.queue| + CountBusy(p.workers) + |p.buffer| + |p.collected| + |p.lost|
  }

  lemma {:induction false} WorkersAfter<T>(workers: seq<Worker<T>>, w: nat, worker: Worker<T>, j: nat)
    requires w < |workers|
    ensures CountHolding(workers[w := worker], j) + Bit(Holds(workers[w], j)) ==
            CountHolding(workers, j) + Bit(Holds(worker, j))
    ensures CountBusy(workers[w := worker]) + Bit(Busy(workers[w])) == CountBusy(workers) + Bit(Busy(worker))
  {
    var n := |workers| - 1;
    if w == n {
      assert workers[w := worker][..n] == workers[..n];
    } else {
      assert workers[w := worker][..n] == workers[..n][w := worker];
      WorkersAfter(workers[..n], w, worker, j);
    }
  }

  lemma {:induction false} TimesDropFirst(s: seq<nat>, j: nat)
    requires s != []
    ensures Times(s, j) == Times(s[1..], j) + Bit(s[0] == j)
  {
    var n := |s| - 1;
    if n > 0 {
      TimesDropFirst(s[..n], j);
      assert s[1..][..n - 1] == s[..n][1..];
    }
  }

  lemma TimesAppend(s: seq<nat>, k: nat, j: nat)
    ensures Times(s + [k], j) == Times(s, j) + Bit(k == j)
  {
    assert (s + [k])[..|s|] == s;
  }

  lemma AppendResult<T>(results: seq<Result<T>>, r: Result<T>, j: nat)
    ensures Times(JobsOf(results + [r]), j) == Times(JobsOf(results), j) + Bit(r.job == j)
  {
    assert JobsOf(results + [r]) == JobsOf(results) + [r.job];
    TimesAppend(JobsOf(results), r.job, j);
  }

  lemma DropResult<T>(results: seq<Result<T>>, j: nat)
    requires results != []
    ensures Times(JobsOf(results), j) == Times(JobsOf(results[1..]), j) + Bit(results[0].job == j)
  {
    assert JobsOf(results)[1..] == JobsOf(results[1..]);
    TimesDropFirst(JobsOf(results), j);
  }

  lemma LoadMovesJob<D, T>(c: Config<D, T>, p: Pool<T>, k: nat, j: nat)
    requires c.Valid() && k < |c.jobs|
    ensures var q := AtLoad(c, p, k);
            && q == p.(lost := q.lost, stale := q.stale)
            && Times(q.lost, j) + Bit(Holds(AfterLoad(c, k), j)) == Times(p.lost, j) + Bit(k == j)
            && |q.lost| + Bit(Busy(AfterLoad(c, k))) == |p.lost| + 1
  {
    TimesAppend(p.lost, k, j);
  }

  lemma LoadKeepsAccount<D, T>(c: Config<D, T>, p: Pool<T>, w: nat, j: nat)
    requires c.Valid() && w < |p.workers| && CanWork(c, p, p.workers[w], Load)
    ensures var q := DoWork(c, p, w, Load); Places(q, j) == Places(p, j) && Total(q) == Total(p)
  {
    var k := p.workers[w].job;
    LoadMovesJob(c, p, k, j);
    WorkersAfter(p.workers, w, AfterLoad(c, k), j);
  }

  lemma SendKeepsAccount<D, T>(c: Config<D, T>, p: Pool<T>, w: nat, j: nat)
    requires c.Valid() && w < |p.workers| && CanWork(c, p, p.workers[w], Send)
    ensures var q := DoWork(c, p, w, Send); Places(q, j) == Places(p, j) && Total(q) == Total(p)
  {
    WorkersAfter(p.workers, w, Idle, j);
    AppendResult(p.buffer, p.workers[w].result, j);
  }

  lemma TakeKeepsAccount<D, T>(c: Config<D, T>, p: Pool<T>, w: nat, j: nat)
    requires c.Valid() && w < |p.workers| && CanWork(c, p, p.workers[w], Take)
    ensures var q := DoWork(c, p, w, Take); Places(q, j) == Places(p, j) && Total(q) == Total(p)
  {
    WorkersAfter(p.workers, w, Loading(p.queue[0]), j);
    TimesDropFirst(p.queue, j);
  }

  lemma WorkKeepsAccount<D, T>(c: Config<D, T>, p: Pool<T>, w: nat, kind: WorkKind, j: nat)
    requires c.Valid() && w < |p.workers| && CanWork(c, p, p.workers[w], kind)
    ensures var q := DoWork(c, p, w, kind); Places(q, j) == Places(p, j) && Total(q) == Total(p)
  {
    match kind
    case Take => TakeKeepsAccount(c, p, w, j);
    case Load => LoadKeepsAccount(c, p, w, j);
    case Send => SendKeepsAccount(c, p, w, j);
    case _ => WorkersAfter(p.workers, w, DoWork(c, p, w, kind).workers[w], j);
  }

  lemma StepKeepsAccount<D, T>(c: Config<D, T>, p: Pool<T>, step: Step, j: nat)
    requires c.Valid() && Enabled(c, p, step)
    ensures var q := Apply(c, p, step);
            && Places(q, j) == Places(p, j) + Bit(step.SendJob? && p.sent == j)
            && Total(q) == Total(p) + Bit(step.SendJob?)
  {
    match step
    case SendJob => TimesAppend(p.queue, p.sent, j);
    case Collect =>
      DropResult(p.buffer, j);
      AppendResult(p.collected, p.buffer[0], j);
    case Work(w, kind) => WorkKeepsAccount(c, p, w, kind, j);
    case CloseJobs =>
  }

  /* ---------- What the results are ---------- */

  /** The error a job ends with when nothing else interferes. */
  function JobError<D>(f: Fetch<D>): Option<Error> {
    match f
    case PageFails(e) => Some(e)
    case NoToken => Some(ScheduleIsEmpty)
    case DataFails(e) => Some(e)
    case _ => None
  }

  /** What i-Ma'luum really answered for a session: a payload, or null. */
  function Answer<D, T>(f: Fetch<D>, view: D -> seq<T>): Option<seq<T>> {
    match f
    case Payload(d) => Some(view(d))
    case Null => Some([])
    case _ => None
  }

  predicate ResultOk<D, T(==)>(c: Config<D, T>, stale: bool, r: Result<T>)
    requires c.Valid()
  {
    r.job < |c.jobs| &&
    var f := c.fetch[r.job];
    !f.Panics? && (f.Bounce? ==> stale) &&
    match r.body
    case Failed(e) => JobError(f) == Some(e)
    case Scraped(response, FromUpstream) =>
      var a := Answer(f, c.view);
      a.Some? && response == ResponseOf(c, r.job, a.value)
    case Scraped(response, AfterBounce) => stale && response == ResponseOf(c, r.job, [])
  }

  predicate WorkerOk<D, T(==)>(c: Config<D, T>, stale: bool, worker: Worker<T>)
    requires c.Valid()
  {
    match worker
    case Loading(j) => j < |c.jobs|
    case Checking(j) => j < |c.jobs| && !c.fetch[j].PageFails? && !c.fetch[j].Panics? && (c.fetch[j].Bounce? ==> stale)
    case Fetching(j) => j < |c.jobs| && (c.fetch[j].Payload? || c.fetch[j].Null? || c.fetch[j].DataFails?)
    case Sending(r) => ResultOk(c, stale, r)
    case _ => true
  }

  predicate SomeBounce<D, T>(c: Config<D, T>) {
    exists j :: 0 <= j < |c.fetch| && c.fetch[j].Bounce?
  }

  ghost predicate Safe<D, T>(c: Config<D, T>, p: Pool<T>)
    requires c.Valid()
  {
    (forall k :: 0 <= k < |p.queue| ==> p.queue[k] < |c.jobs|) &&
    (forall w :: 0 <= w < |p.workers| ==> WorkerOk(c, p.stale, p.workers[w])) &&
    (forall k :: 0 <= k < |p.buffer| ==> ResultOk(c, p.stale, p.buffer[k])) &&
    (forall k :: 0 <= k < |p.collected| ==> ResultOk(c, p.stale, p.collected[k])) &&
    (forall k :: 0 <= k < |p.lost| ==> p.lost[k] < |c.jobs| && c.fetch[p.lost[k]].Panics?) &&
    (p.stale ==> SomeBounce(c))
  }

  /** Setting the flag never invalidates a result: it is monotone. */
  lemma FlagIsSticky<D, T>(c: Config<D, T>, s: bool, t: bool, worker: Worker<T>, r: Result<T>)
    requires c.Valid() && (s ==> t)
    ensures WorkerOk(c, s, worker) ==> WorkerOk(c, t, worker)
    ensures ResultOk(c, s, r) ==> ResultOk(c, t, r)
  {
  }

  lemma WorkerStaysOk<D, T>(c: Config<D, T>, p: Pool<T>, w: nat, kind: WorkKind)
    requires c.Valid() && w < |p.workers| && CanWork(c, p, p.workers[w], kind)
    requires WorkerOk(c, p.stale, p.workers[w]) && (p.queue != [] ==> p.queue[0] < |c.jobs|)
    ensures var q := DoWork(c, p, w, kind);
            && WorkerOk(c, q.stale, q.workers[w]) && (p.stale ==> q.stale)
            && (q.stale ==> p.stale || SomeBounce(c))
            && q.collected == p.collected
            && (forall k :: |p.lost| <= k < |q.lost| ==> q.lost[k] < |c.jobs| && c.fetch[q.lost[k]].Panics?)
            && p.lost <= q.lost
            && q.workers == p.workers[w := q.workers[w]]
  {
  }

  lemma WorkKeepsSafe<D, T>(c: Config<D, T>, p: Pool<T>, w: nat, kind: WorkKind)
    requires c.Valid() && Safe(c, p) && w < |p.workers| && CanWork(c, p, p.workers[w], kind)
    ensures Safe(c, DoWork(c, p, w, kind))
  {
    var q := DoWork(c, p, w, kind);
    WorkerStaysOk(c, p, w, kind);
    forall v | 0 <= v < |q.workers|
      ensures WorkerOk(c, q.stale, q.workers[v])
    {
      if v != w {
        FlagIsSticky(c, p.stale, q.stale, p.workers[v], Result(0, Failed(StaleSession)));
      }
    }
    forall k | 0 <= k < |q.buffer|
      ensures ResultOk(c, q.stale, q.buffer[k])
    {
      var r := if k < |p.buffer| then p.buffer[k] else p.workers[w].result;
      assert q.buffer[k] == r;
      FlagIsSticky(c, p.stale, q.stale, Idle, r);
    }
    forall k | 0 <= k < |q.collected|
      ensures ResultOk(c, q.stale, q.collected[k])
    {
      FlagIsSticky(c, p.stale, q.stale, Idle, p.collected[k]);
    }
  }

  lemma StepKeepsSafe<D, T>(c: Config<D, T>, p: Pool<T>, step: Step)
    requires c.Valid() && Safe(c, p) && Enabled(c, p, step) && (step.SendJob? ==> p.sent < |c.jobs|)
    ensures Safe(c, Apply(c, p, step))
  {
    if step.Work? {
      WorkKeepsSafe(c, p, step.w, step.kind);
    }
  }

  /* ---------- The invariant ---------- */

  /** The channels are closed and drained in order: a worker leaves only when no job can come. */
  predicate Shaped<D, T>(c: Config<D, T>, p: Pool<T>) {
    |p.workers| == MAX_WORKERS && p.sent <= |c.jobs| && (p.closed ==> p.sent == |c.jobs|) &&
    (forall w :: 0 <= w < |p.workers| && p.workers[w].Exited? ==> p.closed && p.queue == [])
  }

  /** Conservation: every job sent is in exactly one place. */
  ghost predicate Conserved<T>(p: Pool<T>) {
    Total(p) == p.sent && forall j: nat :: Places(p, j) == Bit(j < p.sent)
  }

  ghost predicate Inv<D, T>(c: Config<D, T>, p: Pool<T>) {
    c.Valid() && Safe(c, p) && Shaped(c, p) && Conserved(p)
  }

  lemma StepKeepsConserved<D, T>(c: Config<D, T>, p: Pool<T>, step: Step)
    requires c.Valid() && Conserved(p) && Enabled(c, p, step)
    ensures Conserved(Apply(c, p, step))
  {
    forall j: nat
      ensures Places(Apply(c, p, step), j) == Bit(j < Apply(c, p, step).sent)
    {
      StepKeepsAccount(c, p, step, j);
    }
    StepKeepsAccount(c, p, step, 0);
  }

  lemma StepKeepsShape<D, T>(c: Config<D, T>, p: Pool<T>, step: Step)
    requires c.Valid() && Shaped(c, p) && Enabled(c, p, step)
    ensures Shaped(c, Apply(c, p, step))
  {
  }

  lemma StepKeepsInv<D, T>(c: Config<D, T>, p: Pool<T>, step: Step)
    requires Inv(c, p) && Enabled(c, p, step)
    ensures Inv(c, Apply(c, p, step))
  {
    StepKeepsSafe(c, p, step);
    StepKeepsShape(c, p, step);
    StepKeepsConserved(c, p, step);
  }

  /* ---------- Progress ---------- */

  function Weight<T>(worker: Worker<T>): nat {
    match worker
    case Loading(_) => 6
    case Checking(_) => 5
    case Fetching(_) => 4
    case Sending(_) => 3
    case Idle => 1
    case Exited => 0
  }

  function TotalWeight<T>(workers: seq<Worker<T>>): nat {
    if workers == [] then 0 else TotalWeight(workers[..|workers| - 1]) + Weight(workers[|workers| - 1])
  }

  lemma {:induction false} WeightAfter<T>(workers: seq<Worker<T>>, w: nat, worker: Worker<T>)
    requires w < |workers|
    ensures TotalWeight(workers[w := worker]) + Weight(workers[w]) == TotalWeight(workers) + Weight(worker)
  {
    var n := |workers| - 1;
    if w == n {
      assert workers[w := worker][..n] == workers[..n];
    } else {
      assert workers[w := worker][..n] == workers[..n][w := worker];
      WeightAfter(workers[..n], w, worker);
    }
  }

  /** A bound on the steps the pool can still take. */
  function StepsLeft<D, T>(c: Config<D, T>, p: Pool<T>): int {
    7 * (|c.jobs| - p.sent) + 6 * |p.queue| + TotalWeight(p.workers) + |p.buffer| + Bit(!p.closed)
  }

  lemma StepMakesProgress<D, T>(c: Config<D, T>, p: Pool<T>, step: Step)
    requires c.Valid() && Shaped(c, p) && Enabled(c, p, step)
    ensures 0 <= StepsLeft(c, Apply(c, p, step)) < StepsLeft(c, p)
  {
    if step.Work? {
      var q := DoWork(c, p, step.w, step.kind);
      WeightAfter(p.workers, step.w, q.workers[step.w]);
      assert q.workers == p.workers[step.w := q.workers[step.w]];
    }
  }

  lemma {:induction false} BusyIsCounted<T>(workers: seq<Worker<T>>, w: nat)
    requires w < |workers| && Busy(workers[w])
    ensures CountBusy(workers) > 0
  {
    if w < |workers| - 1 {
      BusyIsCounted(workers[..|workers| - 1], w);
    }
  }

  lemma {:induction false} NoneBusy<T>(workers: seq<Worker<T>>)
    requires forall w :: 0 <= w < |workers| ==> !Busy(workers[w])
    ensures CountBusy(workers) == 0
  {
    if workers != [] {
      NoneBusy(workers[..|workers| - 1]);
    }
  }

  /** The results channel always has room for the result of a worker. */
  lemma SendNeverBlocks<D, T>(c: Config<D, T>, p: Pool<T>, w: nat)
    requires Inv(c, p) && w < |p.workers| && Busy(p.workers[w])
    ensures |p.buffer| < |c.jobs|
  {
    BusyIsCounted(p.workers, w);
  }

  predicate NoPanics<D, T>(c: Config<D, T>) {
    forall j :: 0 <= j < |c.fetch| ==> !c.fetch[j].Panics?
  }

  lemma LostJobPanicked<D, T>(c: Config<D, T>, p: Pool<T>)
    requires c.Valid() && Safe(c, p)
    ensures p.lost != [] ==> !NoPanics(c)
  {
    if p.lost != [] {
      assert c.fetch[p.lost[0]].Panics?;
    }
  }

  /** The work a busy worker does next. */
  function NextWork<T>(worker: Worker<T>): WorkKind {
    match worker
    case Idle => Take
    case Loading(_) => Load
    case Checking(_) => Check
    case Fetching(_) => FetchData
    case Sending(_) => Send
    case Exited => Exit
  }

  /** Until all results are collected some step is possible, if no job panics. */
  lemma NeverStuck<D, T>(c: Config<D, T>, p: Pool<T>) returns (step: Step)
    requires Inv(c, p) && NoPanics(c) && |p.collected| < |c.jobs|
    ensures Enabled(c, p, step)
  {
    if p.buffer != [] {
      return Collect;
    }
    if w: nat :| w < |p.workers| && Busy(p.workers[w]) {
      SendNeverBlocks(c, p, w);
      assert WorkerOk(c, p.stale, p.workers[w]);
      return Work(w, NextWork(p.workers[w]));
    }
    NoneBusy(p.workers);
    LostJobPanicked(c, p);
    if p.sent < |c.jobs| {
      return SendJob;
    }
    assert !Busy(p.workers[0]);
    return Work(0, Take);
  }

  /* ---------- The collector ---------- */

  datatype Outcome<T> = Errors(error: Error) | Responses(responses: seq<Response<T>>)

  function FirstError<T>(results: seq<Result<T>>): Option<Error> {
    if results == [] then None
    else if results[0].body.Failed? then Some(results[0].body.error)
    else FirstError(results[1..])
  }

  function ResponsesIn<T>(results: seq<Result<T>>): seq<Response<T>> {
    if results == [] then []
    else
      var n := |results| - 1;
      ResponsesIn(results[..n]) + if results[n].body.Scraped? then [results[n].body.response] else []
  }

  /** The first error to arrive, or all responses in the order of arrival. */
  function Summary<T>(results: seq<Result<T>>): Outcome<T> {
    if FirstError(results).Some? then Errors(FirstError(results).value) else Responses(ResponsesIn(results))
  }

  lemma {:induction false} FirstErrorOfAppend<T>(results: seq<Result<T>>, r: Result<T>)
    ensures FirstError(results + [r]) ==
            if FirstError(results).Some? then FirstError(results)
            else if r.body.Failed? then Some(r.body.error) else None
  {
    if results != [] {
      FirstErrorOfAppend(results[1..], r);
      assert (results + [r])[1..] == results[1..] + [r];
    } else {
      assert (results + [r])[1..] == [];
    }
  }

  method CollectResults<T>(arriving: seq<Result<T>>) returns (out: Outcome<T>)
    ensures out == Summary(arriving)
  {
    var schedules: seq<Response<T>> := [];
    var errors: seq<Error> := [];
    for k := 0 to |arriving|
      invariant schedules == ResponsesIn(arriving[..k])
      invariant errors == [] <==> FirstError(arriving[..k]).None?
      invariant errors != [] ==> FirstError(arriving[..k]) == Some(errors[0])
    {
      assert arriving[..k + 1] == arriving[..k] + [arriving[k]];
      FirstErrorOfAppend(arriving[..k], arriving[k]);
      if arriving[k].body.Failed? {
        errors := errors + [arriving[k].body.error];
      } else {
        schedules := schedules + [arriving[k].body.response];
      }
    }
    assert arriving[..|arriving|] == arriving;
    if |errors| > 0 {
      return Errors(errors[0]);
    }
    return Responses(schedules);
  }

  /* ---------- What a complete pool has collected ---------- */

  /** One result per job, each of them right, and the flag set exactly when a page bounced. */
  ghost predicate PoolPost<D, T>(c: Config<D, T>, stale: bool, results: seq<Result<T>>) {
    c.Valid() && |results| == |c.jobs| &&
    (forall j: nat :: Times(JobsOf(results), j) == Bit(j < |c.jobs|)) &&
    (forall k :: 0 <= k < |results| ==> ResultOk(c, stale, results[k])) &&
    (stale <==> SomeBounce(c))
  }

  lemma {:induction false} HoldersAreBusy<T>(workers: seq<Worker<T>>, j: nat)
    ensures CountHolding(workers, j) <= CountBusy(workers)
  {
    if workers != [] {
      HoldersAreBusy(workers[..|workers| - 1], j);
    }
  }

  lemma {:induction false} TimesMember(s: seq<nat>, j: nat) returns (k: nat)
    requires Times(s, j) > 0
    ensures k < |s| && s[k] == j
  {
    var n := |s| - 1;
    if s[n] == j {
      k := n;
    } else {
      k := TimesMember(s[..n], j);
    }
  }

  lemma CompletePool<D, T>(c: Config<D, T>, p: Pool<T>)
    requires Inv(c, p) && |p.collected| == |c.jobs|
    ensures PoolPost(c, p.stale, p.collected) && NoPanics(c)
  {
    forall j: nat
      ensures Times(JobsOf(p.collected), j) == Bit(j < |c.jobs|)
      ensures j < |c.jobs| ==> !c.fetch[j].Panics? && (c.fetch[j].Bounce? ==> p.stale)
    {
      HoldersAreBusy(p.workers, j);
      assert Places(p, j) == Bit(j < p.sent);
      if j < |c.jobs| {
        var k := TimesMember(JobsOf(p.collected), j);
        assert ResultOk(c, p.stale, p.collected[k]);
      }
    }
  }

  /* ---------- Runs of the pool ---------- */

  /** Some interleaving of the steps leads from the fresh pool through `pools`. */
  ghost predicate IsTrace<D, T>(c: Config<D, T>, pools: seq<Pool<T>>, steps: seq<Step>) {
    c.Valid() && |pools| == |steps| + 1 && pools[0] == Start(false) &&
    forall k :: 0 <= k < |steps| ==> Follows(c, pools[k], steps[k], pools[k + 1])
  }

  ghost predicate Follows<D, T>(c: Config<D, T>, p: Pool<T>, step: Step, q: Pool<T>)
    requires c.Valid()
  {
    Enabled(c, p, step) && q == Apply(c, p, step)
  }

  lemma StartIsInv<D, T>(c: Config<D, T>)
    requires c.Valid()
    ensures Inv(c, Start<T>(false))
  {
    var p := Start<T>(false);
    NoneBusy(p.workers);
    forall j: nat
      ensures Places(p, j) == 0
    {
      HoldersAreBusy(p.workers, j);
    }
  }

  lemma {:induction false} TraceKeepsInv<D, T>(c: Config<D, T>, pools: seq<Pool<T>>, steps: seq<Step>, k: nat)
    requires IsTrace(c, pools, steps) && k < |pools|
    ensures Inv(c, pools[k])
  {
    if k == 0 {
      StartIsInv(c);
    } else {
      TraceKeepsInv(c, pools, steps, k - 1);
      assert Follows(c, pools[k - 1], steps[k - 1], pools[k]);
      StepKeepsInv(c, pools[k - 1], steps[k - 1]);
    }
  }

  /** The pool can collect all results exactly when no job panics before its send: a panic loses the
      job, and then no trace is complete; without panics a trace that is not complete can go on, and
      every step brings it nearer to the end. */
  lemma CompletesUnlessPanic<D, T>(c: Config<D, T>, pools: seq<Pool<T>>, steps: seq<Step>)
    requires IsTrace(c, pools, steps)
    ensures var last := pools[|steps|];
            && (|last.collected| == |c.jobs| ==> NoPanics(c))
            && (NoPanics(c) && |last.collected| < |c.jobs| ==> exists step :: Enabled(c, last, step))
            && |last.collected| <= |c.jobs|
            && forall step :: Enabled(c, last, step) ==> 0 <= StepsLeft(c, Apply(c, last, step)) < StepsLeft(c, last)
  {
    var last := pools[|steps|];
    TraceKeepsInv(c, pools, steps, |steps|);
    if |last.collected| == |c.jobs| {
      CompletePool(c, last);
    } else if NoPanics(c) {
      var step := NeverStuck(c, last);
    }
    forall step | Enabled(c, last, step)
      ensures 0 <= StepsLeft(c, Apply(c, last, step)) < StepsLeft(c, last)
    {
      StepMakesProgress(c, last, step);
    }
  }

  /** The step with a given number, for a scheduler that picks one. */
  function StepNumber(n: nat, w: nat): Step {
    if n == 0 then SendJob
    else if n == 1 then CloseJobs
    else if n == 2 then Collect
    else if n == 3 then Work(w, Take)
    else if n == 4 then Work(w, Load)
    else if n == 5 then Work(w, Check)
    else if n == 6 then Work(w, FetchData)
    else if n == 7 then Work(w, Send)
    else Work(w, Exit)
  }

  lemma StepsAreNumbered<D, T>(c: Config<D, T>, p: Pool<T>, step: Step) returns (n: nat, w: nat)
    requires Enabled(c, p, step) && |p.workers| == MAX_WORKERS
    ensures n < 9 && w < MAX_WORKERS && StepNumber(n, w) == step
  {
    match step
    case SendJob => n, w := 0, 0;
    case CloseJobs => n, w := 1, 0;
    case Collect => n, w := 2, 0;
    case Work(v, kind) =>
      w := v;
      n := match kind
        case Take => 3
        case Load => 4
        case Check => 5
        case FetchData => 6
        case Send => 7
        case Exit => 8;
  }

  predicate CanStep<D, T>(c: Config<D, T>, p: Pool<T>) {
    exists n, w :: 0 <= n < 9 && 0 <= w < MAX_WORKERS && Enabled(c, p, StepNumber(n, w))
  }

  lemma StuckMeansPanic<D, T>(c: Config<D, T>, p: Pool<T>)
    requires Inv(c, p) && |p.collected| < |c.jobs| && !CanStep(c, p)
    ensures !NoPanics(c)
  {
    if NoPanics(c) {
      var some := NeverStuck(c, p);
      var n, w := StepsAreNumbered(c, p, some);
    }
  }

  /** processSchedulesWithWorkerPool: the scheduler picks any possible step until every result has
      arrived.  It returns the final flag, the results in the order of arrival, and their summary - or
      nothing at all, when a job panicked and the collector waits for ever. */
  method RunPool<D, T>(c: Config<D, T>) returns (out: Option<Outcome<T>>, stale: bool, results: seq<Result<T>>)
    requires c.Valid()
    ensures out.Some? <==> NoPanics(c)
    ensures out.Some? ==> PoolPost(c, stale, results) && out.value == Summary(results)
  {
    var p := Start<T>(false);
    StartIsInv(c);
    while |p.collected| < |c.jobs|
      invariant Inv(c, p) && |p.collected| <= |c.jobs|
      decreases StepsLeft(c, p)
    {
      if !CanStep(c, p) {
        StuckMeansPanic(c, p);
        return None, p.stale, p.collected;
      }
      var n, w :| 0 <= n < 9 && 0 <= w < MAX_WORKERS && Enabled(c, p, StepNumber(n, w));
      var step := StepNumber(n, w);
      StepKeepsInv(c, p, step);
      StepMakesProgress(c, p, step);
      p := Apply(c, p, step);
    }
    CompletePool(c, p);
    stale, results := p.stale, p.collected;
    var summary := CollectResults(results);
    out := Some(summary);
  }

  /* ---------- Confluence ---------- */

  ghost predicate AllAnswered<D, T>(c: Config<D, T>) {
    c.Valid() && forall j :: 0 <= j < |c.fetch| ==> Answer(c.fetch[j], c.view).Some?
  }

  /** The response a full scrape gives for job `j`. */
  function Expected<D, T>(c: Config<D, T>, j: nat): Response<T>
    requires c.Valid() && j < |c.jobs| && Answer(c.fetch[j], c.view).Some?
  {
    ResponseOf(c, j, Answer(c.fetch[j], c.view).value)
  }

  /** The responses of all jobs in the order of the jobs. */
  ghost function AllExpected<D, T>(c: Config<D, T>, n: nat): (rs: seq<Response<T>>)
    requires AllAnswered(c) && n <= |c.jobs|
    ensures |rs| == n && forall j :: 0 <= j < n ==> rs[j] == Expected(c, j)
  {
    seq(n, j requires 0 <= j < n => Expected(c, j))
  }

  lemma {:induction false} TimesOfConcat(s: seq<nat>, t: seq<nat>, j: nat)
    ensures Times(s + t, j) == Times(s, j) + Times(t, j)
  {
    if t == [] {
      assert s + t == s;
    } else {
      var n := |t| - 1;
      TimesOfConcat(s, t[..n], j);
      assert (s + t)[..|s + t| - 1] == s + t[..n];
    }
  }

  lemma TimesWithout(s: seq<nat>, k: nat, j: nat)
    requires k < |s|
    ensures Times(s[..k] + s[k + 1..], j) + Bit(s[k] == j) == Times(s, j)
  {
    TimesOfConcat(s[..k], s[k + 1..], j);
    TimesOfConcat(s[..k], s[k..], j);
    assert s == s[..k] + s[k..];
    TimesDropFirst(s[k..], j);
    assert s[k..][1..] == s[k + 1..];
  }

  lemma {:induction false} AllZero(s: seq<nat>)
    requires forall j: nat :: Times(s, j) == 0
    ensures s == []
  {
    if s != [] {
      var n := |s| - 1;
      assert Times(s, s[n]) > 0;
    }
  }

  /** Each of the jobs 0 to n-1 once, in any order: the same responses as in the order of the jobs. */
  lemma {:induction false} AnyOrderSameResponses<D, T>(c: Config<D, T>, js: seq<nat>, rs: seq<Response<T>>, n: nat)
    requires AllAnswered(c) && n <= |c.jobs| && |js| == |rs|
    requires forall i :: 0 <= i < |js| ==> js[i] < |c.jobs| && rs[i] == Expected(c, js[i])
    requires forall j: nat :: Times(js, j) == Bit(j < n)
    ensures multiset(rs) == multiset(AllExpected(c, n))
  {
    if n == 0 {
      AllZero(js);
      assert rs == [] == AllExpected(c, n);
    } else {
      var k := TimesMember(js, n - 1);
      var js', rs' := js[..k] + js[k + 1..], rs[..k] + rs[k + 1..];
      forall j: nat
        ensures Times(js', j) == Bit(j < n - 1)
      {
        TimesWithout(js, k, j);
      }
      AnyOrderSameResponses(c, js', rs', n - 1);
      assert rs == rs[..k] + [rs[k]] + rs[k + 1..];
      assert AllExpected(c, n) == AllExpected(c, n - 1) + [Expected(c, n - 1)];
    }
  }

  lemma {:induction false} AllScraped<T>(results: seq<Result<T>>)
    requires forall k :: 0 <= k < |results| ==> results[k].body.Scraped?
    ensures FirstError(results).None?
    ensures |ResponsesIn(results)| == |results|
    ensures forall k :: 0 <= k < |results| ==> ResponsesIn(results)[k] == results[k].body.response
  {
    if results != [] {
      AllScraped(results[1..]);
      AllScraped(results[..|results| - 1]);
    }
  }

  lemma AnsweredResults<D, T>(c: Config<D, T>, stale: bool, results: seq<Result<T>>)
    requires PoolPost(c, stale, results) && AllAnswered(c)
    ensures !stale
    ensures forall k :: 0 <= k < |results| ==>
              results[k].job < |c.jobs| && results[k].body == Scraped(Expected(c, results[k].job), FromUpstream)
  {
    forall k | 0 <= k < |results|
      ensures results[k].job < |c.jobs| && results[k].body == Scraped(Expected(c, results[k].job), FromUpstream)
    {
      assert ResultOk(c, stale, results[k]);
    }
  }

  lemma OneResult<T>(r: Result<T>)
    ensures Summary([r]) == if r.body.Failed? then Errors(r.body.error) else Responses([r.body.response])
  {
    assert [r][1..] == [] && [r][..0] == [];
    assert FirstError<T>([]) == None && ResponsesIn<T>([]) == [];
  }

  /** What a pool with a single job returns, for each way the fetch of its session can end. */
  lemma SingleJob<D, T>(c: Config<D, T>, stale: bool, results: seq<Result<T>>)
    requires PoolPost(c, stale, results) && |c.jobs| == 1
    ensures var f, job := c.fetch[0], c.jobs[0];
            && (f.Payload? ==>
                  !stale && Summary(results) == Responses([Response(job.name, job.query, c.view(f.data))]))
            && (f.Null? ==> !stale && Summary(results) == Responses([Response(job.name, job.query, [])]))
            && (f.Bounce? ==> stale && Summary(results) == Responses([Response(job.name, job.query, [])]))
            && (f.PageFails? || f.DataFails? ==> !stale && Summary(results) == Errors(f.error))
            && (f.NoToken? ==> !stale && Summary(results) == Errors(ScheduleIsEmpty))
  {
    var r := results[0];
    assert ResultOk(c, stale, r) && r.job == 0;
    assert results == [r];
    OneResult(r);
  }

  /** When every session is answered the pool returns one response per job, whatever the order. */
  lemma PoolReturnsAll<D, T>(c: Config<D, T>, stale: bool, results: seq<Result<T>>)
    requires PoolPost(c, stale, results) && AllAnswered(c)
    ensures !stale && Summary(results) == Responses(ResponsesIn(results))
    ensures multiset(ResponsesIn(results)) == multiset(AllExpected(c, |c.jobs|))
  {
    AnsweredResults(c, stale, results);
    AllScraped(results);
    AnyOrderSameResponses(c, JobsOf(results), ResponsesIn(results), |c.jobs|);
  }

  lemma {:induction false} TimesOfCount(n: nat, j: nat)
    ensures Times(seq(n, i requires 0 <= i < n => i), j) == Bit(j < n)
  {
    if n > 0 {
      TimesOfCount(n - 1, j);
      assert seq(n, i requires 0 <= i < n => i)[..n - 1] == seq(n - 1, i requires 0 <= i < n - 1 => i);
    }
  }

  /** When every session is answered the results may come in the order of the jobs. */
  lemma ResultsInOrder<D, T>(c: Config<D, T>) returns (results: seq<Result<T>>)
    requires AllAnswered(c)
    ensures PoolPost(c, false, results) && Summary(results).Responses?
  {
    var n := |c.jobs|;
    results := seq(n, i requires 0 <= i < n => Result(i, Scraped(Expected(c, i), FromUpstream)));
    assert JobsOf(results) == seq(n, i requires 0 <= i < n => i);
    forall j: nat
      ensures Times(JobsOf(results), j) == Bit(j < n)
    {
      TimesOfCount(n, j);
    }
    AllScraped(results);
  }

  /** Confluence: any two complete runs over the same jobs give the same sorted response. */
  lemma Confluence<D, T>(c: Config<D, T>, stale: bool, results: seq<Result<T>>, stale': bool, results': seq<Result<T>>,
                         universe: iset<string>)
    requires PoolPost(c, stale, results) && PoolPost(c, stale', results') && AllAnswered(c)
    requires OrderWorks(universe) && NamesIn(AllExpected(c, |c.jobs|), universe)
    requires NamesIdentify(AllExpected(c, |c.jobs|))
    ensures Summary(results).Responses? && Summary(results').Responses?
    ensures Sorted(Summary(results).responses) == Sorted(Summary(results').responses) ==
            Sorted(AllExpected(c, |c.jobs|))
  {
    PoolReturnsAll(c, stale, results);
    PoolReturnsAll(c, stale', results');
    SortedIsConfluent(AllExpected(c, |c.jobs|), Summary(results).responses, universe);
    SortedIsConfluent(AllExpected(c, |c.jobs|), Summary(results').responses, universe);
  }

  lemma {:induction false} FirstErrorIsOne<T>(results: seq<Result<T>>) returns (k: nat)
    requires FirstError(results).Some?
    ensures k < |results| && results[k].body == Failed(FirstError(results).value)
    ensures forall j :: 0 <= j < k ==> !results[j].body.Failed?
  {
    if results[0].body.Failed? {
      k := 0;
    } else {
      k := FirstErrorIsOne(results[1..]);
      k := k + 1;
    }
  }

  /** An error of the pool is the error of one of the jobs, the first to arrive. */
  lemma ErrorIsOfAJob<D, T>(c: Config<D, T>, stale: bool, results: seq<Result<T>>) returns (j: nat, k: nat)
    requires PoolPost(c, stale, results) && Summary(results).Errors?
    ensures j < |c.jobs| && JobError(c.fetch[j]) == Some(Summary(results).error)
    ensures k < |results| && results[k].job == j && results[k].body == Failed(Summary(results).error)
    ensures forall i :: 0 <= i < k ==> !results[i].body.Failed?
  {
    k := FirstErrorIsOne(results);
    assert ResultOk(c, stale, results[k]);
    j := results[k].job;
  }

  /** Without a bounce the flag stays down, and the pool succeeds exactly when every session is
      answered. */
  lemma SucceedsExactly<D, T>(c: Config<D, T>, stale: bool, results: seq<Result<T>>)
    requires PoolPost(c, stale, results) && !SomeBounce(c)
    ensures !stale && (Summary(results).Responses? <==> AllAnswered(c))
  {
    if AllAnswered(c) {
      PoolReturnsAll(c, stale, results);
    } else {
      var j: nat :| j < |c.fetch| && Answer(c.fetch[j], c.view).None?;
      var k := TimesMember(JobsOf(results), j);
      assert ResultOk(c, stale, results[k]);
      FailureIsReported(results, k);
    }
  }

  lemma {:induction false} FailureIsReported<T>(results: seq<Result<T>>, k: nat)
    requires k < |results| && results[k].body.Failed?
    ensures FirstError(results).Some?
  {
    if k > 0 {
      FailureIsReported(results[1..], k - 1);
    }
  }

  /** When the flag is down at the end, no response was made up after a bounce: each one is what
      i-Ma'luum really answered for its session. */
  lemma UnflaggedIsGenuine<D, T>(c: Config<D, T>, stale: bool, results: seq<Result<T>>)
    requires PoolPost(c, stale, results) && !stale && Summary(results).Responses?
    ensures AllAnswered(c) && !SomeBounce(c)
    ensures forall k :: 0 <= k < |results| ==> results[k].body == Scraped(Expected(c, results[k].job), FromUpstream)
  {
    forall j: nat | j < |c.jobs|
      ensures Answer(c.fetch[j], c.view).Some?
    {
      var k := TimesMember(JobsOf(results), j);
      assert ResultOk(c, stale, results[k]);
      if results[k].body.Failed? {
        FailureIsReported(results, k);
      }
    }
    forall k | 0 <= k < |results|
      ensures results[k].body == Scraped(Expected(c, results[k].job), FromUpstream)
    {
      assert ResultOk(c, stale, results[k]);
      if results[k].body.Failed? {
        FailureIsReported(results, k);
      }
    }
  }
}
