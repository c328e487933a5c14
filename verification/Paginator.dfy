/** The paginating Kapacitor client: one generator, four workers, one gatherer and the
    goroutine that called ListTasks, as a state machine over their atomic steps. */
module Paginator {
  import opened Wrappers

  const LIST_TASK_WORKERS: nat := 4

  datatype Task = Task(id: string, script: string)

  datatype Options = Options(limit: nat, offset: nat)

  /** The Kapacitor server: a fixed list, of which a request sees the window its options name. */
  datatype Config = Config(tasks: seq<Task>, fetchRate: nat)

  function Min(a: nat, b: nat): nat {
    if a < b then a else b
  }

  function Window(tasks: seq<Task>, opts: Options): seq<Task> {
    var begin := Min(opts.offset, |tasks|);
    tasks[begin..Min(opts.offset + opts.limit, |tasks|)]
  }

  function Page(c: Config, offset: nat): seq<Task> {
    Window(c.tasks, Options(c.fetchRate, offset))
  }

  // ---------- the protocol state ----------

  datatype Generator = Offering(opts: Options) | Stopped

  /** A response on its way to the gatherer, with the offset it was fetched at. */
  datatype Batch = Batch(offset: nat, resp: seq<Task>)

  datatype Worker =
    | Idle
    | Fetching(opts: Options)
    | Sending(batch: Batch)
    | SawEmpty(offset: nat)
    | Exited

  datatype Caller = Waiting | Draining | Returned

  /** Offsets in the order they were recorded. */
  datatype Trail = Start | Then(before: Trail, offset: nat)

  /** `issued`, `gathered`, `failed` and `empties` are the history of the run: how many offsets were
      handed to a worker, and which were appended to `allTasks`, lost to a fetch error, and answered
      by an empty page. */
  datatype State = State(
    gen: Generator,
    optChanClosed: bool,
    doneClosed: bool,
    onceFired: bool,
    workers: seq<Worker>,
    taskChan: seq<Batch>,
    taskChanClosed: bool,
    gathering: bool,
    caller: Caller,
    allTasks: seq<Task>,
    panicked: bool,
    requests: nat,
    issued: nat,
    gathered: Trail,
    failed: Trail,
    empties: Trail)

  function Init(c: Config): State {
    State(Offering(Options(c.fetchRate, 0)), false, false, false,
          seq(LIST_TASK_WORKERS, _ => Idle), [], false, true, Waiting, [], false, 0, 0, Start, Start, Start)
  }

  datatype Step =
    | Handoff(w: nat)      // generator and worker meet on the unbuffered option channel
    | StopGenerator        // the generator selects the closed done channel
    | FetchOk(w: nat)
    | FetchErr(w: nat)
    | CloseDone(w: nat)    // closer.Do(close(done)) after an empty page
    | Deliver(w: nat)      // taskChan <- resp
    | Leave(w: nat)        // the range over the closed option channel ends
    | Gather
    | GatherEnd
    | CloseTaskChan        // after wg.Wait()
    | Return               // after gatherWg.Wait()

  predicate AllExited(workers: seq<Worker>) {
    forall w :: 0 <= w < |workers| ==> workers[w] == Exited
  }

  predicate Enabled(s: State, step: Step) {
    match step
    case Handoff(w) => w < |s.workers| && s.gen.Offering? && s.workers[w].Idle?
    case StopGenerator => s.gen.Offering? && s.doneClosed
    case FetchOk(w) => w < |s.workers| && s.workers[w].Fetching?
    case FetchErr(w) => w < |s.workers| && s.workers[w].Fetching?
    case CloseDone(w) => w < |s.workers| && s.workers[w].SawEmpty?
    case Deliver(w) =>
      w < |s.workers| && s.workers[w].Sending? && (|s.taskChan| < LIST_TASK_WORKERS || s.taskChanClosed)
    case Leave(w) => w < |s.workers| && s.workers[w].Idle? && s.optChanClosed
    case Gather => s.gathering && s.taskChan != []
    case GatherEnd => s.gathering && s.taskChan == [] && s.taskChanClosed
    case CloseTaskChan => s.caller.Waiting? && AllExited(s.workers)
    case Return => s.caller.Draining? && !s.gathering
  }

  /** Closing a closed channel and sending on a closed one panic. */
  function Apply(c: Config, s: State, step: Step): State
    requires Enabled(s, step)
  {
    match step
    case Handoff(w) =>
      s.(gen := Offering(s.gen.opts.(offset := c.fetchRate + s.gen.opts.offset)),
         workers := s.workers[w := Fetching(s.gen.opts)],
         issued := s.issued + 1)
    case StopGenerator =>
      s.(gen := Stopped, panicked := s.panicked || s.optChanClosed, optChanClosed := true)
    case FetchOk(w) =>
      var opts := s.workers[w].opts;
      var resp := Window(c.tasks, opts);
      s.(requests := s.requests + 1,
         workers := s.workers[w := if |resp| == 0 then SawEmpty(opts.offset) else Sending(Batch(opts.offset, resp))])
    case FetchErr(w) =>
      s.(requests := s.requests + 1,
         workers := s.workers[w := Exited],
         failed := Then(s.failed, s.workers[w].opts.offset))
    case CloseDone(w) =>
      s.(onceFired := true,
         panicked := s.panicked || (!s.onceFired && s.doneClosed),
         doneClosed := true,
         workers := s.workers[w := Exited],
         empties := Then(s.empties, s.workers[w].offset))
    case Deliver(w) =>
      s.(panicked := s.panicked || s.taskChanClosed,
         taskChan := s.taskChan + [s.workers[w].batch],
         workers := s.workers[w := Idle])
    case Leave(w) => s.(workers := s.workers[w := Exited])
    case Gather =>
      s.(allTasks := s.allTasks + s.taskChan[0].resp,
         gathered := Then(s.gathered, s.taskChan[0].offset),
         taskChan := s.taskChan[1..])
    case GatherEnd => s.(gathering := false)
    case CloseTaskChan =>
      s.(panicked := s.panicked || s.taskChanClosed, taskChanClosed := true, caller := Draining)
    case Return => s.(caller := Returned)
  }

  /** Every interleaving: a sequence of states, each reached from the one before by an enabled step. */
  predicate IsRun(c: Config, run: seq<State>, steps: seq<Step>) {
    && |run| == |steps| + 1
    && run[0] == Init(c)
    && forall i {:trigger steps[i]} :: 0 <= i < |steps| ==>
         Enabled(run[i], steps[i]) && run[i + 1] == Apply(c, run[i], steps[i])
  }

  // ---------- pages ----------

  /** ceil(|tasks| / fetchRate): the pages that are not empty. */
  function FullPages(c: Config): nat
    requires c.fetchRate > 0
  {
    (|c.tasks| + c.fetchRate - 1) / c.fetchRate
  }

  lemma PageIsFull(c: Config, i: nat)
    requires c.fetchRate > 0
    ensures i * c.fetchRate < |c.tasks| <==> i < FullPages(c)
  {
    var n, f := |c.tasks|, c.fetchRate;
    var q := FullPages(c);
    assert q * f <= n + f - 1 < q * f + f;
    if i < q { assert i * f <= (q - 1) * f; }
    if i >= q { assert i * f >= q * f; }
  }

  /** The tasks of the recorded pages, in order. */
  function Pages(c: Config, t: Trail): seq<Task> {
    match t
    case Start => []
    case Then(before, offset) => Pages(c, before) + Page(c, offset)
  }

  function Length(t: Trail): nat {
    if t.Start? then 0 else Length(t.before) + 1
  }

  predicate PastEnd(c: Config, t: Trail) {
    t.Then? ==> t.offset >= |c.tasks| && PastEnd(c, t.before)
  }

  /** A tally gives each offset a number; two are used: being the page at offset o, and the copies of
      one task on the page. */
  type Tally = nat -> nat

  function AtOffset(o: nat): Tally {
    (offset: nat) => if offset == o then 1 else 0
  }

  function OfTask(c: Config, t: Task): Tally {
    (offset: nat) => multiset(Page(c, offset))[t]
  }

  function Total(f: Tally, t: Trail): nat {
    if t.Start? then 0 else Total(f, t.before) + f(t.offset)
  }

  /** The same tally over the first k offsets the generator hands out. */
  function IssuedTotal(f: Tally, fetchRate: nat, k: nat): nat {
    if k == 0 then 0 else IssuedTotal(f, fetchRate, k - 1) + f((k - 1) * fetchRate)
  }

  function ChanTotal(f: Tally, chan: seq<Batch>): nat {
    if chan == [] then 0 else f(chan[0].offset) + ChanTotal(f, chan[1..])
  }

  lemma {:induction false} ChanTotalAppend(f: Tally, chan: seq<Batch>, b: Batch)
    ensures ChanTotal(f, chan + [b]) == ChanTotal(f, chan) + f(b.offset)
  {
    if chan == [] {
      assert [b][1..] == [];
    } else {
      assert (chan + [b])[1..] == chan[1..] + [b];
      ChanTotalAppend(f, chan[1..], b);
    }
  }

  /** Counting pages is counting the tasks in them. */
  lemma {:induction false} TotalOfTask(c: Config, task: Task, t: Trail)
    ensures Total(OfTask(c, task), t) == multiset(Pages(c, t))[task]
  {
    if t.Then? { TotalOfTask(c, task, t.before); }
  }

  // ---------- sums over the workers ----------

  /** What a worker is counted for: having a request under way, being past the end of the list (it will
      never take another option set), having exited, the steps it can still take on its own, and the
      page it is responsible for. */
  datatype Count = InFlight | Doomed(n: nat) | Gone | Energy | Holding(f: Tally)

  function One(w: Worker, k: Count): nat {
    match k
    case InFlight => if w.Fetching? then 1 else 0
    case Gone => if w.Exited? then 1 else 0
    case Doomed(n) =>
      if w.Exited? || w.SawEmpty? || (w.Fetching? && w.opts.offset >= n) then 1 else 0
    case Energy =>
      (match w case Fetching(_) => 4 case Sending(_) => 3 case Idle => 1 case SawEmpty(_) => 1 case Exited => 0)
    case Holding(f) =>
      (match w
       case Fetching(opts) => f(opts.offset)
       case Sending(b) => f(b.offset)
       case SawEmpty(o) => f(o)
       case _ => 0)
  }

  function Sum(ws: seq<Worker>, k: Count): nat {
    if ws == [] then 0 else One(ws[0], k) + Sum(ws[1..], k)
  }

  lemma {:induction false} SumUpdate(ws: seq<Worker>, k: Count, i: nat, w: Worker)
    requires i < |ws|
    ensures Sum(ws[i := w], k) + One(ws[i], k) == Sum(ws, k) + One(w, k)
  {
    if i == 0 {
      assert ws[i := w][1..] == ws[1..];
    } else {
      assert ws[i := w][1..] == ws[1..][i - 1 := w];
      SumUpdate(ws[1..], k, i - 1, w);
    }
  }

  lemma {:induction false} SumDoomed(ws: seq<Worker>, n: nat)
    ensures Sum(ws, Doomed(n)) <= |ws|
  {
    if ws != [] { SumDoomed(ws[1..], n); }
  }

  /** When every worker has the same state, each counts the same. */
  lemma {:induction false} SumSame(ws: seq<Worker>, w: Worker, k: Count)
    requires forall i :: 0 <= i < |ws| ==> ws[i] == w
    ensures Sum(ws, k) == One(w, k) * |ws|
  {
    if ws != [] {
      SumSame(ws[1..], w, k);
      var one := One(w, k);
      assert one * |ws| == one * (|ws| - 1) + one;
    }
  }

  // ---------- the invariant ----------

  predicate WorkerOk(c: Config, w: Worker) {
    match w
    case Fetching(opts) => opts.limit == c.fetchRate
    case Sending(b) => BatchOk(c, b)
    case SawEmpty(o) => o >= |c.tasks|
    case _ => true
  }

  predicate BatchOk(c: Config, b: Batch) {
    b.resp == Page(c, b.offset) && b.resp != []
  }

  /** Every offset handed out is in exactly one place, and so is every task on its page. */
  predicate ConservedAt(c: Config, s: State, f: Tally) {
    IssuedTotal(f, c.fetchRate, s.issued) ==
      Total(f, s.gathered) + ChanTotal(f, s.taskChan) + Sum(s.workers, Holding(f))
      + Total(f, s.failed) + Total(f, s.empties)
  }

  ghost predicate Conserved(c: Config, s: State) {
    forall f: Tally :: ConservedAt(c, s, f)
  }

  predicate Issuance(c: Config, s: State) {
    s.gen.Offering? ==> s.gen.opts == Options(c.fetchRate, s.issued * c.fetchRate)
  }

  predicate Channels(c: Config, s: State) {
    && !s.panicked
    && s.optChanClosed == s.gen.Stopped?
    && s.doneClosed == s.onceFired == s.empties.Then?
    && (s.gen.Stopped? ==> s.doneClosed)
    && |s.taskChan| <= LIST_TASK_WORKERS
    && s.taskChanClosed == !s.caller.Waiting?
    && (!s.caller.Waiting? ==> AllExited(s.workers))
    && (!s.gathering ==> s.taskChanClosed && s.taskChan == [])
    && (s.caller.Returned? ==> !s.gathering)
  }

  predicate Contents(c: Config, s: State) {
    && |s.workers| == LIST_TASK_WORKERS
    && (forall w :: 0 <= w < |s.workers| ==> WorkerOk(c, s.workers[w]))
    && (forall b :: 0 <= b < |s.taskChan| ==> BatchOk(c, s.taskChan[b]))
    && PastEnd(c, s.empties)
    && s.allTasks == Pages(c, s.gathered)
  }

  predicate CountsWithin(s: State, n: nat, pages: nat) {
    && s.requests + Sum(s.workers, InFlight) == s.issued
    && s.issued <= pages + Sum(s.workers, Doomed(n))
    && (s.gen.Stopped? || Sum(s.workers, Gone) == Length(s.failed) + Length(s.empties))
  }

  predicate Counts(c: Config, s: State)
    requires c.fetchRate > 0
  {
    CountsWithin(s, |c.tasks|, FullPages(c))
  }

  ghost predicate Inv(c: Config, s: State)
    requires c.fetchRate > 0
  {
    Issuance(c, s) && Channels(c, s) && Contents(c, s) && Counts(c, s) && Conserved(c, s)
  }

  lemma InitInv(c: Config)
    requires c.fetchRate > 0
    ensures Inv(c, Init(c))
  {
    var s := Init(c);
    SumSame(s.workers, Idle, InFlight);
    SumSame(s.workers, Idle, Gone);
    forall f: Tally ensures ConservedAt(c, s, f) { SumSame(s.workers, Idle, Holding(f)); }
  }

  lemma StepChannels(c: Config, s: State, step: Step)
    requires c.fetchRate > 0 && Inv(c, s) && Enabled(s, step)
    ensures Channels(c, Apply(c, s, step))
  {
  }

  lemma StepIssuance(c: Config, s: State, step: Step)
    requires c.fetchRate > 0 && Inv(c, s) && Enabled(s, step)
    ensures Issuance(c, Apply(c, s, step))
  {
    if step.Handoff? {
      assert (s.issued + 1) * c.fetchRate == s.issued * c.fetchRate + c.fetchRate;
    }
  }

  lemma StepContents(c: Config, s: State, step: Step)
    requires c.fetchRate > 0 && Enabled(s, step)
    requires Contents(c, s) && (s.gen.Offering? ==> s.gen.opts.limit == c.fetchRate)
    ensures Contents(c, Apply(c, s, step))
  {
    match step
    case Handoff(w) => HandoffContents(c, s, w);
    case FetchOk(w) => FetchContents(c, s, w);
    case FetchErr(w) => ExitContents(c, s, step, w);
    case CloseDone(w) => ExitContents(c, s, step, w);
    case Leave(w) => ExitContents(c, s, step, w);
    case Deliver(w) => DeliverContents(c, s, w);
    case Gather => GatherContents(c, s);
    case _ =>
  }

  lemma HandoffContents(c: Config, s: State, w: nat)
    requires Contents(c, s) && Enabled(s, Handoff(w)) && s.gen.opts.limit == c.fetchRate
    ensures Contents(c, Apply(c, s, Handoff(w)))
  {
    assert WorkerOk(c, Fetching(s.gen.opts));
  }

  lemma ExitContents(c: Config, s: State, step: Step, w: nat)
    requires Contents(c, s) && Enabled(s, step)
    requires step == FetchErr(w) || step == CloseDone(w) || step == Leave(w)
    ensures Contents(c, Apply(c, s, step))
  {
    assert WorkerOk(c, s.workers[w]) && WorkerOk(c, Exited);
  }

  lemma DeliverContents(c: Config, s: State, w: nat)
    requires Contents(c, s) && Enabled(s, Deliver(w))
    ensures Contents(c, Apply(c, s, Deliver(w)))
  {
    assert WorkerOk(c, s.workers[w]) && BatchOk(c, s.workers[w].batch) && WorkerOk(c, Idle);
  }

  lemma GatherContents(c: Config, s: State)
    requires Contents(c, s) && Enabled(s, Gather)
    ensures Contents(c, Apply(c, s, Gather))
  {
    assert BatchOk(c, s.taskChan[0]);
  }

  lemma FetchContents(c: Config, s: State, w: nat)
    requires c.fetchRate > 0 && Contents(c, s) && Enabled(s, FetchOk(w))
    ensures Contents(c, Apply(c, s, FetchOk(w)))
  {
    assert WorkerOk(c, s.workers[w]);
    var now := Apply(c, s, FetchOk(w)).workers[w];
    assert WorkerOk(c, now);
  }

  lemma StepCounts(c: Config, s: State, step: Step, pages: nat)
    requires CountsWithin(s, |c.tasks|, pages) && Enabled(s, step) && |s.workers| == LIST_TASK_WORKERS
    requires s.optChanClosed == s.gen.Stopped?
    requires s.gen.Offering? && s.issued >= pages ==> s.gen.opts.offset >= |c.tasks|
    requires forall w :: 0 <= w < |s.workers| ==> WorkerOk(c, s.workers[w])
    requires c.fetchRate > 0
    ensures CountsWithin(Apply(c, s, step), |c.tasks|, pages)
  {
    match step
    case Handoff(w) => HandoffCounts(c, s, w, pages);
    case FetchOk(w) => FetchCounts(c, s, w, pages);
    case FetchErr(w) => ExitCounts(c, s, step, w, pages);
    case CloseDone(w) => ExitCounts(c, s, step, w, pages);
    case Leave(w) => ExitCounts(c, s, step, w, pages);
    case Deliver(w) => DeliverCounts(c, s, w, pages);
    case _ =>
  }

  lemma HandoffCounts(c: Config, s: State, w: nat, pages: nat)
    requires CountsWithin(s, |c.tasks|, pages) && Enabled(s, Handoff(w))
    requires s.issued >= pages ==> s.gen.opts.offset >= |c.tasks|
    ensures CountsWithin(Apply(c, s, Handoff(w)), |c.tasks|, pages)
  {
    Recount(s.workers, |c.tasks|, w, Fetching(s.gen.opts));
    SumDoomed(s.workers, |c.tasks|);
  }

  lemma ExitCounts(c: Config, s: State, step: Step, w: nat, pages: nat)
    requires CountsWithin(s, |c.tasks|, pages) && Enabled(s, step)
    requires step == FetchErr(w) || step == CloseDone(w) || (step == Leave(w) && s.optChanClosed == s.gen.Stopped?)
    ensures CountsWithin(Apply(c, s, step), |c.tasks|, pages)
  {
    Recount(s.workers, |c.tasks|, w, Exited);
  }

  lemma DeliverCounts(c: Config, s: State, w: nat, pages: nat)
    requires CountsWithin(s, |c.tasks|, pages) && Enabled(s, Deliver(w))
    ensures CountsWithin(Apply(c, s, Deliver(w)), |c.tasks|, pages)
  {
    Recount(s.workers, |c.tasks|, w, Idle);
  }

  lemma FetchCounts(c: Config, s: State, w: nat, pages: nat)
    requires CountsWithin(s, |c.tasks|, pages) && Enabled(s, FetchOk(w))
    requires WorkerOk(c, s.workers[w]) && c.fetchRate > 0
    ensures CountsWithin(Apply(c, s, FetchOk(w)), |c.tasks|, pages)
  {
    Recount(s.workers, |c.tasks|, w, Apply(c, s, FetchOk(w)).workers[w]);
  }

  lemma Recount(ws: seq<Worker>, n: nat, w: nat, now: Worker)
    requires w < |ws|
    ensures var ws' := ws[w := now];
            && Sum(ws', InFlight) + One(ws[w], InFlight) == Sum(ws, InFlight) + One(now, InFlight)
            && Sum(ws', Gone) + One(ws[w], Gone) == Sum(ws, Gone) + One(now, Gone)
            && Sum(ws', Doomed(n)) + One(ws[w], Doomed(n)) == Sum(ws, Doomed(n)) + One(now, Doomed(n))
  {
    SumUpdate(ws, InFlight, w, now);
    SumUpdate(ws, Gone, w, now);
    SumUpdate(ws, Doomed(n), w, now);
  }

  /** No step loses a page or doubles one. */
  lemma StepConserved(c: Config, s: State, step: Step, f: Tally)
    requires ConservedAt(c, s, f) && Issuance(c, s) && Enabled(s, step)
    ensures ConservedAt(c, Apply(c, s, step), f)
  {
    match step
    case Handoff(w) => HandoffConserved(c, s, w, f);
    case FetchOk(w) => FetchConserved(c, s, w, f);
    case FetchErr(w) => ExitConserved(c, s, step, w, f);
    case CloseDone(w) => ExitConserved(c, s, step, w, f);
    case Leave(w) => ExitConserved(c, s, step, w, f);
    case Deliver(w) => DeliverConserved(c, s, w, f);
    case Gather => GatherConserved(c, s, f);
    case _ =>
  }

  lemma HandoffConserved(c: Config, s: State, w: nat, f: Tally)
    requires ConservedAt(c, s, f) && Issuance(c, s) && Enabled(s, Handoff(w))
    ensures ConservedAt(c, Apply(c, s, Handoff(w)), f)
  {
    SumUpdate(s.workers, Holding(f), w, Fetching(s.gen.opts));
  }

  lemma ExitConserved(c: Config, s: State, step: Step, w: nat, f: Tally)
    requires ConservedAt(c, s, f) && Enabled(s, step)
    requires step == FetchErr(w) || step == CloseDone(w) || step == Leave(w)
    ensures ConservedAt(c, Apply(c, s, step), f)
  {
    SumUpdate(s.workers, Holding(f), w, Exited);
  }

  lemma GatherConserved(c: Config, s: State, f: Tally)
    requires ConservedAt(c, s, f) && Enabled(s, Gather)
    ensures ConservedAt(c, Apply(c, s, Gather), f)
  {
  }

  lemma FetchConserved(c: Config, s: State, w: nat, f: Tally)
    requires ConservedAt(c, s, f) && Enabled(s, FetchOk(w))
    ensures ConservedAt(c, Apply(c, s, FetchOk(w)), f)
  {
    SumUpdate(s.workers, Holding(f), w, Apply(c, s, FetchOk(w)).workers[w]);
  }

  lemma DeliverConserved(c: Config, s: State, w: nat, f: Tally)
    requires ConservedAt(c, s, f) && Enabled(s, Deliver(w))
    ensures ConservedAt(c, Apply(c, s, Deliver(w)), f)
  {
    SumUpdate(s.workers, Holding(f), w, Idle);
    ChanTotalAppend(f, s.taskChan, s.workers[w].batch);
  }

  lemma StepInv(c: Config, s: State, step: Step)
    requires c.fetchRate > 0 && Inv(c, s) && Enabled(s, step)
    ensures Inv(c, Apply(c, s, step))
  {
    StepIssuance(c, s, step);
    StepChannels(c, s, step);
    StepContents(c, s, step);
    PageIsFull(c, s.issued);
    StepCounts(c, s, step, FullPages(c));
    forall f: Tally ensures ConservedAt(c, Apply(c, s, step), f) { StepConserved(c, s, step, f); }
  }

  lemma {:induction false} RunInv(c: Config, run: seq<State>, steps: seq<Step>, i: nat)
    requires c.fetchRate > 0 && IsRun(c, run, steps) && i < |run|
    ensures Inv(c, run[i])
  {
    if i == 0 {
      InitInv(c);
    } else {
      RunInv(c, run, steps, i - 1);
      assert steps[i - 1] == steps[i - 1];
      StepInv(c, run[i - 1], steps[i - 1]);
    }
  }

  // ---------- safety, progress and termination ----------

  lemma IssuedBound(c: Config, s: State)
    requires c.fetchRate > 0 && Inv(c, s)
    ensures s.issued <= FullPages(c) + LIST_TASK_WORKERS
  {
    SumDoomed(s.workers, |c.tasks|);
  }

  /** In every run, with fetch errors anywhere: no channel is closed twice, nothing is sent on the
      closed task channel, and at most ceil(n / FetchRate) + 4 requests are issued. */
  lemma RunIsSafe(c: Config, run: seq<State>, steps: seq<Step>, i: nat)
    requires c.fetchRate > 0 && IsRun(c, run, steps) && i < |run|
    ensures !run[i].panicked
    ensures run[i].requests <= (|c.tasks| + c.fetchRate - 1) / c.fetchRate + LIST_TASK_WORKERS
  {
    RunInv(c, run, steps, i);
    IssuedBound(c, run[i]);
  }

  /** No deadlock: until ListTasks returns, some goroutine can move. */
  lemma Progress(c: Config, s: State)
    requires c.fetchRate > 0 && Inv(c, s)
    requires !s.caller.Returned?
    ensures exists step :: Enabled(s, step)
  {
    if w: nat :| w < |s.workers| && !s.workers[w].Exited? {
      var step := match s.workers[w]
        case Idle => if s.optChanClosed then Leave(w) else Handoff(w)
        case Fetching(_) => FetchOk(w)
        case SawEmpty(_) => CloseDone(w)
        case Sending(_) => if |s.taskChan| < LIST_TASK_WORKERS then Deliver(w) else Gather
        case Exited => Return;
      assert Enabled(s, step);
    } else if s.caller.Waiting? {
      assert Enabled(s, CloseTaskChan);
    } else {
      var step := if s.taskChan != [] then Gather else if s.gathering then GatherEnd else Return;
      assert Enabled(s, step);
    }
  }

  function MeasureIn(s: State, pages: nat): int {
    4 * (pages + LIST_TASK_WORKERS - s.issued) + Sum(s.workers, Energy) + |s.taskChan|
    + (if s.gen.Offering? then 1 else 0) + (if s.gathering then 1 else 0)
    + (match s.caller case Waiting => 2 case Draining => 1 case Returned => 0)
  }

  function Measure(c: Config, s: State): int
    requires c.fetchRate > 0
  {
    MeasureIn(s, FullPages(c))
  }

  lemma StepDecreases(c: Config, s: State, step: Step)
    requires c.fetchRate > 0 && Inv(c, s) && Enabled(s, step)
    ensures 0 <= Measure(c, Apply(c, s, step)) < Measure(c, s)
  {
    var s' := Apply(c, s, step);
    StepInv(c, s, step);
    IssuedBound(c, s');
    EnergyDecreases(c, s, step, FullPages(c));
  }

  lemma EnergyDecreases(c: Config, s: State, step: Step, pages: nat)
    requires Enabled(s, step)
    ensures MeasureIn(Apply(c, s, step), pages) < MeasureIn(s, pages)
  {
    match step
    case Handoff(w) => HandoffDecreases(c, s, w, pages);
    case FetchOk(w) => FetchDecreases(c, s, w, pages);
    case FetchErr(w) => ExitDecreases(c, s, step, w, pages);
    case CloseDone(w) => ExitDecreases(c, s, step, w, pages);
    case Leave(w) => ExitDecreases(c, s, step, w, pages);
    case Deliver(w) => DeliverDecreases(c, s, w, pages);
    case _ =>
  }

  lemma HandoffDecreases(c: Config, s: State, w: nat, pages: nat)
    requires Enabled(s, Handoff(w))
    ensures MeasureIn(Apply(c, s, Handoff(w)), pages) < MeasureIn(s, pages)
  {
    SumUpdate(s.workers, Energy, w, Fetching(s.gen.opts));
  }

  lemma DeliverDecreases(c: Config, s: State, w: nat, pages: nat)
    requires Enabled(s, Deliver(w))
    ensures MeasureIn(Apply(c, s, Deliver(w)), pages) < MeasureIn(s, pages)
  {
    SumUpdate(s.workers, Energy, w, Idle);
  }

  lemma FetchDecreases(c: Config, s: State, w: nat, pages: nat)
    requires Enabled(s, FetchOk(w))
    ensures MeasureIn(Apply(c, s, FetchOk(w)), pages) < MeasureIn(s, pages)
  {
    SumUpdate(s.workers, Energy, w, Apply(c, s, FetchOk(w)).workers[w]);
  }

  lemma ExitDecreases(c: Config, s: State, step: Step, w: nat, pages: nat)
    requires Enabled(s, step) && (step == FetchErr(w) || step == CloseDone(w) || step == Leave(w))
    ensures MeasureIn(Apply(c, s, step), pages) < MeasureIn(s, pages)
  {
    SumUpdate(s.workers, Energy, w, Exited);
  }

  /** Every step of a run takes something from the measure. */
  lemma {:induction false} MeasureFalls(c: Config, run: seq<State>, steps: seq<Step>, i: nat)
    requires c.fetchRate > 0 && IsRun(c, run, steps) && i < |run|
    ensures i <= Measure(c, run[0]) - Measure(c, run[i])
  {
    if i > 0 {
      MeasureFalls(c, run, steps, i - 1);
      RunInv(c, run, steps, i - 1);
      assert steps[i - 1] == steps[i - 1];
      StepDecreases(c, run[i - 1], steps[i - 1]);
    }
  }

  lemma MeasureAtStart(c: Config)
    requires c.fetchRate > 0
    ensures Measure(c, Init(c)) == 4 * FullPages(c) + 24
  {
    SumSame(Init(c).workers, Idle, Energy);
  }

  lemma MeasureIsNat(c: Config, s: State)
    requires c.fetchRate > 0 && Inv(c, s)
    ensures 0 <= Measure(c, s)
  {
    IssuedBound(c, s);
  }

  /** So no schedule runs forever: a run has at most as many steps as the measure starts with. */
  lemma RunIsFinite(c: Config, run: seq<State>, steps: seq<Step>, i: nat)
    requires c.fetchRate > 0 && IsRun(c, run, steps) && i < |run|
    ensures i <= Measure(c, run[0]) - Measure(c, run[i])
    ensures i <= 4 * FullPages(c) + 24
  {
    RunInv(c, run, steps, i);
    MeasureFalls(c, run, steps, i);
    MeasureAtStart(c);
    MeasureIsNat(c, run[i]);
  }

  /** Where a run comes to rest ListTasks has returned, and the generator goroutine has exited
      exactly when some worker saw the empty page; otherwise all four fetches failed and it stays blocked. */
  lemma MaximalRun(c: Config, run: seq<State>, steps: seq<Step>)
    requires c.fetchRate > 0 && IsRun(c, run, steps)
    requires forall step :: !Enabled(run[|steps|], step)
    ensures var s := run[|steps|];
            && s.caller.Returned?
            && (s.gen.Stopped? <==> s.empties.Then?)
            && (s.gen.Offering? ==> Length(s.failed) == LIST_TASK_WORKERS)
  {
    var s := run[|steps|];
    RunInv(c, run, steps, |steps|);
    if !s.caller.Returned? { Progress(c, s); }
    assert !Enabled(s, StopGenerator);
    SumSame(s.workers, Exited, Gone);
  }

  // ---------- what ListTasks returns ----------

  lemma {:induction false} PagesPastEnd(c: Config, t: Trail)
    requires PastEnd(c, t)
    ensures Pages(c, t) == []
  {
    if t.Then? { PagesPastEnd(c, t.before); }
  }

  lemma Times(k: nat, f: nat)
    ensures (k + 1) * f == k * f + f
  {
  }

  lemma PageExtends(c: Config, o: nat)
    ensures c.tasks[..Min(o, |c.tasks|)] + Page(c, o) == c.tasks[..Min(o + c.fetchRate, |c.tasks|)]
  {
  }

  /** The part of the list that the first k option sets ask for. */
  function Asked(c: Config, k: nat): seq<Task> {
    c.tasks[..Min(k * c.fetchRate, |c.tasks|)]
  }

  /** The pages at the first k offsets are a prefix of the unpaginated list. */
  lemma {:induction false} IssuedInOrder(c: Config, task: Task, k: nat)
    ensures IssuedTotal(OfTask(c, task), c.fetchRate, k) == multiset(Asked(c, k))[task]
  {
    if k > 0 {
      IssuedInOrder(c, task, k - 1);
      PageExtends(c, (k - 1) * c.fetchRate);
      Times(k - 1, c.fetchRate);
    }
  }

  /** The generator never hands out an offset twice. */
  lemma {:induction false} IssuedOnce(fetchRate: nat, o: nat, k: nat)
    requires fetchRate > 0
    ensures IssuedTotal(AtOffset(o), fetchRate, k) <= 1
    ensures IssuedTotal(AtOffset(o), fetchRate, k) > 0 ==> o < k * fetchRate
  {
    if k > 0 {
      IssuedOnce(fetchRate, o, k - 1);
      Times(k - 1, fetchRate);
    }
  }

  /** With fetch errors allowed anywhere, the result is a union of whole pages at distinct offsets.
      Together with the pages whose fetch failed it is the part of the list that was asked for,
      which is the whole list as soon as one worker saw the empty page. */
  lemma ReturnedPages(c: Config, s: State)
    requires c.fetchRate > 0 && Inv(c, s) && s.caller.Returned?
    ensures s.allTasks == Pages(c, s.gathered)
    ensures forall o: nat :: Total(AtOffset(o), s.gathered) + Total(AtOffset(o), s.failed) <= 1
    ensures multiset(s.allTasks) + multiset(Pages(c, s.failed))
         == multiset(Asked(c, s.issued))
    ensures s.empties.Then? ==> multiset(s.allTasks) + multiset(Pages(c, s.failed)) == multiset(c.tasks)
    ensures s.empties.Start? ==> Length(s.failed) == LIST_TASK_WORKERS
  {
    SumSame(s.workers, Exited, Gone);
    forall o: nat ensures Total(AtOffset(o), s.gathered) + Total(AtOffset(o), s.failed) <= 1 {
      ReturnedTotals(c, s, AtOffset(o));
      IssuedOnce(c.fetchRate, o, s.issued);
    }
    ReturnedTasks(c, s);
    if s.empties.Then? {
      ReturnedTotals(c, s, AtOffset(s.empties.offset));
      IssuedOnce(c.fetchRate, s.empties.offset, s.issued);
      assert c.tasks[..|c.tasks|] == c.tasks;
    }
  }

  lemma ReturnedTotals(c: Config, s: State, f: Tally)
    requires c.fetchRate > 0 && Inv(c, s) && s.caller.Returned?
    ensures IssuedTotal(f, c.fetchRate, s.issued) == Total(f, s.gathered) + Total(f, s.failed) + Total(f, s.empties)
  {
    assert ConservedAt(c, s, f);
    SumSame(s.workers, Exited, Holding(f));
  }

  lemma ReturnedTask(c: Config, s: State, t: Task)
    requires c.fetchRate > 0 && Inv(c, s) && s.caller.Returned?
    ensures multiset(s.allTasks)[t] + multiset(Pages(c, s.failed))[t]
         == multiset(Asked(c, s.issued))[t]
  {
    ReturnedTotals(c, s, OfTask(c, t));
    TotalOfTask(c, t, s.gathered);
    TotalOfTask(c, t, s.failed);
    TotalOfTask(c, t, s.empties);
    PagesPastEnd(c, s.empties);
    IssuedInOrder(c, t, s.issued);
  }

  lemma ReturnedTasks(c: Config, s: State)
    requires c.fetchRate > 0 && Inv(c, s) && s.caller.Returned?
    ensures multiset(s.allTasks) + multiset(Pages(c, s.failed))
         == multiset(Asked(c, s.issued))
  {
    var got, lost := multiset(s.allTasks), multiset(Pages(c, s.failed));
    var asked := multiset(Asked(c, s.issued));
    forall t ensures got[t] + lost[t] == asked[t] { ReturnedTask(c, s, t); }
    SameCounts(got, lost, asked);
  }

  lemma SameCounts<T>(a: multiset<T>, b: multiset<T>, all: multiset<T>)
    requires forall t :: a[t] + b[t] == all[t]
    ensures a + b == all
  {
  }

  /** Over whole runs: with no fetch error, every interleaving returns exactly the unpaginated list. */
  lemma RunReturnsAll(c: Config, run: seq<State>, steps: seq<Step>)
    requires c.fetchRate > 0 && IsRun(c, run, steps)
    requires forall i {:trigger steps[i]} :: 0 <= i < |steps| ==> !steps[i].FetchErr?
    requires run[|run| - 1].caller.Returned?
    ensures multiset(run[|run| - 1].allTasks) == multiset(c.tasks)
  {
    RunInv(c, run, steps, |run| - 1);
    NoFailures(c, run, steps, |run| - 1);
    ReturnedPages(c, run[|run| - 1]);
  }

  lemma {:induction false} NoFailures(c: Config, run: seq<State>, steps: seq<Step>, i: nat)
    requires IsRun(c, run, steps) && i < |run|
    requires forall i {:trigger steps[i]} :: 0 <= i < |steps| ==> !steps[i].FetchErr?
    ensures run[i].failed.Start?
  {
    if i > 0 {
      NoFailures(c, run, steps, i - 1);
      KeepsFailed(c, run[i - 1], steps[i - 1]);
    }
  }

  lemma KeepsFailed(c: Config, s: State, step: Step)
    requires Enabled(s, step) && !step.FetchErr?
    ensures Apply(c, s, step).failed == s.failed
  {
    match step
    case Handoff(w) =>
    case FetchOk(w) =>
    case CloseDone(w) =>
    case Deliver(w) =>
    case _ =>
  }

  // ---------- ListTasks ----------

  function AllSteps(): set<Step> {
    (set w | 0 <= w < LIST_TASK_WORKERS :: Handoff(w)) + (set w | 0 <= w < LIST_TASK_WORKERS :: FetchOk(w))
    + (set w | 0 <= w < LIST_TASK_WORKERS :: FetchErr(w)) + (set w | 0 <= w < LIST_TASK_WORKERS :: CloseDone(w))
    + (set w | 0 <= w < LIST_TASK_WORKERS :: Deliver(w)) + (set w | 0 <= w < LIST_TASK_WORKERS :: Leave(w))
    + {StopGenerator, Gather, GatherEnd, CloseTaskChan, Return}
  }

  function Runnable(s: State, reachable: bool): set<Step> {
    set step | step in AllSteps() && Enabled(s, step) && !(reachable && step.FetchErr?)
  }

  lemma SomethingRunnable(c: Config, s: State, reachable: bool)
    requires c.fetchRate > 0 && Inv(c, s) && !s.caller.Returned?
    ensures Runnable(s, reachable) != {}
  {
    Progress(c, s);
    var step :| Enabled(s, step);
    var better := if step.FetchErr? then FetchOk(step.w) else step;
    EnabledIsListed(s, better);
    assert better in Runnable(s, reachable);
  }

  lemma EnabledIsListed(s: State, step: Step)
    requires Enabled(s, step) && |s.workers| == LIST_TASK_WORKERS
    ensures step in AllSteps()
  {
  }

  lemma SubList(tasks: seq<Task>, k: nat)
    requires k <= |tasks|
    ensures multiset(tasks[..k]) <= multiset(tasks)
  {
    assert tasks == tasks[..k] + tasks[k..];
  }

  /** ListTasks under an arbitrary scheduler: each turn takes any one step that is enabled.
      `reachable` says whether requests can fail; `direct` is the reply to a request made as is. */
  method ListTasks(c: Config, opts: Options, reachable: bool, direct: Result<seq<Task>, string>)
    returns (r: Result<seq<Task>, string>)
    requires c.fetchRate > 0
    ensures opts != Options(0, 0) ==> r == direct
    ensures opts == Options(0, 0) ==> r.Ok?
    ensures opts == Options(0, 0) ==> multiset(r.value) <= multiset(c.tasks)
    ensures opts == Options(0, 0) && reachable ==> multiset(r.value) == multiset(c.tasks)
  {
    if opts.limit != 0 || opts.offset != 0 {
      return direct;
    }
    var s := Init(c);
    InitInv(c);
    while s.caller != Returned
      invariant Inv(c, s)
      invariant reachable ==> s.failed.Start?
      decreases Measure(c, s)
    {
      SomethingRunnable(c, s, reachable);
      var step :| step in Runnable(s, reachable);
      StepInv(c, s, step);
      StepDecreases(c, s, step);
      s := Apply(c, s, step);
    }
    ReturnedPages(c, s);
    SubList(c.tasks, Min(s.issued * c.fetchRate, |c.tasks|));
    r := Ok(s.allTasks);
  }
}
