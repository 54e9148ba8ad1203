/** The bounded worker pool that tests channels: a producer, a fixed number of workers, a
    closer and a reducer over two unbuffered channels, with cancellation at any point.

    The protocol is a transition system. A rendezvous on an unbuffered channel is one step
    that moves both sides. `fate`, `runs` and `results` record history; no step reads them. */
module WorkerPool {

  import opened Basics
  import opened HealthCheck

  /** One flag per channel: whether it is nil or manually disabled, hence not run. */
  datatype Config = Config(skipped: seq<bool>, concurrency: int, interval: bool)

  const DEFAULT_CONCURRENCY := 1
  const MAX_CONCURRENCY := 32

  function NormalizeConcurrency(concurrency: int): (n: int)
    ensures 1 <= n <= MAX_CONCURRENCY
    ensures 1 <= concurrency <= MAX_CONCURRENCY ==> n == concurrency
    ensures concurrency > MAX_CONCURRENCY ==> n == MAX_CONCURRENCY
    ensures concurrency < 1 ==> n == DEFAULT_CONCURRENCY
  {
    if concurrency < 1 then DEFAULT_CONCURRENCY
    else if concurrency > MAX_CONCURRENCY then MAX_CONCURRENCY
    else concurrency
  }

  function WorkerCount(c: Config): (n: nat) {
    var n := NormalizeConcurrency(c.concurrency);
    if n < |c.skipped| then n else |c.skipped|
  }

  /** Where a worker goroutine stands. */
  datatype Worker =
    | Idle                                   // at the select over ctx and jobs
    | Got(job: nat)                          // received a job, about to look at ctx
    | Running(job: nat)                      // inside run
    | Sending(job: nat, result: Summary)     // at results <- result
    | Pausing                                // at the select over ctx and the interval timer
    | Done                                   // returned, wait group released

  datatype Fate = Unsent | Held(worker: nat) | Delivered | Dropped

  /** The goroutine that called the pool: it receives results and folds them. */
  datatype Reducer = Reducer(inbox: Option<Summary>, summary: Summary, processed: nat, reports: seq<nat>,
                             returned: bool)

  /** Per channel: what became of it, how often it was run, and the result it produced. */
  datatype History = History(fate: seq<Fate>, runs: seq<nat>, results: seq<Summary>)

  datatype State = State(
    cancelled: bool,
    next: nat, producing: bool, jobsClosed: bool,
    workers: seq<Worker>, waitGroup: int, resultsClosed: bool,
    reducer: Reducer,
    history: History)

  datatype Step =
    | Cancel
    | Hand(w: nat)
    | StopProducing
    | FinishProducing
    | LeaveCancelled(w: nat)
    | LeaveClosed(w: nat)
    | Check(w: nat)
    | Finish(w: nat, result: Summary)
    | Deliver(w: nat)
    | Resume(w: nat)
    | CloseResults
    | Reduce
    | Return

  function Init(c: Config): State {
    var total := |c.skipped|;
    State(false, 0, true, false, seq(WorkerCount(c), _ => Idle), WorkerCount(c), false,
          Reducer(None, ZERO, 0, [0], false),
          History(seq(total, _ => Unsent), seq(total, _ => 0), seq(total, _ => ZERO)))
  }

  predicate WellSized(h: History, total: nat) {
    |h.fate| == |h.runs| == |h.results| == total
  }

  predicate At(s: State, w: nat) { w < |s.workers| }

  ghost predicate Enabled(c: Config, s: State, step: Step) {
    WellSized(s.history, |c.skipped|) &&
    match step
    case Cancel => !s.cancelled
    case Hand(w) => s.producing && s.next < |c.skipped| && At(s, w) && s.workers[w].Idle?
    case StopProducing => s.producing && s.cancelled && s.next < |c.skipped|
    case FinishProducing => s.producing && s.next == |c.skipped|
    case LeaveCancelled(w) => s.cancelled && At(s, w) && (s.workers[w].Idle? || s.workers[w].Pausing?)
    case LeaveClosed(w) => s.jobsClosed && At(s, w) && s.workers[w].Idle?
    case Check(w) => At(s, w) && s.workers[w].Got? && s.workers[w].job < |c.skipped|
    case Finish(w, result) => At(s, w) && s.workers[w].Running? && s.workers[w].job < |c.skipped| &&
                              Lawful(result, 1) && (!s.cancelled ==> result.tested == 1)
    case Deliver(w) => At(s, w) && s.workers[w].Sending? && s.workers[w].job < |c.skipped| &&
                       s.reducer.inbox.None? && !s.reducer.returned
    case Resume(w) => At(s, w) && s.workers[w].Pausing?
    case CloseResults => s.waitGroup == 0 && !s.resultsClosed
    case Reduce => s.reducer.inbox.Some?
    case Return => s.resultsClosed && s.reducer.inbox.None? && !s.reducer.returned
  }

  predicate MovesWorker(step: Step) {
    || step.Hand? || step.LeaveCancelled? || step.LeaveClosed? || step.Check? || step.Finish? || step.Deliver?
    || step.Resume?
  }

  predicate StopsProducer(step: Step) {
    step.StopProducing? || step.FinishProducing?
  }

  ghost function NextWorker(c: Config, s: State, step: Step): Worker
    requires Enabled(c, s, step) && MovesWorker(step)
  {
    match step
    case Hand(_) => Got(s.next)
    case LeaveCancelled(_) => Done
    case LeaveClosed(_) => Done
    case Check(w) =>
      var job := s.workers[w].job;
      if s.cancelled then Done else if c.skipped[job] then Sending(job, ZERO) else Running(job)
    case Finish(w, result) => Sending(s.workers[w].job, result)
    case Deliver(_) => if c.interval then Pausing else Idle
    case Resume(_) => Idle
  }

  ghost function NextFate(c: Config, s: State, step: Step): seq<Fate>
    requires Enabled(c, s, step)
  {
    var fate := s.history.fate;
    match step
    case Hand(w) => fate[s.next := Held(w)]
    case Check(w) => if s.cancelled then fate[s.workers[w].job := Dropped] else fate
    case Deliver(w) => fate[s.workers[w].job := Delivered]
    case _ => fate
  }

  /** `run` is called once for every job that a worker finds neither cancelled nor skipped. */
  ghost function NextRuns(c: Config, s: State, step: Step): seq<nat>
    requires Enabled(c, s, step)
  {
    var runs := s.history.runs;
    if step.Check? && NextWorker(c, s, step).Running?
    then runs[s.workers[step.w].job := runs[s.workers[step.w].job] + 1]
    else runs
  }

  ghost function NextResults(c: Config, s: State, step: Step): seq<Summary>
    requires Enabled(c, s, step)
  {
    if (step.Check? || step.Finish?) && NextWorker(c, s, step).Sending?
    then s.history.results[s.workers[step.w].job := NextWorker(c, s, step).result]
    else s.history.results
  }

  ghost function NextReducer(c: Config, s: State, step: Step): Reducer
    requires Enabled(c, s, step)
  {
    var r := s.reducer;
    match step
    case Deliver(w) => r.(inbox := Some(s.workers[w].result))
    case Reduce =>
      Reducer(None, Add(r.summary, r.inbox.value), r.processed + 1,
              if s.cancelled then r.reports else r.reports + [r.processed + 1], r.returned)
    case Return => r.(returned := true)
    case _ => r
  }

  ghost function NextWorkers(c: Config, s: State, step: Step): seq<Worker>
    requires Enabled(c, s, step)
  {
    if MovesWorker(step) then s.workers[step.w := NextWorker(c, s, step)] else s.workers
  }

  ghost function NextHistory(c: Config, s: State, step: Step): History
    requires Enabled(c, s, step)
  {
    History(NextFate(c, s, step), NextRuns(c, s, step), NextResults(c, s, step))
  }

  ghost function Apply(c: Config, s: State, step: Step): State
    requires Enabled(c, s, step)
  {
    State(
      s.cancelled || step.Cancel?,
      if step.Hand? then s.next + 1 else s.next,
      s.producing && !StopsProducer(step),
      s.jobsClosed || StopsProducer(step),
      NextWorkers(c, s, step),
      if MovesWorker(step) && NextWorker(c, s, step).Done? then s.waitGroup - 1 else s.waitGroup,
      s.resultsClosed || step.CloseResults?,
      NextReducer(c, s, step),
      NextHistory(c, s, step))
  }

  // ---- Sums over workers and over delivered jobs ----

  function Live(w: Worker): nat { if w.Done? then 0 else 1 }

  function Total(ws: seq<Worker>, f: Worker -> nat): nat {
    if ws == [] then 0 else Total(ws[..|ws| - 1], f) + f(ws[|ws| - 1])
  }

  lemma {:induction false} TotalUpdate(ws: seq<Worker>, f: Worker -> nat, w: nat, x: Worker)
    requires w < |ws|
    ensures Total(ws[w := x], f) == Total(ws, f) - f(ws[w]) + f(x)
  {
    var n := |ws| - 1;
    if w < n {
      assert ws[w := x][..n] == ws[..n][w := x];
      TotalUpdate(ws[..n], f, w, x);
    } else {
      assert ws[w := x][..n] == ws[..n];
    }
  }

  lemma {:induction false} NoneLive(ws: seq<Worker>)
    ensures Total(ws, Live) == 0 <==> forall w :: 0 <= w < |ws| ==> ws[w].Done?
  {
    if ws != [] {
      NoneLive(ws[..|ws| - 1]);
      assert forall w :: 0 <= w < |ws| - 1 ==> ws[w] == ws[..|ws| - 1][w];
    }
  }

  /** The sum of the results, and the number, of the delivered jobs among the first `n`. */
  function SumDelivered(fate: seq<Fate>, results: seq<Summary>, n: nat): Summary
    requires n <= |fate| == |results|
  {
    if n == 0 then ZERO
    else if fate[n - 1].Delivered? then Add(SumDelivered(fate, results, n - 1), results[n - 1])
    else SumDelivered(fate, results, n - 1)
  }

  function CountDelivered(fate: seq<Fate>, n: nat): (k: nat)
    requires n <= |fate|
    ensures k <= n
  {
    if n == 0 then 0 else CountDelivered(fate, n - 1) + if fate[n - 1].Delivered? then 1 else 0
  }

  lemma {:induction false} DeliverAdds(fate: seq<Fate>, results: seq<Summary>, job: nat, n: nat)
    requires job < |fate| == |results| && n <= |fate| && !fate[job].Delivered?
    ensures SumDelivered(fate[job := Delivered], results, n)
            == if job < n then Add(SumDelivered(fate, results, n), results[job]) else SumDelivered(fate, results, n)
    ensures CountDelivered(fate[job := Delivered], n) == CountDelivered(fate, n) + if job < n then 1 else 0
  {
    if n > 0 {
      DeliverAdds(fate, results, job, n - 1);
    }
  }

  /** Jobs that are not delivered do not matter to either total. */
  lemma {:induction false} TotalsIgnoreOthers(fate: seq<Fate>, results: seq<Summary>, fate': seq<Fate>,
                                              results': seq<Summary>, n: nat)
    requires n <= |fate| == |results| == |fate'| == |results'|
    requires forall i :: 0 <= i < n ==> fate[i].Delivered? == fate'[i].Delivered?
    requires forall i :: 0 <= i < n && fate[i].Delivered? ==> results[i] == results'[i]
    ensures SumDelivered(fate, results, n) == SumDelivered(fate', results', n)
    ensures CountDelivered(fate, n) == CountDelivered(fate', n)
  {
    if n > 0 {
      TotalsIgnoreOthers(fate, results, fate', results', n - 1);
    }
  }

  // ---- The invariant ----

  predicate Carries(w: Worker) {
    w.Got? || w.Running? || w.Sending?
  }

  /** Goroutines and channels: who may still send, and when each channel is closed. */
  ghost predicate Lifecycle(c: Config, s: State) {
    && |s.workers| == WorkerCount(c)
    && s.next <= |c.skipped|
    && s.producing == !s.jobsClosed
    && (s.jobsClosed && !s.cancelled ==> s.next == |c.skipped|)
    && s.waitGroup == Total(s.workers, Live)
    && (s.resultsClosed ==> s.waitGroup == 0)
    && (s.reducer.returned ==> s.resultsClosed && s.reducer.inbox.None?)
    && (forall w :: 0 <= w < |s.workers| && s.workers[w].Done? ==> s.cancelled || s.jobsClosed)
  }

  /** Worker `w` carries job `i` exactly when the fate of `i` is to be held by `w`. */
  ghost predicate Linked(workers: seq<Worker>, fate: seq<Fate>) {
    && (forall w :: 0 <= w < |workers| && Carries(workers[w]) ==>
          workers[w].job < |fate| && fate[workers[w].job] == Held(w))
    && (forall i :: 0 <= i < |fate| && fate[i].Held? ==>
          fate[i].worker < |workers| && Carries(workers[fate[i].worker]) && workers[fate[i].worker].job == i)
  }

  /** Jobs go out in order, and only cancellation drops one. */
  ghost predicate Custody(next: nat, cancelled: bool, fate: seq<Fate>) {
    && (forall i :: 0 <= i < |fate| ==> (fate[i].Unsent? <==> i >= next))
    && (forall i :: 0 <= i < |fate| && fate[i].Dropped? ==> cancelled)
  }

  function ExpectedRuns(skipped: bool): nat { if skipped then 0 else 1 }

  predicate Acceptable(skipped: bool, runs: nat, result: Summary) {
    runs == ExpectedRuns(skipped) && Lawful(result, 1) && (skipped ==> result == ZERO)
  }

  /** What has happened to a job so far: run at most once, and never a skipped one. */
  ghost predicate Record(skipped: bool, fate: Fate, runs: nat, result: Summary, workers: seq<Worker>) {
    match fate
    case Unsent => runs == 0
    case Dropped => runs == 0
    case Delivered => Acceptable(skipped, runs, result)
    case Held(w) =>
      && (w < |workers| && workers[w].Got? ==> runs == 0)
      && (w < |workers| && workers[w].Running? ==> runs == 1 && !skipped)
      && (w < |workers| && workers[w].Sending? ==> result == workers[w].result && Acceptable(skipped, runs, result))
  }

  ghost predicate Records(skipped: seq<bool>, workers: seq<Worker>, h: History)
    requires WellSized(h, |skipped|)
  {
    forall i :: 0 <= i < |skipped| ==> Record(skipped[i], h.fate[i], h.runs[i], h.results[i], workers)
  }

  /** The job was run and its result is on its way or delivered: it counts as one. */
  ghost predicate CountsOne(skipped: bool, fate: Fate, result: Summary, workers: seq<Worker>) {
    var sent := fate.Delivered? || (fate.Held? && fate.worker < |workers| && workers[fate.worker].Sending?);
    !skipped && sent ==> result.tested == 1
  }

  /** Until a cancellation, every channel that was run counts. */
  ghost predicate Counted(skipped: seq<bool>, cancelled: bool, workers: seq<Worker>, h: History)
    requires WellSized(h, |skipped|)
  {
    !cancelled ==> forall i :: 0 <= i < |skipped| ==> CountsOne(skipped[i], h.fate[i], h.results[i], workers)
  }

  /** The reducer accounts for exactly what was delivered. */
  ghost predicate Accounts(r: Reducer, fate: seq<Fate>, results: seq<Summary>)
    requires |fate| == |results|
  {
    && (if r.inbox.Some? then Add(r.summary, r.inbox.value) else r.summary) == SumDelivered(fate, results, |fate|)
    && (if r.inbox.Some? then r.processed + 1 else r.processed) == CountDelivered(fate, |fate|)
  }

  /** Progress reports are 0, 1, 2, … and keep up with the reducer until cancellation. */
  ghost predicate Progress(r: Reducer, cancelled: bool) {
    && 1 <= |r.reports| <= r.processed + 1
    && (forall k :: 0 <= k < |r.reports| ==> r.reports[k] == k)
    && (!cancelled ==> |r.reports| == r.processed + 1)
  }

  ghost predicate Inv(c: Config, s: State) {
    && WellSized(s.history, |c.skipped|)
    && Lifecycle(c, s)
    && Linked(s.workers, s.history.fate)
    && Custody(s.next, s.cancelled, s.history.fate)
    && Records(c.skipped, s.workers, s.history)
    && Accounts(s.reducer, s.history.fate, s.history.results)
    && Progress(s.reducer, s.cancelled)
    && Counted(c.skipped, s.cancelled, s.workers, s.history)
  }

  lemma {:induction false} AllIdle(ws: seq<Worker>)
    requires forall w :: 0 <= w < |ws| ==> ws[w].Idle?
    ensures Total(ws, Live) == |ws|
  {
    if ws != [] {
      AllIdle(ws[..|ws| - 1]);
    }
  }

  lemma {:induction false} NothingDelivered(fate: seq<Fate>, results: seq<Summary>, n: nat)
    requires n <= |fate| == |results|
    requires forall i :: 0 <= i < n ==> fate[i].Unsent?
    ensures SumDelivered(fate, results, n) == ZERO && CountDelivered(fate, n) == 0
  {
    if n > 0 {
      NothingDelivered(fate, results, n - 1);
    }
  }

  lemma InitHolds(c: Config)
    ensures Inv(c, Init(c))
  {
    var s := Init(c);
    AllIdle(s.workers);
    NothingDelivered(s.history.fate, s.history.results, |c.skipped|);
  }

  // ---- Every step keeps the invariant ----

  lemma LifecycleKept(c: Config, s: State, step: Step)
    requires Enabled(c, s, step) && Lifecycle(c, s)
    ensures Lifecycle(c, Apply(c, s, step))
  {
    var s' := Apply(c, s, step);
    NoneLive(s.workers);
    if MovesWorker(step) {
      TotalUpdate(s.workers, Live, step.w, s'.workers[step.w]);
    }
  }

  lemma LinkTaken(workers: seq<Worker>, fate: seq<Fate>, w: nat, job: nat)
    requires Linked(workers, fate) && w < |workers| && !Carries(workers[w])
    requires job < |fate| && !fate[job].Held?
    ensures Linked(workers[w := Got(job)], fate[job := Held(w)])
  {
  }

  lemma LinkCarriedOn(workers: seq<Worker>, fate: seq<Fate>, w: nat, x: Worker)
    requires Linked(workers, fate) && w < |workers|
    requires Carries(workers[w]) == Carries(x) && (Carries(x) ==> workers[w].job == x.job)
    ensures Linked(workers[w := x], fate)
  {
  }

  lemma LinkReleased(workers: seq<Worker>, fate: seq<Fate>, w: nat, x: Worker, end: Fate)
    requires Linked(workers, fate) && w < |workers| && Carries(workers[w]) && !Carries(x) && !end.Held?
    ensures Linked(workers[w := x], fate[workers[w].job := end])
  {
  }

  lemma CustodyKept(c: Config, s: State, step: Step)
    requires Enabled(c, s, step) && Linked(s.workers, s.history.fate)
    requires Custody(s.next, s.cancelled, s.history.fate)
    ensures Custody(Apply(c, s, step).next, Apply(c, s, step).cancelled, Apply(c, s, step).history.fate)
  {
  }

  lemma LinkKept(c: Config, s: State, step: Step)
    requires Enabled(c, s, step) && Linked(s.workers, s.history.fate)
    requires s.next < |c.skipped| ==> s.history.fate[s.next].Unsent?
    ensures Linked(Apply(c, s, step).workers, Apply(c, s, step).history.fate)
  {
    var s', fate := Apply(c, s, step), s.history.fate;
    if step.Hand? {
      LinkTaken(s.workers, fate, step.w, s.next);
    } else if step.Deliver? || (step.Check? && s.cancelled) {
      LinkReleased(s.workers, fate, step.w, s'.workers[step.w], s'.history.fate[s.workers[step.w].job]);
    } else if MovesWorker(step) {
      LinkCarriedOn(s.workers, fate, step.w, s'.workers[step.w]);
    }
  }

  /** The record of job `i` in a history. */
  ghost predicate RecordOf(c: Config, workers: seq<Worker>, h: History, i: nat) {
    && WellSized(h, |c.skipped|) && i < |c.skipped|
    && Record(c.skipped[i], h.fate[i], h.runs[i], h.results[i], workers)
  }

  lemma CheckedRecord(c: Config, s: State, step: Step)
    requires step.Check? && Enabled(c, s, step) && s.history.fate[s.workers[step.w].job] == Held(step.w)
    requires RecordOf(c, s.workers, s.history, s.workers[step.w].job)
    ensures RecordOf(c, NextWorkers(c, s, step), NextHistory(c, s, step), s.workers[step.w].job)
  {
    var h, i := NextHistory(c, s, step), s.workers[step.w].job;
    if s.cancelled {
      assert h.fate[i] == Dropped && h.runs[i] == s.history.runs[i] == 0;
    } else if c.skipped[i] {
      assert h.results[i] == ZERO && h.runs[i] == 0;
    } else {
      assert h.runs[i] == 1;
    }
  }

  lemma FinishedRecord(c: Config, s: State, step: Step)
    requires step.Finish? && Enabled(c, s, step) && s.history.fate[s.workers[step.w].job] == Held(step.w)
    requires RecordOf(c, s.workers, s.history, s.workers[step.w].job)
    ensures RecordOf(c, NextWorkers(c, s, step), NextHistory(c, s, step), s.workers[step.w].job)
  {
    var h, i := NextHistory(c, s, step), s.workers[step.w].job;
    assert h.fate[i] == Held(step.w) && h.runs[i] == 1 && h.results[i] == step.result;
  }

  lemma SentIsAcceptable(skipped: bool, runs: nat, result: Summary, workers: seq<Worker>, w: nat)
    requires Record(skipped, Held(w), runs, result, workers) && w < |workers| && workers[w].Sending?
    ensures Acceptable(skipped, runs, result)
  {
  }

  lemma AcceptableRecord(c: Config, workers: seq<Worker>, h: History, i: nat)
    requires WellSized(h, |c.skipped|) && i < |c.skipped| && h.fate[i] == Delivered
    requires Acceptable(c.skipped[i], h.runs[i], h.results[i])
    ensures RecordOf(c, workers, h, i)
  {
  }

  lemma DeliveredFields(c: Config, s: State, step: Step)
    requires step.Deliver? && Enabled(c, s, step)
    ensures
      var h, i := NextHistory(c, s, step), s.workers[step.w].job;
      && WellSized(h, |c.skipped|)
      && h.fate[i] == Delivered && h.runs[i] == s.history.runs[i] && h.results[i] == s.history.results[i]
  {
  }

  lemma DeliveredRecord(c: Config, s: State, step: Step)
    requires step.Deliver? && Enabled(c, s, step) && s.history.fate[s.workers[step.w].job] == Held(step.w)
    requires RecordOf(c, s.workers, s.history, s.workers[step.w].job)
    ensures RecordOf(c, NextWorkers(c, s, step), NextHistory(c, s, step), s.workers[step.w].job)
  {
    var i := s.workers[step.w].job;
    SentIsAcceptable(c.skipped[i], s.history.runs[i], s.history.results[i], s.workers, step.w);
    DeliveredFields(c, s, step);
    AcceptableRecord(c, NextWorkers(c, s, step), NextHistory(c, s, step), i);
  }

  lemma HandedRecord(c: Config, s: State, w: nat)
    requires Enabled(c, s, Hand(w)) && RecordOf(c, s.workers, s.history, s.next) && s.history.fate[s.next].Unsent?
    ensures RecordOf(c, NextWorkers(c, s, Hand(w)), NextHistory(c, s, Hand(w)), s.next)
  {
    var h := NextHistory(c, s, Hand(w));
    assert h.fate[s.next] == Held(w) && h.runs[s.next] == s.history.runs[s.next];
  }

  /** A worker that moves touches the history of the job it carries or takes, and of no other. */
  lemma HistoryElsewhere(c: Config, s: State, step: Step, i: nat)
    requires Enabled(c, s, step) && MovesWorker(step) && i < |c.skipped|
    requires step.Hand? ==> i != s.next
    requires Carries(s.workers[step.w]) ==> s.workers[step.w].job != i
    ensures
      var h := NextHistory(c, s, step);
      && WellSized(h, |c.skipped|)
      && h.fate[i] == s.history.fate[i] && h.runs[i] == s.history.runs[i] && h.results[i] == s.history.results[i]
  {
  }

  lemma RecordSurvives(skipped: bool, fate: Fate, runs: nat, result: Summary, workers: seq<Worker>, w: nat, x: Worker)
    requires Record(skipped, fate, runs, result, workers) && w < |workers| && fate != Held(w)
    ensures Record(skipped, fate, runs, result, workers[w := x])
  {
  }

  /** The job a worker carries, when that worker moves. */
  lemma RecordOfCarrier(c: Config, s: State, step: Step)
    requires Enabled(c, s, step) && MovesWorker(step) && Carries(s.workers[step.w])
    requires s.workers[step.w].job < |c.skipped| && s.history.fate[s.workers[step.w].job] == Held(step.w)
    requires RecordOf(c, s.workers, s.history, s.workers[step.w].job)
    ensures RecordOf(c, NextWorkers(c, s, step), NextHistory(c, s, step), s.workers[step.w].job)
  {
    if step.Check? {
      CheckedRecord(c, s, step);
    } else if step.Finish? {
      FinishedRecord(c, s, step);
    } else {
      DeliveredRecord(c, s, step);
    }
  }

  /** A job that the moving worker neither carries nor takes. */
  lemma RecordElsewhere(c: Config, s: State, step: Step, i: nat)
    requires Enabled(c, s, step) && MovesWorker(step) && RecordOf(c, s.workers, s.history, i)
    requires s.history.fate[i] != Held(step.w) && (step.Hand? ==> i != s.next)
    requires Carries(s.workers[step.w]) ==> s.workers[step.w].job != i
    ensures RecordOf(c, NextWorkers(c, s, step), NextHistory(c, s, step), i)
  {
    var h, x := s.history, NextWorker(c, s, step);
    RecordSurvives(c.skipped[i], h.fate[i], h.runs[i], h.results[i], s.workers, step.w, x);
    HistoryElsewhere(c, s, step, i);
  }

  lemma RecordKept(c: Config, s: State, step: Step, i: nat)
    requires Enabled(c, s, step) && MovesWorker(step) && RecordOf(c, s.workers, s.history, i)
    requires s.history.fate[i] == Held(step.w) <==> Carries(s.workers[step.w]) && s.workers[step.w].job == i
    requires i >= s.next ==> s.history.fate[i].Unsent?
    ensures RecordOf(c, NextWorkers(c, s, step), NextHistory(c, s, step), i)
  {
    if s.history.fate[i] == Held(step.w) {
      RecordOfCarrier(c, s, step);
    } else if step.Hand? && i == s.next {
      HandedRecord(c, s, step.w);
    } else {
      RecordElsewhere(c, s, step, i);
    }
  }

  lemma LinkedAt(workers: seq<Worker>, fate: seq<Fate>, w: nat, i: nat)
    requires Linked(workers, fate) && w < |workers| && i < |fate|
    ensures fate[i] == Held(w) <==> Carries(workers[w]) && workers[w].job == i
  {
  }

  lemma EachRecordKept(c: Config, s: State, step: Step, i: nat)
    requires Enabled(c, s, step) && Linked(s.workers, s.history.fate)
    requires Custody(s.next, s.cancelled, s.history.fate) && RecordOf(c, s.workers, s.history, i)
    ensures RecordOf(c, NextWorkers(c, s, step), NextHistory(c, s, step), i)
  {
    if MovesWorker(step) {
      LinkedAt(s.workers, s.history.fate, step.w, i);
      RecordKept(c, s, step, i);
    } else {
      assert NextHistory(c, s, step) == s.history && NextWorkers(c, s, step) == s.workers;
    }
  }

  lemma HistorySize(c: Config, s: State, step: Step)
    requires Enabled(c, s, step)
    ensures WellSized(NextHistory(c, s, step), |c.skipped|)
  {
  }

  lemma RecordsKept(c: Config, s: State, step: Step)
    requires Enabled(c, s, step) && Linked(s.workers, s.history.fate)
    requires Custody(s.next, s.cancelled, s.history.fate) && Records(c.skipped, s.workers, s.history)
    ensures WellSized(NextHistory(c, s, step), |c.skipped|)
    ensures Records(c.skipped, NextWorkers(c, s, step), NextHistory(c, s, step))
  {
    HistorySize(c, s, step);
    var workers, h := NextWorkers(c, s, step), NextHistory(c, s, step);
    forall i | 0 <= i < |c.skipped|
      ensures Record(c.skipped[i], h.fate[i], h.runs[i], h.results[i], workers)
    {
      assert RecordOf(c, s.workers, s.history, i);
      EachRecordKept(c, s, step, i);
    }
  }

  lemma CarrierCounts(c: Config, s: State, step: Step)
    requires Enabled(c, s, step) && MovesWorker(step) && Carries(s.workers[step.w]) && !s.cancelled
    requires s.workers[step.w].job < |c.skipped| && s.history.fate[s.workers[step.w].job] == Held(step.w)
    requires
      var i := s.workers[step.w].job;
      CountsOne(c.skipped[i], s.history.fate[i], s.history.results[i], s.workers)
    ensures
      var h, i := NextHistory(c, s, step), s.workers[step.w].job;
      && WellSized(h, |c.skipped|)
      && CountsOne(c.skipped[i], h.fate[i], h.results[i], NextWorkers(c, s, step))
  {
  }

  lemma CountsElsewhere(c: Config, s: State, step: Step, i: nat)
    requires Enabled(c, s, step) && MovesWorker(step) && i < |c.skipped|
    requires s.history.fate[i] != Held(step.w) && (step.Hand? ==> i != s.next)
    requires Carries(s.workers[step.w]) ==> s.workers[step.w].job != i
    requires CountsOne(c.skipped[i], s.history.fate[i], s.history.results[i], s.workers)
    ensures
      var h := NextHistory(c, s, step);
      && WellSized(h, |c.skipped|)
      && CountsOne(c.skipped[i], h.fate[i], h.results[i], NextWorkers(c, s, step))
  {
    HistoryElsewhere(c, s, step, i);
  }

  lemma EachStillCounts(c: Config, s: State, step: Step, i: nat)
    requires Enabled(c, s, step) && Linked(s.workers, s.history.fate) && !s.cancelled && i < |c.skipped|
    requires Custody(s.next, s.cancelled, s.history.fate)
    requires CountsOne(c.skipped[i], s.history.fate[i], s.history.results[i], s.workers)
    ensures
      var h := NextHistory(c, s, step);
      && WellSized(h, |c.skipped|)
      && CountsOne(c.skipped[i], h.fate[i], h.results[i], NextWorkers(c, s, step))
  {
    if !MovesWorker(step) {
      assert NextHistory(c, s, step) == s.history && NextWorkers(c, s, step) == s.workers;
    } else {
      LinkedAt(s.workers, s.history.fate, step.w, i);
      if s.history.fate[i] == Held(step.w) {
        CarrierCounts(c, s, step);
      } else if step.Hand? && i == s.next {
        assert NextHistory(c, s, step).fate[i] == Held(step.w) && NextWorkers(c, s, step)[step.w].Got?;
      } else {
        CountsElsewhere(c, s, step, i);
      }
    }
  }

  lemma CountedKept(c: Config, s: State, step: Step)
    requires Enabled(c, s, step) && Linked(s.workers, s.history.fate)
    requires Custody(s.next, s.cancelled, s.history.fate) && Counted(c.skipped, s.cancelled, s.workers, s.history)
    ensures WellSized(NextHistory(c, s, step), |c.skipped|)
    ensures Counted(c.skipped, s.cancelled, NextWorkers(c, s, step), NextHistory(c, s, step))
  {
    HistorySize(c, s, step);
    if !s.cancelled {
      forall i | 0 <= i < |c.skipped|
        ensures CountsOne(c.skipped[i], NextHistory(c, s, step).fate[i], NextHistory(c, s, step).results[i],
                          NextWorkers(c, s, step))
      {
        EachStillCounts(c, s, step, i);
      }
    }
  }

  lemma DeliverKeepsAccounts(c: Config, s: State, w: nat)
    requires Enabled(c, s, Deliver(w)) && Accounts(s.reducer, s.history.fate, s.history.results)
    requires !s.history.fate[s.workers[w].job].Delivered? && s.history.results[s.workers[w].job] == s.workers[w].result
    ensures
      Accounts(NextReducer(c, s, Deliver(w)), NextFate(c, s, Deliver(w)), NextResults(c, s, Deliver(w)))
  {
    DeliverAdds(s.history.fate, s.history.results, s.workers[w].job, |s.history.fate|);
  }

  lemma OthersKeepTotals(c: Config, s: State, step: Step)
    requires Enabled(c, s, step) && !step.Deliver? && Linked(s.workers, s.history.fate)
    requires Custody(s.next, s.cancelled, s.history.fate)
    ensures
      var fate, results := NextFate(c, s, step), NextResults(c, s, step);
      && |fate| == |results| == |c.skipped|
      && SumDelivered(fate, results, |fate|) == SumDelivered(s.history.fate, s.history.results, |s.history.fate|)
      && CountDelivered(fate, |fate|) == CountDelivered(s.history.fate, |s.history.fate|)
  {
    var fate, results := s.history.fate, s.history.results;
    TotalsIgnoreOthers(fate, results, NextFate(c, s, step), NextResults(c, s, step), |fate|);
  }

  lemma AccountsKept(c: Config, s: State, step: Step)
    requires Enabled(c, s, step) && Linked(s.workers, s.history.fate)
    requires Custody(s.next, s.cancelled, s.history.fate) && Records(c.skipped, s.workers, s.history)
    requires Accounts(s.reducer, s.history.fate, s.history.results)
    ensures |NextFate(c, s, step)| == |NextResults(c, s, step)|
    ensures Accounts(NextReducer(c, s, step), NextFate(c, s, step), NextResults(c, s, step))
  {
    if step.Deliver? {
      var h, job := s.history, s.workers[step.w].job;
      assert Record(c.skipped[job], h.fate[job], h.runs[job], h.results[job], s.workers);
      DeliverKeepsAccounts(c, s, step.w);
    } else {
      OthersKeepTotals(c, s, step);
    }
  }

  lemma StepKeepsInv(c: Config, s: State, step: Step)
    requires Inv(c, s) && Enabled(c, s, step)
    ensures Inv(c, Apply(c, s, step))
  {
    LifecycleKept(c, s, step);
    LinkKept(c, s, step);
    CustodyKept(c, s, step);
    RecordsKept(c, s, step);
    AccountsKept(c, s, step);
    CountedKept(c, s, step);
  }

  // ---- Whole runs ----

  ghost predicate Successor(c: Config, s: State, s': State) {
    exists step :: Enabled(c, s, step) && s' == Apply(c, s, step)
  }

  /** Any interleaving of the goroutines, with cancellation at any point or never. */
  ghost predicate IsRun(c: Config, run: seq<State>) {
    && run != []
    && run[0] == Init(c)
    && forall k :: 0 < k < |run| ==> Successor(c, run[k - 1], run[k])
  }

  lemma {:induction false} RunKeepsInv(c: Config, run: seq<State>)
    requires IsRun(c, run)
    ensures Inv(c, run[|run| - 1])
  {
    var last := |run| - 1;
    if last == 0 {
      InitHolds(c);
    } else {
      RunKeepsInv(c, run[..last]);
      assert Successor(c, run[last - 1], run[last]);
      var step :| Enabled(c, run[last - 1], step) && run[last] == Apply(c, run[last - 1], step);
      StepKeepsInv(c, run[last - 1], step);
    }
  }

  function HeldBelow(fate: seq<Fate>, n: nat): set<nat> {
    set i: nat | i < |fate| && fate[i].Held? && fate[i].worker < n
  }

  lemma {:induction false} OneJobPerWorker(workers: seq<Worker>, fate: seq<Fate>, n: nat)
    requires Linked(workers, fate) && n <= |workers|
    ensures |HeldBelow(fate, n)| <= n
  {
    if n == 0 {
      assert HeldBelow(fate, 0) == {};
    } else {
      OneJobPerWorker(workers, fate, n - 1);
      var held, before := HeldBelow(fate, n), HeldBelow(fate, n - 1);
      if i :| i in held && i !in before {
        assert held == before + {i} by {
          assert forall k :: k in held && k !in before ==> fate[k] == Held(n - 1) && k == i;
        }
      } else {
        assert held == before;
      }
    }
  }

  lemma RunsAtMostOnce(skipped: seq<bool>, workers: seq<Worker>, h: History)
    requires WellSized(h, |skipped|) && Linked(workers, h.fate) && Records(skipped, workers, h)
    ensures forall i :: 0 <= i < |skipped| ==> h.runs[i] <= ExpectedRuns(skipped[i])
  {
    forall i | 0 <= i < |skipped|
      ensures h.runs[i] <= ExpectedRuns(skipped[i])
    {
      assert Record(skipped[i], h.fate[i], h.runs[i], h.results[i], workers);
    }
  }

  /** What a caller may rely on in a single state. */
  ghost predicate Safe(c: Config, s: State) {
    // no goroutine is left that could send on a closed channel
    && (s.jobsClosed ==> !s.producing)
    && (s.resultsClosed ==> forall w :: 0 <= w < |s.workers| ==> s.workers[w].Done?)
    // bounded concurrency
    && |HeldBelow(s.history.fate, |s.workers|)| <= WorkerCount(c)
    && (forall w :: 0 <= w < |s.workers| && Carries(s.workers[w]) ==>
          s.workers[w].job in HeldBelow(s.history.fate, |s.workers|))
    // no channel is run twice, and none that should be skipped
    && |s.history.runs| == |c.skipped|
    && (forall i :: 0 <= i < |c.skipped| ==> s.history.runs[i] <= ExpectedRuns(c.skipped[i]))
  }

  lemma InvIsSafe(c: Config, s: State)
    requires Inv(c, s)
    ensures Safe(c, s)
  {
    NoneLive(s.workers);
    OneJobPerWorker(s.workers, s.history.fate, |s.workers|);
    RunsAtMostOnce(c.skipped, s.workers, s.history);
  }

  /** Every state of every run is safe. */
  lemma RunIsSafe(c: Config, run: seq<State>, k: nat)
    requires IsRun(c, run) && k < |run|
    ensures Safe(c, run[k])
  {
    RunKeepsInv(c, run[..k + 1]);
    InvIsSafe(c, run[k]);
  }

  /** No reachable state is stuck: until the pool returns, some goroutine can move without
      waiting for a cancellation. */
  lemma NeverStuck(c: Config, run: seq<State>) returns (step: Step)
    requires IsRun(c, run) && !run[|run| - 1].reducer.returned
    ensures Enabled(c, run[|run| - 1], step) && step != Cancel
  {
    RunKeepsInv(c, run);
    var s := run[|run| - 1];
    NoneLive(s.workers);
    if s.reducer.inbox.Some? {
      return Reduce;
    } else if s.resultsClosed {
      return Return;
    } else if s.waitGroup == 0 {
      return CloseResults;
    }
    var w :| 0 <= w < |s.workers| && !s.workers[w].Done?;
    match s.workers[w]
    case Got(job) => return Check(w);
    case Running(job) => return Finish(w, Summary(1, 1, 0, 0, 0));
    case Sending(job, result) => return Deliver(w);
    case Pausing => return Resume(w);
    case Idle =>
      if s.jobsClosed {
        return LeaveClosed(w);
      } else if s.next < |c.skipped| {
        return Hand(w);
      } else {
        return FinishProducing;
      }
  }

  function Rank(w: Worker): nat {
    match w
    case Done => 0
    case Idle => 1
    case Pausing => 2
    case Sending(_, _) => 4
    case Running(_) => 5
    case Got(_) => 6
  }

  function Flag(b: bool): nat { if b then 1 else 0 }

  /** An upper bound on the number of steps still possible. */
  function Remaining(c: Config, s: State): int {
    6 * (|c.skipped| - s.next) + Total(s.workers, Rank) + Flag(s.reducer.inbox.Some?) +
    Flag(!s.cancelled) + Flag(s.producing) + Flag(!s.resultsClosed) + Flag(!s.reducer.returned)
  }

  /** Handing out a job costs its worker five ranks, delivering one frees two. */
  lemma RankDrops(c: Config, s: State, step: Step)
    requires Enabled(c, s, step) && MovesWorker(step)
    ensures Rank(NextWorker(c, s, step)) <= Rank(s.workers[step.w]) +
              (if step.Hand? then 5 else if step.Deliver? then -2 else -1)
  {
  }

  lemma WorkersRankDrops(c: Config, s: State, step: Step)
    requires Enabled(c, s, step) && MovesWorker(step)
    ensures Total(NextWorkers(c, s, step), Rank) <= Total(s.workers, Rank) +
              (if step.Hand? then 5 else if step.Deliver? then -2 else -1)
  {
    TotalUpdate(s.workers, Rank, step.w, NextWorker(c, s, step));
    RankDrops(c, s, step);
  }

  /** What else a moving worker changes: the producer's position, and the reducer's inbox. */
  lemma WorkerStepElse(c: Config, s: State, step: Step)
    requires Enabled(c, s, step) && MovesWorker(step)
    ensures
      var s' := Apply(c, s, step);
      && s'.next == s.next + Flag(step.Hand?) && s'.workers == NextWorkers(c, s, step)
      && Flag(s'.reducer.inbox.Some?) <= Flag(s.reducer.inbox.Some?) + Flag(step.Deliver?)
      && s'.cancelled == s.cancelled && s'.producing == s.producing && s'.resultsClosed == s.resultsClosed
      && s'.reducer.returned == s.reducer.returned
  {
  }

  lemma WorkerStepDecreases(c: Config, s: State, step: Step)
    requires Enabled(c, s, step) && MovesWorker(step)
    ensures Remaining(c, Apply(c, s, step)) < Remaining(c, s)
  {
    WorkersRankDrops(c, s, step);
    WorkerStepElse(c, s, step);
  }

  lemma StepDecreasesRemaining(c: Config, s: State, step: Step)
    requires Enabled(c, s, step)
    ensures Remaining(c, Apply(c, s, step)) < Remaining(c, s)
  {
    if MovesWorker(step) {
      WorkerStepDecreases(c, s, step);
    } else {
      assert NextWorkers(c, s, step) == s.workers;
    }
  }

  lemma {:induction false} RunSpendsRemaining(c: Config, run: seq<State>)
    requires IsRun(c, run)
    ensures |run| - 1 + Remaining(c, run[|run| - 1]) <= Remaining(c, Init(c))
  {
    var last := |run| - 1;
    if last > 0 {
      RunSpendsRemaining(c, run[..last]);
      assert Successor(c, run[last - 1], run[last]);
      var step :| Enabled(c, run[last - 1], step) && run[last] == Apply(c, run[last - 1], step);
      StepDecreasesRemaining(c, run[last - 1], step);
    }
  }

  lemma {:induction false} IdleRank(ws: seq<Worker>)
    requires forall w :: 0 <= w < |ws| ==> ws[w].Idle?
    ensures Total(ws, Rank) == |ws|
  {
    if ws != [] {
      IdleRank(ws[..|ws| - 1]);
    }
  }

  /** Every run ends: at most six steps per channel, one per worker and four more. */
  lemma RunsEnd(c: Config, run: seq<State>)
    requires IsRun(c, run)
    ensures |run| - 1 <= 6 * |c.skipped| + WorkerCount(c) + 4
  {
    RunSpendsRemaining(c, run);
    RunKeepsInv(c, run);
    IdleRank(Init(c).workers);
  }

  function SumAll(results: seq<Summary>): Summary {
    if results == [] then ZERO else Add(SumAll(results[..|results| - 1]), results[|results| - 1])
  }

  lemma {:induction false} AllDelivered(fate: seq<Fate>, results: seq<Summary>, n: nat)
    requires n <= |fate| == |results|
    requires forall i :: 0 <= i < n ==> fate[i].Delivered?
    ensures SumDelivered(fate, results, n) == SumAll(results[..n])
    ensures CountDelivered(fate, n) == n
  {
    if n > 0 {
      AllDelivered(fate, results, n - 1);
      assert results[..n][..n - 1] == results[..n - 1];
    }
  }

  lemma {:induction false} DeliveredSumLawful(fate: seq<Fate>, results: seq<Summary>, n: nat)
    requires n <= |fate| == |results|
    requires forall i :: 0 <= i < n && fate[i].Delivered? ==> Lawful(results[i], 1)
    ensures Lawful(SumDelivered(fate, results, n), CountDelivered(fate, n))
  {
    if n > 0 {
      DeliveredSumLawful(fate, results, n - 1);
    }
  }

  /** Once the workers are gone, an uncancelled pool has delivered every job. */
  lemma NothingLeftBehind(c: Config, s: State)
    requires Inv(c, s) && s.waitGroup == 0 && !s.cancelled
    ensures forall i :: 0 <= i < |s.history.fate| ==> s.history.fate[i].Delivered?
  {
    NoneLive(s.workers);
    if |c.skipped| > 0 {
      assert s.workers[0].Done?;
    }
  }

  lemma DeliveredAcceptable(skipped: seq<bool>, workers: seq<Worker>, h: History)
    requires WellSized(h, |skipped|) && Records(skipped, workers, h)
    ensures forall i :: 0 <= i < |skipped| && h.fate[i].Delivered? ==> Acceptable(skipped[i], h.runs[i], h.results[i])
  {
    forall i | 0 <= i < |skipped| && h.fate[i].Delivered?
      ensures Acceptable(skipped[i], h.runs[i], h.results[i])
    {
      assert Record(skipped[i], h.fate[i], h.runs[i], h.results[i], workers);
    }
  }

  function Unskipped(skipped: seq<bool>): nat {
    if skipped == [] then 0 else Unskipped(skipped[..|skipped| - 1]) + ExpectedRuns(skipped[|skipped| - 1])
  }

  lemma {:induction false} SumCounts(skipped: seq<bool>, results: seq<Summary>)
    requires |skipped| == |results|
    requires forall i :: 0 <= i < |skipped| ==> results[i].tested == ExpectedRuns(skipped[i])
    ensures SumAll(results).tested == Unskipped(skipped)
  {
    if skipped != [] {
      SumCounts(skipped[..|skipped| - 1], results[..|results| - 1]);
    }
  }

  ghost predicate FullyProcessed(c: Config, s: State) {
    && WellSized(s.history, |c.skipped|)
    && (forall i :: 0 <= i < |c.skipped| ==> Acceptable(c.skipped[i], s.history.runs[i], s.history.results[i]))
    && s.reducer.summary == SumAll(s.history.results)
    && s.reducer.summary.tested == Unskipped(c.skipped)
    && s.reducer.processed == |c.skipped|
    && s.reducer.reports == seq(|c.skipped| + 1, k => k)
  }

  lemma ReducedIsLawful(skipped: seq<bool>, workers: seq<Worker>, r: Reducer, h: History)
    requires WellSized(h, |skipped|) && Records(skipped, workers, h)
    requires Accounts(r, h.fate, h.results) && r.inbox.None?
    ensures Lawful(r.summary, r.processed) && r.processed <= |skipped|
  {
    assert forall i :: 0 <= i < |h.fate| && h.fate[i].Delivered? ==> Lawful(h.results[i], 1) by {
      DeliveredAcceptable(skipped, workers, h);
    }
    DeliveredSumLawful(h.fate, h.results, |h.fate|);
  }

  lemma ReducedEverything(r: Reducer, h: History, total: nat)
    requires WellSized(h, total) && Accounts(r, h.fate, h.results) && r.inbox.None?
    requires forall i :: 0 <= i < total ==> h.fate[i].Delivered?
    ensures r.summary == SumAll(h.results) && r.processed == total
  {
    AllDelivered(h.fate, h.results, total);
    assert h.results[..total] == h.results;
  }

  lemma DeliveredCount(skipped: seq<bool>, workers: seq<Worker>, h: History)
    requires WellSized(h, |skipped|) && Counted(skipped, false, workers, h)
    requires forall i :: 0 <= i < |skipped| ==> h.fate[i].Delivered?
    requires forall i :: 0 <= i < |skipped| ==> Acceptable(skipped[i], h.runs[i], h.results[i])
    ensures SumAll(h.results).tested == Unskipped(skipped)
  {
    forall i | 0 <= i < |skipped|
      ensures h.results[i].tested == ExpectedRuns(skipped[i])
    {
      assert Acceptable(skipped[i], h.runs[i], h.results[i]);
      assert CountsOne(skipped[i], h.fate[i], h.results[i], workers);
    }
    SumCounts(skipped, h.results);
  }

  lemma ReturnedIsComplete(c: Config, s: State)
    requires Inv(c, s) && s.reducer.returned && !s.cancelled
    ensures FullyProcessed(c, s)
  {
    NothingLeftBehind(c, s);
    DeliveredAcceptable(c.skipped, s.workers, s.history);
    ReducedEverything(s.reducer, s.history, |c.skipped|);
    DeliveredCount(c.skipped, s.workers, s.history);
  }

  /** The summary the pool returns: lawful in every run, and without a cancellation the sum
      of the results of all channels, each run exactly once and counted unless skipped,
      whatever the order of arrival; progress was then reported as 0, 1, …, total. */
  lemma ReturnedSummary(c: Config, run: seq<State>)
    requires IsRun(c, run) && run[|run| - 1].reducer.returned
    ensures
      var s := run[|run| - 1];
      && Lawful(s.reducer.summary, s.reducer.processed)
      && s.reducer.processed <= |c.skipped|
      && (!s.cancelled ==> FullyProcessed(c, s))
  {
    RunKeepsInv(c, run);
    ReducedIsLawful(c.skipped, run[|run| - 1].workers, run[|run| - 1].reducer, run[|run| - 1].history);
    if !run[|run| - 1].cancelled {
      ReturnedIsComplete(c, run[|run| - 1]);
    }
  }
}
