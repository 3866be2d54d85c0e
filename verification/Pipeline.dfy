// The bounded analysis pipeline: analyzer workers, a coordinator, converter workers and an
// ordered consumer. Each step is one action under the scheduler's lock, or one change of
// a worker's future.
module Pipeline {
  import opened Options

  // Results are kept symbolic: what analysing and converting give is determined by their inputs.
  datatype Registry = Analyze(configuration: nat)

  datatype Batch = Convert(configuration: nat, facts: Registry)

  datatype Limits = Limits(total: nat, workers: nat, maxSpool: nat, maxBatches: nat)

  // What the constructor of the ingestor enforces, for a nonempty selection.
  predicate Sensible(l: Limits) {
    0 < l.workers <= l.maxSpool && l.workers <= l.total && 0 < l.maxBatches <= l.maxSpool
  }

  // A future. `Reported` is the moment after the callable's clean-up, before the future is done.
  datatype Job<T> = Queued | Running | Reported(ok: bool) | Succeeded(result: T) | Raised | Cancelled

  predicate Settled<T>(job: Job<T>) {
    job.Succeeded? || job.Raised? || job.Cancelled?
  }

  predicate Busy<T>(job: Job<T>) {
    job.Running? || job.Reported?
  }

  function Cancel<T>(job: Job<T>): Job<T> {
    if job.Queued? then Cancelled else job
  }

  datatype Failure = WorkFailure(configuration: nat) | RequestFailure

  datatype Consumer = Awaiting | Holding | Left

  datatype State = State(
    analyses: map<nat, Job<Registry>>, slots: map<nat, nat>, available: set<nat>,
    pending: map<nat, Registry>, conversions: map<nat, Job<Batch>>, converting: map<nat, Registry>,
    nextConfiguration: nat, nextConversion: nat, held: int,
    failure: Option<Failure>, cancelled: bool, stopped: bool, coordinating: bool,
    consumer: Consumer, index: nat, yielded: seq<Batch>, open: set<nat>)

  predicate Within(low: nat, i: nat, high: nat) {
    low <= i < high
  }

  function Interval(low: nat, high: nat): set<nat> {
    set i: nat | 0 <= i < high && Within(low, i, high)
  }

  function Initial(l: Limits): State {
    State(map[], map[], Interval(0, l.workers), map[], map[], map[], 0, 0, 0,
          None, false, false, true, Awaiting, 0, [], {})
  }

  datatype Step =
    | StartAnalysis(i: nat) | ReportAnalysis(i: nat, ok: bool) | SettleAnalysis(i: nat)
    | StartConversion(i: nat) | ReportConversion(i: nat, ok: bool) | SettleConversion(i: nat)
    | Collect(i: nat) | Fail(seen: set<nat>) | Refuse | SubmitConversion | SubmitAnalysis | Stop | Return
    | Take | Release | Leave | CloseDown

  function BusyJobs<T>(jobs: map<nat, Job<T>>): set<nat> {
    set i | i in jobs && Busy(jobs[i])
  }

  // The executor starts jobs in the order of submission.
  predicate FirstQueued<T>(jobs: map<nat, Job<T>>, i: nat) {
    i in jobs && jobs[i].Queued? && forall j :: j in jobs && jobs[j].Queued? ==> i <= j
  }

  function Converters(l: Limits): nat {
    if l.maxBatches <= l.total then l.maxBatches else l.total
  }

  // Something whose failure a coordinator pass can see.
  predicate Failed(s: State, i: nat) {
    (i in s.analyses && s.analyses[i].Raised?) || (i in s.conversions && s.conversions[i].Raised?)
  }

  predicate AllSettled<T>(jobs: map<nat, Job<T>>) {
    forall i :: i in jobs ==> Settled(jobs[i])
  }

  predicate Enabled(l: Limits, s: State, step: Step) {
    match step
    case StartAnalysis(i) => FirstQueued(s.analyses, i) && |BusyJobs(s.analyses)| < l.workers
    case ReportAnalysis(i, _) => i in s.analyses && s.analyses[i].Running?
    case SettleAnalysis(i) => i in s.analyses && s.analyses[i].Reported?
    case StartConversion(i) => FirstQueued(s.conversions, i) && |BusyJobs(s.conversions)| < Converters(l)
    case ReportConversion(i, _) => i in s.conversions && s.conversions[i].Running?
    case SettleConversion(i) => i in s.conversions && s.conversions[i].Reported? && i in s.converting
    case Collect(i) => s.coordinating && !s.stopped && i in s.analyses && s.analyses[i].Succeeded? && i in s.slots
    case Fail(seen) => s.coordinating && !s.stopped && seen != {} && forall i :: i in seen ==> Failed(s, i)
    case Refuse => s.coordinating && !s.stopped
    case SubmitConversion => s.coordinating && !s.stopped && s.nextConversion in s.pending && |s.conversions| < l.maxBatches
    case SubmitAnalysis =>
      && s.coordinating && !s.stopped && s.nextConfiguration < l.total && |s.analyses| < l.workers && s.held < l.maxSpool
      && s.available != {}
    case Stop => s.coordinating && s.stopped
    case Return =>
      && s.coordinating && !s.stopped && s.nextConfiguration == l.total && s.analyses == map[] && s.pending == map[]
      && AllSettled(s.conversions)
    case Take => s.consumer.Awaiting? && s.failure.None? && s.index in s.conversions && s.conversions[s.index].Succeeded?
    case Release => s.consumer.Holding?
    case Leave => s.consumer.Awaiting?
    case CloseDown => s.consumer.Left? && !s.coordinating && AllSettled(s.analyses) && AllSettled(s.conversions)
  }

  function Least(s: set<nat>): (m: nat)
    requires s != {}
    ensures m in s && forall i :: i in s ==> m <= i
  {
    LeastExists(s);
    var m :| m in s && forall i :: i in s ==> m <= i;
    m
  }

  lemma LeastExists(s: set<nat>)
    requires s != {}
    ensures exists m :: m in s && forall i :: i in s ==> m <= i
  {
    var n :| n in s;
    LeastBelow(s, n);
  }

  lemma {:induction false} LeastBelow(s: set<nat>, n: nat)
    requires n in s
    ensures exists m :: m in s && forall i :: i in s ==> m <= i
    decreases n
  {
    if y :| y in s && y < n {
      LeastBelow(s, y);
    } else {
      assert forall i :: i in s ==> n <= i;
    }
  }

  function CancelAll<T>(jobs: map<nat, Job<T>>): map<nat, Job<T>> {
    map i | i in jobs :: Cancel(jobs[i])
  }

  // Futures still in the owning maps are cancelled; those already running go on.
  function Cancelling(s: State): State {
    s.(cancelled := true, analyses := CancelAll(s.analyses), conversions := CancelAll(s.conversions))
  }

  function SlotsOf(slots: map<nat, nat>, gone: set<nat>): set<nat> {
    set i | i in gone && i in slots :: slots[i]
  }

  // Failed analyses leave their map, and their slots come free.
  function DropFailed(s: State, seen: set<nat>): State {
    var gone := set i | i in s.analyses && i in seen && s.analyses[i].Raised?;
    s.(analyses := s.analyses - gone, slots := s.slots - gone,
       available := s.available + SlotsOf(s.slots, gone))
  }

  function Kept(s: State): set<nat> {
    s.pending.Keys + s.converting.Keys + set i | i in s.analyses && s.analyses[i].Succeeded?
  }

  function Collected(s: State, i: nat): State
    requires i in s.analyses && s.analyses[i].Succeeded? && i in s.slots
  {
    s.(analyses := s.analyses - {i}, slots := s.slots - {i}, available := s.available + {s.slots[i]},
       pending := s.pending[i := s.analyses[i].result])
  }

  function ConversionSubmitted(s: State): State
    requires s.nextConversion in s.pending
  {
    var i := s.nextConversion;
    s.(nextConversion := i + 1, pending := s.pending - {i}, converting := s.converting[i := s.pending[i]],
       conversions := s.conversions[i := Queued])
  }

  function AnalysisSubmitted(s: State): State
    requires s.available != {}
  {
    var i, slot := s.nextConfiguration, Least(s.available);
    s.(nextConfiguration := i + 1, held := s.held + 1, analyses := s.analyses[i := Queued],
       slots := s.slots[i := slot], available := s.available - {slot})
  }

  function Released(s: State): State {
    s.(consumer := Awaiting, conversions := s.conversions - {s.index}, converting := s.converting - {s.index},
       held := s.held - 1, index := s.index + 1)
  }

  predicate WorkerStep(step: Step) {
    || step.StartAnalysis? || step.ReportAnalysis? || step.SettleAnalysis?
    || step.StartConversion? || step.ReportConversion? || step.SettleConversion?
  }

  function ApplyWorker(l: Limits, s: State, step: Step): State
    requires WorkerStep(step) && Enabled(l, s, step)
  {
    match step
    case StartAnalysis(i) => s.(analyses := s.analyses[i := Running], open := s.open + {i})
    case ReportAnalysis(i, ok) => s.(analyses := s.analyses[i := Reported(ok)], open := if ok then s.open else s.open - {i})
    case SettleAnalysis(i) => s.(analyses := s.analyses[i := if s.analyses[i].ok then Succeeded(Analyze(i)) else Raised])
    case StartConversion(i) => s.(conversions := s.conversions[i := Running])
    case ReportConversion(i, ok) => s.(conversions := s.conversions[i := Reported(ok)], open := s.open - {i})
    case SettleConversion(i) =>
      s.(conversions := s.conversions[i := if s.conversions[i].ok then Succeeded(Convert(i, s.converting[i])) else Raised])
  }

  function ApplyScheduler(l: Limits, s: State, step: Step): State
    requires !WorkerStep(step) && Enabled(l, s, step)
  {
    match step
    case Collect(i) => Collected(s, i)
    case Fail(seen) => Cancelling(DropFailed(s, seen)).(failure := Some(WorkFailure(Least(seen))), coordinating := false)
    case Refuse => Cancelling(s).(failure := Some(RequestFailure), coordinating := false)
    case SubmitConversion => ConversionSubmitted(s)
    case SubmitAnalysis => AnalysisSubmitted(s)
    case Stop => s.(coordinating := false)
    case Return => s.(coordinating := false)
    case Take => s.(consumer := Holding, yielded := s.yielded + [s.conversions[s.index].result])
    case Release => Released(s)
    case Leave => Cancelling(s).(stopped := true, consumer := Left)
    case CloseDown => s.(open := s.open - Kept(s))
  }

  function Apply(l: Limits, s: State, step: Step): State
    requires Enabled(l, s, step)
  {
    if WorkerStep(step) then ApplyWorker(l, s, step) else ApplyScheduler(l, s, step)
  }

  // Runs ----------------------------------------------------------------------------------

  ghost predicate Reaches(l: Limits, s: State, steps: seq<Step>, t: State)
    decreases |steps|
  {
    if steps == [] then s == t
    else Enabled(l, s, steps[0]) && Reaches(l, Apply(l, s, steps[0]), steps[1..], t)
  }

  ghost predicate Reachable(l: Limits, t: State) {
    exists steps :: Reaches(l, Initial(l), steps, t)
  }

  lemma {:induction false} ReachesConcat(l: Limits, s: State, a: seq<Step>, t: State, b: seq<Step>, u: State)
    requires Reaches(l, s, a, t) && Reaches(l, t, b, u)
    ensures Reaches(l, s, a + b, u)
    decreases |a|
  {
    hide Enabled, Apply;
    if a == [] {
      assert a + b == b;
    } else {
      ReachesConcat(l, Apply(l, s, a[0]), a[1..], t, b, u);
      assert (a + b)[1..] == a[1..] + b;
    }
  }

  // Invariants ----------------------------------------------------------------------------

  // Held registries are those admitted and not yet released; conversions form one window.
  ghost predicate Counters(l: Limits, index: nat, nextConversion: nat, nextConfiguration: nat, held: int,
                           conversions: set<nat>, converting: set<nat>)
  {
    && index <= nextConversion <= nextConfiguration <= l.total
    && held == nextConfiguration - index && held <= l.maxSpool && nextConversion - index <= l.maxBatches
    && conversions == Interval(index, nextConversion) && converting == conversions
  }

  // Everything between the window and the frontier is being analysed or waits for its turn.
  ghost predicate Middle(analyses: set<nat>, pending: set<nat>, low: nat, high: nat, whole: bool) {
    && analyses !! pending && analyses + pending <= Interval(low, high)
    && (whole ==> analyses + pending == Interval(low, high))
  }

  // Every result sits under its own index.
  ghost predicate AnalysesLabelled(analyses: map<nat, Job<Registry>>) {
    forall i :: i in analyses && analyses[i].Succeeded? ==> analyses[i].result == Analyze(i)
  }

  ghost predicate RegistriesLabelled(registries: map<nat, Registry>) {
    forall i :: i in registries ==> registries[i] == Analyze(i)
  }

  ghost predicate ConversionsLabelled(conversions: map<nat, Job<Batch>>) {
    forall i :: i in conversions && conversions[i].Succeeded? ==> conversions[i].result == Convert(i, Analyze(i))
  }

  ghost predicate Published(yielded: seq<Batch>) {
    forall k :: 0 <= k < |yielded| ==> yielded[k] == Convert(k, Analyze(k))
  }

  ghost predicate Handing(consumer: Consumer, index: nat, count: nat, conversions: map<nat, Job<Batch>>) {
    && count == index + (if consumer.Holding? then 1 else 0)
    && (consumer.Holding? ==> index in conversions && conversions[index].Succeeded?)
  }

  function Used(slots: map<nat, nat>): set<nat> {
    set i | i in slots :: slots[i]
  }

  // No slot is shared, and the free ones are exactly the others.
  ghost predicate SlotsWell(workers: nat, slots: map<nat, nat>, available: set<nat>) {
    && (forall i, j :: i in slots && j in slots && slots[i] == slots[j] ==> i == j)
    && (forall i :: i in slots ==> slots[i] < workers)
    && available == Interval(0, workers) - Used(slots)
  }

  // Whether the registry of a configuration is open, by where its analysis and conversion stand.
  predicate OwnsRegistry(s: State, i: nat) {
    || (i in s.analyses && (s.analyses[i].Running? || s.analyses[i] == Reported(true) || s.analyses[i].Succeeded?))
    || i in s.pending
    || (i in s.conversions && (s.conversions[i].Queued? || s.conversions[i].Running? || s.conversions[i].Cancelled?))
  }

  // Cancelling happens once, when a run fails or its consumer leaves.
  ghost predicate Flags(failed: bool, cancelled: bool, stopped: bool, left: bool, coordinating: bool) {
    && (cancelled <==> failed || stopped) && (stopped <==> left) && (failed ==> !coordinating)
  }

  // Futures are cancelled only then, and then none stays queued.
  ghost predicate CancelledJobs<T>(cancelled: bool, jobs: map<nat, Job<T>>) {
    forall i :: i in jobs ==> if cancelled then !jobs[i].Queued? else !jobs[i].Cancelled?
  }

  // When the coordinator has returned normally, everything is submitted and finished.
  ghost predicate Finished(l: Limits, done: bool, nextConfiguration: nat, analyses: set<nat>, pending: set<nat>,
                           conversions: map<nat, Job<Batch>>)
  {
    done ==> nextConfiguration == l.total && analyses == {} && pending == {} && AllSettled(conversions)
  }

  ghost predicate Inv(l: Limits, s: State) {
    && Counters(l, s.index, s.nextConversion, s.nextConfiguration, s.held, s.conversions.Keys, s.converting.Keys)
    && |s.analyses.Keys| <= l.workers
    && Middle(s.analyses.Keys, s.pending.Keys, s.nextConversion, s.nextConfiguration, s.failure.None?)
    && AnalysesLabelled(s.analyses) && RegistriesLabelled(s.pending)
    && RegistriesLabelled(s.converting) && ConversionsLabelled(s.conversions)
    && Published(s.yielded) && Handing(s.consumer, s.index, |s.yielded|, s.conversions)
    && s.slots.Keys == s.analyses.Keys && SlotsWell(l.workers, s.slots, s.available)
    && Flags(s.failure.Some?, s.cancelled, s.stopped, s.consumer.Left?, s.coordinating)
    && CancelledJobs(s.cancelled, s.analyses) && CancelledJobs(s.cancelled, s.conversions)
    && Finished(l, !s.coordinating && !s.cancelled, s.nextConfiguration, s.analyses.Keys, s.pending.Keys, s.conversions)
  }
}
