// The pipeline never sticks, runs are bounded, and no registry outlives a run.
module PipelineProgress {
  import opened Options
  import opened Pipeline
  import opened PipelineSafety
  import Graphs

  // Steps that bring some configuration closer to its batch.
  predicate Productive(step: Step) {
    WorkerStep(step) || step.Collect? || step.SubmitConversion? || step.SubmitAnalysis? || step.Take? || step.Release?
  }

  // Always a step to take -------------------------------------------------------------------

  lemma BusyFewer<T>(jobs: map<nat, Job<T>>, i: nat)
    requires i in jobs && !Busy(jobs[i])
    ensures |BusyJobs(jobs)| < |jobs|
  {
    Graphs.SubsetSize(BusyJobs(jobs), jobs.Keys - {i});
  }

  lemma NextConversionMoves(l: Limits, s: State) returns (step: Step)
    requires Sensible(l) && Inv(l, s) && !s.cancelled && s.consumer.Awaiting? && s.index < s.nextConversion
    requires !Failed(s, s.index)
    ensures Productive(step) && Enabled(l, s, step)
  {
    hide SlotsWell, Published, AnalysesLabelled, RegistriesLabelled, ConversionsLabelled, Middle, Finished, BusyJobs;
    var i := s.index;
    assert i in Interval(i, s.nextConversion);
    assert i in s.conversions && i in s.converting;
    var job := s.conversions[i];
    if job.Queued? {
      assert forall j :: j in s.conversions ==> i <= j;
      BusyFewer(s.conversions, i);
      IntervalSize(i, s.nextConversion);
      assert |s.conversions| == |s.conversions.Keys| <= Converters(l);
      return StartConversion(i);
    }
    step := if job.Running? then ReportConversion(i, true) else if job.Reported? then SettleConversion(i) else Take;
  }

  lemma NextAnalysisMoves(l: Limits, s: State) returns (step: Step)
    requires Sensible(l) && Inv(l, s) && !s.cancelled && s.coordinating && s.nextConversion in s.analyses
    requires !Failed(s, s.nextConversion)
    ensures Productive(step) && Enabled(l, s, step)
  {
    hide SlotsWell, Published, AnalysesLabelled, RegistriesLabelled, ConversionsLabelled, Finished, BusyJobs, Handing;
    var i := s.nextConversion;
    var job := s.analyses[i];
    if job.Queued? {
      assert forall j :: j in s.analyses ==> j in s.analyses.Keys + s.pending.Keys;
      assert forall j :: j in s.analyses ==> i <= j;
      BusyFewer(s.analyses, i);
      assert |s.analyses| == |s.analyses.Keys|;
      return StartAnalysis(i);
    }
    step := if job.Running? then ReportAnalysis(i, true) else if job.Reported? then SettleAnalysis(i) else Collect(i);
  }

  // Until everything is published, some productive step is enabled, whatever has finished
  // in whatever order; only the failure of the very next configuration can stand in the way.
  lemma SomethingCanMove(l: Limits, s: State) returns (step: Step)
    requires Sensible(l) && Inv(l, s) && !s.cancelled && s.index < l.total && !Failed(s, s.index)
    ensures Productive(step) && Enabled(l, s, step)
  {
    if s.consumer.Holding? {
      return Release;
    }
    if s.index < s.nextConversion {
      step := NextConversionMoves(l, s);
      return;
    }
    WindowEmpty(l, s);
    var i := s.nextConversion;
    if i in s.analyses {
      step := NextAnalysisMoves(l, s);
    } else if i in s.pending {
      step := SubmitConversion;
    } else {
      NothingAdmitted(l, s);
      step := SubmitAnalysis;
    }
  }

  lemma WindowEmpty(l: Limits, s: State)
    requires Sensible(l) && Inv(l, s) && !s.cancelled && s.index < l.total && s.index == s.nextConversion
    ensures s.coordinating && |s.conversions| == 0
  {
    hide SlotsWell, Published, AnalysesLabelled, RegistriesLabelled, ConversionsLabelled, Handing, CancelledJobs;
    assert Interval(s.index, s.nextConversion) == {};
    assert s.conversions.Keys == {};
    assert s.index in Interval(s.nextConversion, l.total);
  }

  lemma NothingAdmitted(l: Limits, s: State)
    requires Sensible(l) && Inv(l, s) && !s.cancelled && s.index < l.total && s.index == s.nextConversion
    requires s.nextConversion !in s.analyses && s.nextConversion !in s.pending
    ensures s.nextConfiguration < l.total && |s.analyses| < l.workers && s.held < l.maxSpool && s.available != {}
  {
    hide Published, AnalysesLabelled, RegistriesLabelled, ConversionsLabelled, Handing, CancelledJobs, SlotsWell, Finished;
    assert s.nextConversion !in s.analyses.Keys + s.pending.Keys;
    assert s.nextConversion !in Interval(s.nextConversion, s.nextConfiguration);
    assert s.nextConfiguration == s.nextConversion;
    assert Interval(s.nextConversion, s.nextConfiguration) == {};
    assert s.analyses.Keys == {} && |s.analyses| == |s.analyses.Keys|;
    assert s.slots.Keys == {} && |s.slots| == |s.slots.Keys|;
    SlotFree(l.workers, s.slots, s.available);
  }

  // Runs are bounded ------------------------------------------------------------------------

  function JobRank<T>(job: Job<T>): nat {
    match job
    case Queued => 3
    case Running => 2
    case Reported(_) => 1
    case _ => 0
  }

  // How far a configuration still is from release.
  function Rank(s: State, i: nat): nat {
    if i < s.index then 0
    else if i in s.analyses then 7 + JobRank(s.analyses[i])
    else if i in s.pending then 6
    else if i in s.conversions then
      if i == s.index && s.consumer.Holding? then 1 else 2 + JobRank(s.conversions[i])
    else 11
  }

  function Work(s: State, n: nat): nat {
    if n == 0 then 0 else Rank(s, n - 1) + Work(s, n - 1)
  }

  // The configuration a productive step is about.
  function Subject(s: State, step: Step): nat
    requires Productive(step)
  {
    match step
    case StartAnalysis(i) => i
    case ReportAnalysis(i, _) => i
    case SettleAnalysis(i) => i
    case StartConversion(i) => i
    case ReportConversion(i, _) => i
    case SettleConversion(i) => i
    case Collect(i) => i
    case SubmitConversion => s.nextConversion
    case SubmitAnalysis => s.nextConfiguration
    case Take => s.index
    case Release => s.index
  }

  // Which of the scheduler's books a configuration is in.
  lemma Where(l: Limits, s: State)
    requires Inv(l, s)
    ensures forall i :: i in s.conversions ==> s.index <= i < l.total && i !in s.analyses && i !in s.pending
    ensures forall i :: i in s.analyses || i in s.pending ==> s.nextConversion <= i < s.nextConfiguration
    ensures s.analyses.Keys !! s.pending.Keys
    ensures s.index <= s.nextConversion <= s.nextConfiguration <= l.total
    ensures s.nextConfiguration !in s.analyses && s.nextConfiguration !in s.pending && s.nextConfiguration !in s.conversions
    ensures s.consumer.Holding? ==> s.index in s.conversions && s.conversions[s.index].Succeeded?
    ensures s.nextConversion !in s.conversions
  {
    hide SlotsWell, Published, AnalysesLabelled, RegistriesLabelled, ConversionsLabelled, CancelledJobs, Finished;
    assert forall i :: i in s.analyses || i in s.pending ==> i in s.analyses.Keys + s.pending.Keys;
  }

  lemma SubjectComesCloser(l: Limits, s: State, step: Step)
    requires Inv(l, s) && Enabled(l, s, step) && Productive(step)
    ensures Subject(s, step) < l.total
    ensures Rank(Apply(l, s, step), Subject(s, step)) < Rank(s, Subject(s, step))
  {
    Where(l, s);
    hide Inv, Rank, Enabled;
    if WorkerStep(step) {
      WorkerCloser(l, s, step);
    } else {
      SchedulerCloser(l, s, step);
    }
  }

  lemma WorkerCloser(l: Limits, s: State, step: Step)
    requires Enabled(l, s, step) && WorkerStep(step)
    requires forall i :: i in s.analyses || i in s.pending ==> s.index <= i < l.total
    requires forall i :: i in s.conversions ==> s.index <= i < l.total && i !in s.analyses && i !in s.pending
    requires s.consumer.Holding? ==> s.index in s.conversions && s.conversions[s.index].Succeeded?
    ensures Subject(s, step) < l.total
    ensures Rank(ApplyWorker(l, s, step), Subject(s, step)) < Rank(s, Subject(s, step))
  {
    hide BusyJobs, FirstQueued;
    match step
    case StartAnalysis(i) => FirstIsQueued(s.analyses, i);
    case StartConversion(i) => FirstIsQueued(s.conversions, i);
    case _ =>
  }

  lemma SchedulerCloser(l: Limits, s: State, step: Step)
    requires Enabled(l, s, step) && Productive(step) && !WorkerStep(step)
    requires s.index <= s.nextConversion <= s.nextConfiguration <= l.total
    requires forall i :: i in s.analyses || i in s.pending ==> s.index <= i < l.total
    requires forall i :: i in s.conversions ==> i < l.total && i !in s.analyses && i !in s.pending
    requires s.nextConversion !in s.conversions
    requires s.nextConfiguration !in s.analyses && s.nextConfiguration !in s.pending && s.nextConfiguration !in s.conversions
    requires s.analyses.Keys !! s.pending.Keys
    requires s.consumer.Holding? ==> s.index in s.conversions && s.conversions[s.index].Succeeded?
    ensures Subject(s, step) < l.total
    ensures Rank(ApplyScheduler(l, s, step), Subject(s, step)) < Rank(s, Subject(s, step))
  {
    hide BusyJobs, Cancelling, DropFailed, Kept, Least, AllSettled;
    match step
    case Collect(i) => assert i !in s.conversions;
    case SubmitConversion => assert s.nextConversion !in s.analyses;
    case SubmitAnalysis =>
    case Take =>
    case Release => assert s.index !in s.analyses && s.index !in s.pending;
  }

  lemma FirstIsQueued<T>(jobs: map<nat, Job<T>>, i: nat)
    requires FirstQueued(jobs, i)
    ensures i in jobs && jobs[i].Queued?
  {
  }

  lemma OthersStay(l: Limits, s: State, step: Step, i: nat)
    requires Enabled(l, s, step) && Productive(step) && i != Subject(s, step)
    ensures Rank(Apply(l, s, step), i) == Rank(s, i)
  {
    hide JobRank, Enabled;
    if WorkerStep(step) {
      hide ApplyScheduler, Rank;
      WorkerLeavesOthers(l, s, step, i);
    } else {
      hide ApplyWorker, Rank;
      SchedulerLeavesOthers(l, s, step, i);
    }
  }

  lemma WorkerLeavesOthers(l: Limits, s: State, step: Step, i: nat)
    requires Enabled(l, s, step) && WorkerStep(step) && i != Subject(s, step)
    ensures Rank(ApplyWorker(l, s, step), i) == Rank(s, i)
  {
    hide BusyJobs, JobRank;
  }

  lemma ReleaseLeavesOthers(s: State, i: nat)
    requires i != s.index && s.consumer.Holding?
    ensures Rank(Released(s), i) == Rank(s, i)
  {
    hide JobRank;
  }

  lemma CollectLeavesOthers(s: State, j: nat, i: nat)
    requires j in s.analyses && s.analyses[j].Succeeded? && j in s.slots && i != j
    ensures Rank(Collected(s, j), i) == Rank(s, i)
  {
    hide JobRank;
  }

  lemma ConversionLeavesOthers(s: State, i: nat)
    requires s.nextConversion in s.pending && i != s.nextConversion
    ensures Rank(ConversionSubmitted(s), i) == Rank(s, i)
  {
    hide JobRank;
  }

  lemma AnalysisLeavesOthers(s: State, i: nat)
    requires s.available != {} && i != s.nextConfiguration
    ensures Rank(AnalysisSubmitted(s), i) == Rank(s, i)
  {
    hide JobRank, Least;
  }

  lemma SchedulerLeavesOthers(l: Limits, s: State, step: Step, i: nat)
    requires Enabled(l, s, step) && Productive(step) && !WorkerStep(step) && i != Subject(s, step)
    ensures Rank(ApplyScheduler(l, s, step), i) == Rank(s, i)
  {
    hide BusyJobs, Cancelling, DropFailed, Kept, Least, AllSettled, JobRank, Released, Collected, ConversionSubmitted,
         AnalysisSubmitted;
    match step
    case Collect(j) => CollectLeavesOthers(s, j, i);
    case SubmitConversion => ConversionLeavesOthers(s, i);
    case SubmitAnalysis => AnalysisLeavesOthers(s, i);
    case Release => ReleaseLeavesOthers(s, i);
    case Take =>
  }

  lemma {:induction false} WorkShrinks(s: State, t: State, subject: nat, n: nat)
    requires Rank(t, subject) < Rank(s, subject) && forall i :: i != subject ==> Rank(t, i) == Rank(s, i)
    ensures Work(t, n) <= Work(s, n) && (subject < n ==> Work(t, n) < Work(s, n))
  {
    hide Rank;
    if n > 0 {
      WorkShrinks(s, t, subject, n - 1);
    }
  }

  // Every productive step strictly lowers the work left.
  lemma WorkDecreases(l: Limits, s: State, step: Step)
    requires Inv(l, s) && Enabled(l, s, step) && Productive(step)
    ensures Work(Apply(l, s, step), l.total) < Work(s, l.total)
  {
    hide Inv, Apply, Enabled, Rank;
    SubjectComesCloser(l, s, step);
    forall i | i != Subject(s, step)
      ensures Rank(Apply(l, s, step), i) == Rank(s, i)
    {
      OthersStay(l, s, step, i);
    }
    WorkShrinks(s, Apply(l, s, step), Subject(s, step), l.total);
  }

  lemma {:induction false} WorkBound(s: State, n: nat)
    ensures Work(s, n) <= 11 * n
  {
    if n > 0 {
      WorkBound(s, n - 1);
    }
  }

  // No run makes more than eleven productive steps a configuration.
  lemma {:induction false} RunsAreShort(l: Limits, s: State, steps: seq<Step>, t: State)
    requires Inv(l, s) && Reaches(l, s, steps, t) && forall i :: 0 <= i < |steps| ==> Productive(steps[i])
    ensures |steps| <= Work(s, l.total) <= 11 * l.total
    decreases |steps|
  {
    hide Inv, Apply, Enabled;
    WorkBound(s, l.total);
    if steps != [] {
      StepKeeps(l, s, steps[0]);
      WorkDecreases(l, s, steps[0]);
      RunsAreShort(l, Apply(l, s, steps[0]), steps[1..], t);
    }
  }

  // A run that has not failed and cannot go on has published every batch, in order.
  lemma StuckMeansDone(l: Limits, s: State)
    requires Sensible(l) && Reachable(l, s) && !s.cancelled && forall i :: !Failed(s, i)
    requires forall step :: Productive(step) ==> !Enabled(l, s, step)
    ensures |s.yielded| == l.total && forall k :: 0 <= k < l.total ==> s.yielded[k] == Convert(k, Analyze(k))
  {
    ReachableHolds(l, s);
    PublishedPrefix(l, s);
    hide Inv, Enabled, Failed;
    if s.index < l.total {
      var step := SomethingCanMove(l, s);
      assert false;
    }
  }

  lemma ReachableHolds(l: Limits, s: State)
    requires Sensible(l) && Reachable(l, s)
    ensures Inv(l, s)
  {
    InitialHolds(l);
    var steps :| Reaches(l, Initial(l), steps, s);
    RunKeeps(l, Initial(l), steps, s);
  }

  // A coordinator that returns of its own accord has submitted every conversion, and all are done.
  lemma NormalReturn(l: Limits, s: State)
    requires Sensible(l) && Reachable(l, s) && !s.coordinating && s.failure.None? && !s.stopped
    ensures s.nextConversion == l.total
    ensures forall i :: i in s.conversions ==> s.conversions[i].Succeeded? || s.conversions[i].Raised?
    ensures s.analyses == map[] && s.pending == map[]
  {
    ReachableHolds(l, s);
    hide SlotsWell, Published, AnalysesLabelled, RegistriesLabelled, ConversionsLabelled, Handing;
    assert s.analyses.Keys + s.pending.Keys == {};
    assert s.nextConversion < l.total ==> s.nextConversion in Interval(s.nextConversion, l.total);
  }
}
