// Which registries are open at each moment of a run, and that none is at its end.
module PipelineResources {
  import opened Options
  import opened Pipeline
  import opened PipelineSafety
  import opened PipelineProgress

  // Open registries are exactly those that an analysis, the pending map or a conversion owns.
  ghost predicate Exact(s: State) {
    forall i :: i in s.open <==> OwnsRegistry(s, i)
  }

  // Everything has come to rest after the consumer left.
  ghost predicate AtRest(s: State) {
    s.consumer.Left? && !s.coordinating && AllSettled(s.analyses) && AllSettled(s.conversions)
  }

  ghost predicate Accounted(s: State) {
    Exact(s) || (s.open == {} && AtRest(s))
  }

  // The maps a configuration can be in do not overlap.
  ghost predicate Apart(s: State) {
    && (forall i :: i in s.conversions ==> i !in s.analyses && i !in s.pending)
    && (forall i :: i in s.analyses ==> i !in s.pending)
  }

  lemma BooksApart(l: Limits, s: State)
    requires Inv(l, s)
    ensures Apart(s)
  {
    Where(l, s);
    hide Inv;
  }

  // Jobs whose registry is open.
  predicate AnalysisOwns(job: Job<Registry>) {
    job.Running? || job == Reported(true) || job.Succeeded?
  }

  predicate ConversionOwns(job: Job<Batch>) {
    job.Queued? || job.Running? || job.Cancelled?
  }

  lemma AnalysisMoved(s: State, i: nat, job: Job<Registry>, open: set<nat>)
    requires Exact(s) && Apart(s) && i in s.analyses
    requires open == if AnalysisOwns(job) then s.open + {i} else s.open - {i}
    ensures Exact(s.(analyses := s.analyses[i := job], open := open))
  {
  }

  lemma ConversionMoved(s: State, i: nat, job: Job<Batch>, open: set<nat>)
    requires Exact(s) && Apart(s) && i in s.conversions
    requires open == if ConversionOwns(job) then s.open + {i} else s.open - {i}
    ensures Exact(s.(conversions := s.conversions[i := job], open := open))
  {
  }

  lemma JobsOwn(s: State, i: nat)
    requires Exact(s) && Apart(s)
    ensures i in s.analyses ==> (i in s.open <==> AnalysisOwns(s.analyses[i]))
    ensures i in s.conversions ==> (i in s.open <==> ConversionOwns(s.conversions[i]))
  {
  }

  lemma WorkerExact(l: Limits, s: State, step: Step)
    requires Enabled(l, s, step) && WorkerStep(step) && Exact(s) && Apart(s)
    ensures Exact(ApplyWorker(l, s, step))
  {
    hide BusyJobs, FirstQueued, Exact, Apart;
    JobsOwn(s, step.i);
    match step
    case StartAnalysis(i) =>
      FirstIsQueued(s.analyses, i);
      AnalysisMoved(s, i, Running, s.open + {i});
    case ReportAnalysis(i, ok) =>
      OpenAlready(s.open, i);
      AnalysisMoved(s, i, Reported(ok), if ok then s.open else s.open - {i});
    case SettleAnalysis(i) =>
      OpenAlready(s.open, i);
      AnalysisMoved(s, i, if s.analyses[i].ok then Succeeded(Analyze(i)) else Raised, s.open);
    case StartConversion(i) =>
      FirstIsQueued(s.conversions, i);
      OpenAlready(s.open, i);
      ConversionMoved(s, i, Running, s.open);
    case ReportConversion(i, ok) =>
      ConversionMoved(s, i, Reported(ok), s.open - {i});
    case SettleConversion(i) =>
      OpenAlready(s.open, i);
      ConversionMoved(s, i, if s.conversions[i].ok then Succeeded(Convert(i, s.converting[i])) else Raised, s.open);
  }

  lemma OpenAlready(open: set<nat>, i: nat)
    ensures i in open ==> open + {i} == open
    ensures i !in open ==> open - {i} == open
  {
  }

  lemma CollectExact(s: State, i: nat)
    requires Exact(s) && Apart(s) && i in s.analyses && s.analyses[i].Succeeded? && i in s.slots
    ensures Exact(Collected(s, i))
  {
  }

  lemma SubmitConversionExact(s: State)
    requires Exact(s) && Apart(s) && s.nextConversion in s.pending && s.nextConversion !in s.conversions
    ensures Exact(ConversionSubmitted(s))
  {
  }

  lemma SubmitAnalysisExact(s: State)
    requires Exact(s) && Apart(s) && s.available != {}
    requires s.nextConfiguration !in s.analyses && s.nextConfiguration !in s.pending && s.nextConfiguration !in s.conversions
    ensures Exact(AnalysisSubmitted(s))
  {
    hide Least;
  }

  lemma SubmitExact(l: Limits, s: State, step: Step)
    requires Enabled(l, s, step) && Exact(s) && Apart(s)
    requires s.nextConversion !in s.conversions
    requires s.nextConfiguration !in s.analyses && s.nextConfiguration !in s.pending && s.nextConfiguration !in s.conversions
    requires step.Collect? || step.SubmitConversion? || step.SubmitAnalysis?
    ensures Exact(ApplyScheduler(l, s, step))
  {
    hide BusyJobs, Cancelling, DropFailed, Kept, Least, AllSettled, Released, Exact, Apart, Collected, ConversionSubmitted, AnalysisSubmitted;
    match step
    case Collect(i) => CollectExact(s, i);
    case SubmitConversion => SubmitConversionExact(s);
    case SubmitAnalysis => SubmitAnalysisExact(s);
  }

  lemma CancellingExact(s: State)
    requires Exact(s) && Apart(s)
    ensures Exact(Cancelling(s)) && Apart(Cancelling(s))
  {
  }

  lemma DropExact(s: State, seen: set<nat>)
    requires Exact(s) && Apart(s)
    ensures Exact(DropFailed(s, seen)) && Apart(DropFailed(s, seen))
  {
  }

  lemma EndExact(l: Limits, s: State, step: Step)
    requires Enabled(l, s, step) && Exact(s) && Apart(s)
    requires step.Fail? || step.Refuse? || step.Leave? || step.Stop? || step.Return?
    ensures Exact(ApplyScheduler(l, s, step))
  {
    hide BusyJobs, Cancelling, DropFailed, Kept, Least, AllSettled;
    match step
    case Fail(seen) =>
      DropExact(s, seen);
      CancellingExact(DropFailed(s, seen));
    case _ => CancellingExact(s);
  }

  lemma ReleaseExact(s: State)
    requires Exact(s) && Apart(s) && s.index in s.conversions && s.conversions[s.index].Succeeded?
    ensures Exact(Released(s))
  {
  }

  // The account looks at nothing but these.
  lemma BookedOnly(s: State, t: State)
    requires Exact(s) && t.analyses == s.analyses && t.pending == s.pending && t.conversions == s.conversions && t.open == s.open
    ensures Exact(t)
  {
  }

  lemma ConsumerExact(l: Limits, s: State, step: Step)
    requires Enabled(l, s, step) && Exact(s) && Apart(s) && (step.Take? || step.Release?)
    requires s.consumer.Holding? ==> s.index in s.conversions && s.conversions[s.index].Succeeded?
    ensures Exact(ApplyScheduler(l, s, step))
  {
    hide BusyJobs, Cancelling, DropFailed, Kept, Least, AllSettled, Collected, ConversionSubmitted, AnalysisSubmitted, Released;
    if step.Release? {
      hide Exact, Apart;
      ReleaseExact(s);
    } else {
      hide Exact, Apart;
      BookedOnly(s, ApplyScheduler(l, s, step));
    }
  }

  lemma CloseDownEmpties(l: Limits, s: State)
    requires Inv(l, s) && Enabled(l, s, CloseDown) && Accounted(s)
    ensures Apply(l, s, CloseDown).open == {} && AtRest(Apply(l, s, CloseDown))
  {
    hide SlotsWell, Published, AnalysesLabelled, RegistriesLabelled, ConversionsLabelled, Handing, CancelledJobs, Middle, Finished;
    assert s.converting.Keys == s.conversions.Keys;
    hide Inv;
    forall i | i in s.open
      ensures i in Kept(s)
    {
      OwnedIsKept(s, i);
    }
    hide Kept, OwnsRegistry;
  }

  lemma OwnedIsKept(s: State, i: nat)
    requires OwnsRegistry(s, i) && AllSettled(s.analyses) && AllSettled(s.conversions) && s.converting.Keys == s.conversions.Keys
    ensures i in Kept(s)
  {
  }

  // Until it is closed down, a run's account is exact.
  lemma ExactUntilClosed(l: Limits, s: State, step: Step)
    requires Accounted(s) && Enabled(l, s, step) && !step.CloseDown?
    ensures Exact(s)
  {
    hide Exact, AtRest, Enabled;
    if !Exact(s) {
      NothingAtRest(l, s, step);
    }
  }

  lemma SchedulerExact(l: Limits, s: State, step: Step)
    requires Inv(l, s) && Enabled(l, s, step) && Exact(s) && !WorkerStep(step) && !step.CloseDown?
    ensures Exact(ApplyScheduler(l, s, step))
  {
    BooksApart(l, s);
    Where(l, s);
    hide Inv, Exact, Apart, Enabled, ApplyScheduler;
    match step
    case Collect(_) => SubmitExact(l, s, step);
    case SubmitConversion => SubmitExact(l, s, step);
    case SubmitAnalysis => SubmitExact(l, s, step);
    case Take => ConsumerExact(l, s, step);
    case Release => ConsumerExact(l, s, step);
    case _ => EndExact(l, s, step);
  }

  lemma AccountedKept(l: Limits, s: State, step: Step)
    requires Inv(l, s) && Enabled(l, s, step) && Accounted(s)
    ensures Accounted(Apply(l, s, step))
  {
    hide Inv, Exact, Apart, Enabled, AtRest, ApplyWorker, ApplyScheduler;
    if step.CloseDown? {
      CloseDownEmpties(l, s);
    } else {
      ExactUntilClosed(l, s, step);
      if WorkerStep(step) {
        BooksApart(l, s);
        WorkerExact(l, s, step);
      } else {
        SchedulerExact(l, s, step);
      }
    }
  }

  lemma NothingAtRest(l: Limits, s: State, step: Step)
    requires AtRest(s)
    ensures Enabled(l, s, step) ==> step.CloseDown?
  {
    hide BusyJobs;
  }

  lemma {:induction false} RunAccounted(l: Limits, s: State, steps: seq<Step>, t: State)
    requires Inv(l, s) && Accounted(s) && Reaches(l, s, steps, t)
    ensures Inv(l, t) && Accounted(t)
    decreases |steps|
  {
    hide Inv, Accounted, Apply, Enabled;
    if steps != [] {
      StepKeeps(l, s, steps[0]);
      AccountedKept(l, s, steps[0]);
      RunAccounted(l, Apply(l, s, steps[0]), steps[1..], t);
    }
  }

  lemma ReachableAccounted(l: Limits, s: State)
    requires Sensible(l) && Reachable(l, s)
    ensures Inv(l, s) && Accounted(s)
  {
    InitialHolds(l);
    assert Exact(Initial(l));
    var steps :| Reaches(l, Initial(l), steps, s);
    RunAccounted(l, Initial(l), steps, s);
  }

  // However a run went - to the end, failed, cancelled or abandoned - closing down leaves no
  // registry open.
  lemma NothingLeaks(l: Limits, s: State)
    requires Sensible(l) && Reachable(l, s) && Enabled(l, s, CloseDown)
    ensures Apply(l, s, CloseDown).open == {}
  {
    ReachableAccounted(l, s);
    CloseDownEmpties(l, s);
  }

  // A converter always reads an open registry.
  lemma ConvertersReadOpen(l: Limits, s: State, i: nat)
    requires Sensible(l) && Reachable(l, s) && i in s.conversions && s.conversions[i].Running?
    ensures i in s.open
  {
    ReachableAccounted(l, s);
    assert OwnsRegistry(s, i) && !Settled(s.conversions[i]);
  }

  // Once the consumer has left, closing down is only a matter of the running jobs.
  predicate WindsDown(step: Step) {
    step.Stop? || step.ReportAnalysis? || step.SettleAnalysis? || step.ReportConversion? || step.SettleConversion? || step.CloseDown?
  }

  lemma AlwaysWindsDown(l: Limits, s: State) returns (step: Step)
    requires Inv(l, s) && s.consumer.Left?
    ensures WindsDown(step) && Enabled(l, s, step)
  {
    hide SlotsWell, Published, AnalysesLabelled, RegistriesLabelled, ConversionsLabelled, Handing, Middle, Finished, BusyJobs;
    if s.coordinating {
      return Stop;
    }
    if i :| i in s.analyses && !Settled(s.analyses[i]) {
      return if s.analyses[i].Running? then ReportAnalysis(i, true) else SettleAnalysis(i);
    }
    if i :| i in s.conversions && !Settled(s.conversions[i]) {
      return if s.conversions[i].Running? then ReportConversion(i, true) else SettleConversion(i);
    }
    return CloseDown;
  }
}
