// The scheduler's own code: one pass of the coordinator and the consumer's moves, each
// proved to be a run of pipeline steps.
module Coordinator {
  import opened Options
  import opened Pipeline
  import opened PipelineSafety

  lemma ReachesOneMore(l: Limits, s: State, steps: seq<Step>, t: State, step: Step)
    requires Reaches(l, s, steps, t) && Enabled(l, t, step)
    ensures Reaches(l, s, steps + [step], Apply(l, t, step))
  {
    hide Enabled, Apply;
    assert [step][1..] == [];
    assert Reaches(l, t, [step], Apply(l, t, step));
    ReachesConcat(l, s, steps, t, [step], Apply(l, t, step));
  }

  lemma StandStill(l: Limits, s: State)
    ensures Reaches(l, s, [], s)
  {
  }

  // Failures that a pass finds among finished futures.
  function Failures(s: State): set<nat> {
    (set i | i in s.analyses && s.analyses[i].Raised?) + (set i | i in s.conversions && s.conversions[i].Raised?)
  }

  // Finished analyses not yet collected.
  function Ready(analyses: map<nat, Job<Registry>>): set<nat> {
    set i | i in analyses && analyses[i].Succeeded?
  }

  // Everything submitted and finished.
  ghost predicate AllDone(l: Limits, s: State) {
    && s.nextConfiguration == l.total && s.analyses == map[] && s.pending == map[]
    && forall i :: i in s.conversions ==> s.conversions[i].Succeeded? || s.conversions[i].Raised? || s.conversions[i].Cancelled?
  }

  // The work of configuration i has gone wrong, and that of no earlier one.
  ghost predicate WentWrong(s: State, i: nat) {
    (i in s.analyses && s.analyses[i].Raised?) || (i in s.conversions && s.conversions[i].Raised?)
  }

  ghost predicate FirstWrong(s: State, i: nat) {
    WentWrong(s, i) && forall j :: WentWrong(s, j) ==> i <= j
  }

  lemma FailuresWentWrong(s: State)
    ensures forall i :: i in Failures(s) <==> WentWrong(s, i)
    ensures Failures(s) != {} ==> forall i :: FirstWrong(s, i) <==> i == Least(Failures(s))
  {
  }

  // What is left of futures once they are cancelled: those that had not begun are cancelled, and
  // any other goes on or stands as it was.
  ghost predicate QueuedCancelled<T(!new)>(before: map<nat, Job<T>>, after: map<nat, Job<T>>) {
    && after.Keys == before.Keys
    && forall i :: i in before ==> after[i] == if before[i].Queued? then Cancelled else before[i]
  }

  class Scheduler {
    const limits: Limits
    var analyses: map<nat, Job<Registry>>
    var slots: map<nat, nat>
    var available: set<nat>
    var pending: map<nat, Registry>
    var conversions: map<nat, Job<Batch>>
    var converting: map<nat, Registry>
    var nextConfiguration: nat
    var nextConversion: nat
    var held: int
    var failure: Option<Failure>
    var cancelled: bool
    var stopped: bool
    var coordinating: bool
    var consumer: Consumer
    var index: nat
    ghost var yielded: seq<Batch>
    ghost var open: set<nat>

    ghost function Now(): State
      reads this
    {
      State(analyses, slots, available, pending, conversions, converting, nextConfiguration, nextConversion, held,
            failure, cancelled, stopped, coordinating, consumer, index, yielded, open)
    }

    ghost predicate Valid()
      reads this
    {
      Sensible(limits) && Inv(limits, Now())
    }

    constructor (limits: Limits)
      requires Sensible(limits)
      ensures Valid() && this.limits == limits && Now() == Initial(limits)
    {
      this.limits := limits;
      analyses, slots, available, pending := map[], map[], Interval(0, limits.workers), map[];
      conversions, converting, nextConfiguration, nextConversion, held := map[], map[], 0, 0, 0;
      failure, cancelled, stopped, coordinating := None, false, false, true;
      consumer, index, yielded, open := Awaiting, 0, [], {};
      new;
      InitialHolds(limits);
    }

    // A finished analysis becomes a pending registry, and its slot comes free.
    method CollectOne(i: nat)
      requires Valid() && Enabled(limits, Now(), Collect(i))
      modifies this
      ensures Valid() && Now() == Apply(limits, old(Now()), Collect(i))
    {
      hide Inv, Apply, Enabled;
      CollectIs(limits, Now(), i);
      StepKeeps(limits, Now(), Collect(i));
      pending, analyses := pending[i := analyses[i].result], analyses - {i};
      slots, available := slots - {i}, available + {slots[i]};
    }

    // Moves finished analyses to the pending registries, in input order.
    method CollectFinished() returns (ghost steps: seq<Step>)
      requires Valid() && coordinating && !stopped
      modifies this
      ensures Valid() && coordinating && !stopped && Reaches(limits, old(Now()), steps, Now())
      ensures forall i :: i in analyses ==> !analyses[i].Succeeded?
      ensures Failures(Now()) == Failures(old(Now())) && failure == old(failure)
    {
      hide Inv, Enabled, Apply, Reaches, Failures, Least, Collected;
      steps := [];
      StandStill(limits, Now());
      var todo := Ready(analyses);
      ghost var start := Now();
      while todo != {}
        invariant Valid() && coordinating && !stopped && Reaches(limits, start, steps, Now())
        invariant todo == Ready(analyses)
        invariant Failures(Now()) == Failures(start) && failure == start.failure
        decreases |todo|
      {
        var i := Least(todo);
        ghost var before := Now();
        CollectReady(limits, before, i);
        CollectIs(limits, before, i);
        CollectKeepsFailures(before, i);
        CollectOne(i);
        ReachesOneMore(limits, start, steps, before, Collect(i));
        steps := steps + [Collect(i)];
        todo := todo - {i};
      }
      assert forall i :: i in analyses && analyses[i].Succeeded? ==> i in Ready(analyses);
    }

    method SubmitOneConversion()
      requires Valid() && Enabled(limits, Now(), SubmitConversion)
      modifies this
      ensures Valid() && Now() == Apply(limits, old(Now()), SubmitConversion)
    {
      hide Inv, Apply, Enabled;
      SubmitConversionIs(limits, Now());
      StepKeeps(limits, Now(), SubmitConversion);
      var i := nextConversion;
      var registry := pending[i];
      nextConversion, pending := i + 1, pending - {i};
      converting, conversions := converting[i := registry], conversions[i := Queued];
    }

    // Starts conversions in input order while there is room.
    method SubmitConversions() returns (ghost steps: seq<Step>)
      requires Valid() && coordinating && !stopped
      modifies this
      ensures Valid() && coordinating && !stopped && Reaches(limits, old(Now()), steps, Now())
      ensures nextConversion !in pending || |conversions| >= limits.maxBatches
      ensures analyses == old(analyses) && failure == old(failure)
    {
      hide Inv, Apply, Reaches, Enabled, ConversionSubmitted;
      steps := [];
      StandStill(limits, Now());
      ghost var start := Now();
      while nextConversion in pending && |conversions| < limits.maxBatches
        invariant Valid() && coordinating && !stopped && Reaches(limits, start, steps, Now())
        invariant analyses == start.analyses && failure == start.failure
        decreases limits.total - nextConversion
      {
        ghost var before := Now();
        CanSubmitConversion(limits, before);
        SubmitConversionIs(limits, before);
        PendingIsAhead(limits, before);
        SubmittedConversionKeeps(before);
        SubmitOneConversion();
        ReachesOneMore(limits, start, steps, before, SubmitConversion);
        steps := steps + [SubmitConversion];
      }
    }

    method SubmitOneAnalysis()
      requires Valid() && Enabled(limits, Now(), SubmitAnalysis)
      modifies this
      ensures Valid() && Now() == Apply(limits, old(Now()), SubmitAnalysis)
    {
      hide Inv, Apply, Enabled, Least;
      SubmitAnalysisIs(limits, Now());
      StepKeeps(limits, Now(), SubmitAnalysis);
      var i, slot := nextConfiguration, Least(available);
      available := available - {slot};
      nextConfiguration := nextConfiguration + 1;
      held := held + 1;
      slots := slots[i := slot];
      analyses := analyses[i := Queued];
    }

    // Starts analyses while workers, slots and spool capacity last.
    method SubmitAnalyses() returns (ghost steps: seq<Step>)
      requires Valid() && coordinating && !stopped
      modifies this
      ensures Valid() && coordinating && !stopped && Reaches(limits, old(Now()), steps, Now())
      ensures nextConfiguration >= limits.total || |analyses| >= limits.workers || held >= limits.maxSpool
      ensures pending == old(pending) && conversions == old(conversions) && nextConversion == old(nextConversion)
      ensures failure == old(failure)
    {
      hide Inv, Apply, Reaches, Enabled, AnalysisSubmitted;
      steps := [];
      StandStill(limits, Now());
      ghost var start := Now();
      while nextConfiguration < limits.total && |analyses| < limits.workers && held < limits.maxSpool
        invariant Valid() && coordinating && !stopped && Reaches(limits, start, steps, Now())
        invariant pending == start.pending && conversions == start.conversions && nextConversion == start.nextConversion
        invariant failure == start.failure
        decreases limits.total - nextConfiguration
      {
        ghost var before := Now();
        SlotForAnalysis(limits, before);
        CanSubmitAnalysis(limits, before);
        SubmitAnalysisIs(limits, before);
        SubmittedAnalysisKeeps(before);
        SubmitOneAnalysis();
        ReachesOneMore(limits, start, steps, before, SubmitAnalysis);
        steps := steps + [SubmitAnalysis];
      }
    }

    // Cancels what is queued and records why the run ends.
    method Abandon(reason: Failure)
      modifies this
      ensures Now() == Cancelling(old(Now())).(failure := Some(reason), coordinating := false)
      ensures QueuedCancelled(old(analyses), analyses) && QueuedCancelled(old(conversions), conversions)
    {
      hide Inv, CancelAll, QueuedCancelled;
      CancelsQueued(analyses);
      CancelsQueued(conversions);
      failure, cancelled, coordinating := Some(reason), true, false;
      analyses, conversions := CancelAll(analyses), CancelAll(conversions);
    }

    // Failed analyses leave the books, and their slots come free.
    method DropFailures(failures: set<nat>)
      modifies this
      ensures Now() == DropFailed(old(Now()), failures) && conversions == old(conversions)
    {
      hide Inv, SlotsOf;
      var gone := set i | i in analyses && i in failures && analyses[i].Raised?;
      available := available + SlotsOf(slots, gone);
      analyses := analyses - gone;
      slots := slots - gone;
    }

    // Ends the run with the failure that comes first in input order.
    method ReportFailure(failures: set<nat>)
      requires Valid() && coordinating && !stopped && failures != {} && failures == Failures(Now())
      modifies this
      ensures Valid() && !coordinating && failure == Some(WorkFailure(Least(failures)))
      ensures Enabled(limits, old(Now()), Fail(failures)) && Now() == Apply(limits, old(Now()), Fail(failures))
      ensures QueuedCancelled(old(conversions), conversions)
    {
      hide Inv, Apply, Enabled, Least, DropFailed, Cancelling, Failures, QueuedCancelled;
      FailIs(limits, Now(), failures);
      StepKeeps(limits, Now(), Fail(failures));
      DropFailures(failures);
      Abandon(WorkFailure(Least(failures)));
    }

    method EndPass(ghost step: Step)
      requires Valid() && coordinating && Enabled(limits, Now(), step) && (step.Stop? || step.Return?)
      modifies this`coordinating
      ensures Valid() && !coordinating && Now() == Apply(limits, old(Now()), step)
    {
      hide Inv, Apply, Enabled;
      EndIs(limits, Now(), step);
      StepKeeps(limits, Now(), step);
      coordinating := false;
    }

    method RefuseRequest()
      requires Valid() && coordinating && !stopped
      modifies this
      ensures Valid() && !coordinating && failure == Some(RequestFailure) && Now() == Apply(limits, old(Now()), Refuse)
    {
      hide Inv, Apply, Enabled, Cancelling;
      RefuseIs(limits, Now());
      StepKeeps(limits, Now(), Refuse);
      Abandon(RequestFailure);
    }

    // One pass: everything finished is seen, the earliest failure ends the run, and otherwise
    // nothing that could be submitted is left unsubmitted.
    method Pass(requestFailed: bool) returns (ghost steps: seq<Step>)
      requires Valid() && coordinating
      modifies this
      ensures Valid() && Reaches(limits, old(Now()), steps, Now())
      ensures old(stopped) ==> !coordinating && failure == old(failure)
      ensures !old(stopped) && requestFailed ==> failure == Some(RequestFailure) && !coordinating
      ensures !old(stopped) && !requestFailed ==>
                forall i :: FirstWrong(old(Now()), i) ==> failure == Some(WorkFailure(i)) && !coordinating
      ensures !old(stopped) && !requestFailed && (forall i :: !WentWrong(old(Now()), i)) ==>
                && failure == old(failure)
                && (nextConversion !in pending || |conversions| >= limits.maxBatches)
                && (nextConfiguration >= limits.total || |analyses| >= limits.workers || held >= limits.maxSpool)
                && (coordinating <==> !AllDone(limits, Now()))
    {
      hide Inv, Enabled, Apply, Reaches, Least, Failures, Cancelling, AllDone, WentWrong;
      ghost var start := Now();
      FailuresWentWrong(start);
      if stopped {
        EndIs(limits, start, Stop);
        OneStep(limits, start, Stop);
        EndPass(Stop);
        return [Stop];
      }
      if requestFailed {
        RefuseIs(limits, start);
        OneStep(limits, start, Refuse);
        RefuseRequest();
        return [Refuse];
      }
      steps := CollectFinished();
      var failures := FailuresFound();
      if failures != {} {
        ghost var collected := Now();
        ReportFailure(failures);
        ReachesOneMore(limits, start, steps, collected, Fail(failures));
        return steps + [Fail(failures)];
      }
      ghost var collected := Now();
      ghost var more := SubmitAll();
      ReachesConcat(limits, start, steps, collected, more, Now());
      steps := steps + more;
    }

    method FailuresFound() returns (failures: set<nat>)
      ensures failures == Failures(Now())
    {
      failures := (set i | i in analyses && analyses[i].Raised?) + (set i | i in conversions && conversions[i].Raised?);
    }

    // The submitting half of a pass, and its normal end.
    method SubmitAll() returns (ghost steps: seq<Step>)
      requires Valid() && coordinating && !stopped
      modifies this
      ensures Valid() && Reaches(limits, old(Now()), steps, Now()) && failure == old(failure)
      ensures nextConversion !in pending || |conversions| >= limits.maxBatches
      ensures nextConfiguration >= limits.total || |analyses| >= limits.workers || held >= limits.maxSpool
      ensures coordinating <==> !AllDone(limits, Now())
    {
      hide Inv, Enabled, Apply, Reaches;
      ghost var start := Now();
      steps := SubmitConversions();
      ghost var converted := Now();
      ghost var more := SubmitAnalyses();
      ReachesConcat(limits, start, steps, converted, more, Now());
      steps := steps + more;
      if nextConfiguration == limits.total && analyses == map[] && pending == map[] && AllSettled(conversions) {
        ghost var last := Now();
        EndIs(limits, last, Return);
        ReachesOneMore(limits, start, steps, last, Return);
        EndPass(Return);
        steps := steps + [Return];
      }
    }

    // The consumer takes its next batch when the conversion has succeeded.
    method Take() returns (batch: Batch)
      requires Valid() && Enabled(limits, Now(), Step.Take)
      modifies this
      ensures Valid() && Now() == Apply(limits, old(Now()), Step.Take)
      ensures batch == Convert(index, Analyze(index)) && index == old(index)
    {
      hide Inv, Apply, Enabled;
      TakeIs(limits, Now());
      StepKeeps(limits, Now(), Step.Take);
      batch := conversions[index].result;
      consumer := Holding;
      yielded := yielded + [batch];
    }

    // Giving a batch back frees its place in the window and its share of the spool.
    method Release()
      requires Valid() && Enabled(limits, Now(), Step.Release)
      modifies this
      ensures Valid() && Now() == Apply(limits, old(Now()), Step.Release)
      ensures held == old(held) - 1 && index == old(index) + 1
    {
      hide Inv, Apply, Enabled, Sensible;
      ReleaseIs(limits, Now());
      StepKeeps(limits, Now(), Step.Release);
      conversions := conversions - {index};
      converting := converting - {index};
      held := held - 1;
      index := index + 1;
      consumer := Awaiting;
    }

    // Leaving, for whatever reason, stops the coordinator and cancels what is queued.
    method Leave()
      requires Valid() && Enabled(limits, Now(), Step.Leave)
      modifies this
      ensures Valid() && stopped && Now() == Apply(limits, old(Now()), Step.Leave)
      ensures QueuedCancelled(old(analyses), analyses) && QueuedCancelled(old(conversions), conversions)
    {
      hide Inv, Apply, Enabled, CancelAll, QueuedCancelled;
      LeaveIs(limits, Now());
      StepKeeps(limits, Now(), Step.Leave);
      CancelsQueued(analyses);
      CancelsQueued(conversions);
      stopped := true;
      cancelled := true;
      analyses := CancelAll(analyses);
      conversions := CancelAll(conversions);
      consumer := Left;
    }
  }

  lemma CancelsQueued<T(!new)>(jobs: map<nat, Job<T>>)
    ensures QueuedCancelled(jobs, CancelAll(jobs))
  {
  }

  lemma OneStep(l: Limits, s: State, step: Step)
    requires Enabled(l, s, step)
    ensures Reaches(l, s, [step], Apply(l, s, step))
  {
    hide Enabled, Apply;
    assert [step][1..] == [];
  }

  lemma CollectKeepsFailures(s: State, i: nat)
    requires i in s.analyses && s.analyses[i].Succeeded? && i in s.slots
    ensures Failures(Collected(s, i)) == Failures(s) && Ready(Collected(s, i).analyses) == Ready(s.analyses) - {i}
    ensures var t := Collected(s, i); t.coordinating == s.coordinating && t.stopped == s.stopped && t.failure == s.failure
  {
  }

  lemma PendingIsAhead(l: Limits, s: State)
    requires Inv(l, s) && s.nextConversion in s.pending
    ensures s.nextConversion < l.total
  {
    hide SlotsWell, Published, AnalysesLabelled, RegistriesLabelled, ConversionsLabelled, Handing, CancelledJobs, Finished;
    assert s.nextConversion in s.analyses.Keys + s.pending.Keys;
  }

  lemma SubmittedConversionKeeps(s: State)
    requires s.nextConversion in s.pending
    ensures var t := ConversionSubmitted(s);
            && t.coordinating == s.coordinating && t.stopped == s.stopped && t.failure == s.failure
            && t.analyses == s.analyses && t.nextConversion == s.nextConversion + 1
  {
  }

  lemma SubmittedAnalysisKeeps(s: State)
    requires s.available != {}
    ensures var t := AnalysisSubmitted(s);
            && t.coordinating == s.coordinating && t.stopped == s.stopped && t.failure == s.failure
            && t.pending == s.pending && t.conversions == s.conversions && t.nextConversion == s.nextConversion
            && t.nextConfiguration == s.nextConfiguration + 1
  {
    hide Least;
  }

  // What each step comes to -----------------------------------------------------------------

  lemma CollectReady(l: Limits, s: State, i: nat)
    requires Inv(l, s) && s.coordinating && !s.stopped && i in s.analyses && s.analyses[i].Succeeded?
    ensures i in s.slots && Enabled(l, s, Collect(i))
  {
  }

  lemma CollectIs(l: Limits, s: State, i: nat)
    requires Enabled(l, s, Collect(i))
    ensures i in s.analyses && s.analyses[i].Succeeded? && i in s.slots && Apply(l, s, Collect(i)) == Collected(s, i)
  {
  }

  lemma CanSubmitConversion(l: Limits, s: State)
    requires s.coordinating && !s.stopped && s.nextConversion in s.pending && |s.conversions| < l.maxBatches
    ensures Enabled(l, s, SubmitConversion)
  {
  }

  lemma SubmitConversionIs(l: Limits, s: State)
    requires Enabled(l, s, SubmitConversion)
    ensures s.nextConversion in s.pending && Apply(l, s, SubmitConversion) == ConversionSubmitted(s)
  {
    hide ConversionSubmitted;
  }

  lemma SlotForAnalysis(l: Limits, s: State)
    requires Inv(l, s) && |s.analyses| < l.workers
    ensures s.available != {}
  {
    hide SlotsWell;
    assert |s.slots| == |s.slots.Keys| && |s.analyses| == |s.analyses.Keys|;
    SlotFree(l.workers, s.slots, s.available);
  }

  lemma CanSubmitAnalysis(l: Limits, s: State)
    requires s.coordinating && !s.stopped && s.nextConfiguration < l.total && |s.analyses| < l.workers && s.held < l.maxSpool
    requires s.available != {}
    ensures Enabled(l, s, SubmitAnalysis)
  {
  }

  lemma SubmitAnalysisIs(l: Limits, s: State)
    requires Enabled(l, s, SubmitAnalysis)
    ensures s.available != {} && Apply(l, s, SubmitAnalysis) == AnalysisSubmitted(s)
  {
    hide AnalysisSubmitted;
  }

  lemma FailIs(l: Limits, s: State, seen: set<nat>)
    requires s.coordinating && !s.stopped && seen != {} && seen == Failures(s)
    ensures Enabled(l, s, Fail(seen))
    ensures Apply(l, s, Fail(seen))
            == Cancelling(DropFailed(s, seen)).(failure := Some(WorkFailure(Least(seen))), coordinating := false)
  {
    hide DropFailed, Least, Cancelling;
  }

  lemma EndIs(l: Limits, s: State, step: Step)
    requires s.coordinating && (step.Stop? || step.Return?)
    requires Enabled(l, s, step) || (step.Stop? && s.stopped) || (step.Return? && !s.stopped && AllDone(l, s))
    ensures Enabled(l, s, step) && Apply(l, s, step) == s.(coordinating := false)
  {
  }

  lemma RefuseIs(l: Limits, s: State)
    requires s.coordinating && !s.stopped
    ensures Enabled(l, s, Refuse) && Apply(l, s, Refuse) == Cancelling(s).(failure := Some(RequestFailure), coordinating := false)
  {
  }

  lemma TakeIs(l: Limits, s: State)
    requires Inv(l, s) && Enabled(l, s, Take)
    ensures s.index in s.conversions && s.conversions[s.index] == Succeeded(Convert(s.index, Analyze(s.index)))
    ensures Apply(l, s, Take) == s.(consumer := Holding, yielded := s.yielded + [s.conversions[s.index].result])
  {
    hide Counters, Middle, SlotsWell, Published, AnalysesLabelled, RegistriesLabelled, Handing, CancelledJobs, Finished;
  }

  lemma ReleaseIs(l: Limits, s: State)
    requires Enabled(l, s, Release)
    ensures s.consumer.Holding? && Apply(l, s, Release) == Released(s)
  {
    hide Released;
  }

  lemma LeaveIs(l: Limits, s: State)
    requires Enabled(l, s, Leave)
    ensures s.consumer.Awaiting? && Apply(l, s, Leave) == Cancelling(s).(stopped := true, consumer := Left)
  {
    hide Cancelling;
  }
}
