// What every step of the pipeline keeps, and so every reachable state has.
module PipelineSafety {
  import opened Options
  import opened Pipeline
  import Graphs

  lemma {:induction false} IntervalSize(low: nat, high: nat)
    requires low <= high
    ensures |Interval(low, high)| == high - low
    decreases high - low
  {
    if low < high {
      IntervalSize(low + 1, high);
      assert Interval(low, high) == Interval(low + 1, high) + {low};
    } else {
      assert Interval(low, high) == {};
    }
  }

  // Slots ---------------------------------------------------------------------------------

  lemma SlotsGivenBack(workers: nat, slots: map<nat, nat>, available: set<nat>, gone: set<nat>)
    requires SlotsWell(workers, slots, available)
    ensures SlotsWell(workers, slots - gone, available + SlotsOf(slots, gone))
  {
    var back := SlotsOf(slots, gone);
    forall x | x in Used(slots)
      ensures x in back <==> x !in Used(slots - gone)
    {
      var i :| i in slots && slots[i] == x;
      assert i !in gone ==> (slots - gone)[i] == x;
    }
    assert available + back == Interval(0, workers) - Used(slots - gone);
  }

  lemma SlotGivenBack(workers: nat, slots: map<nat, nat>, available: set<nat>, i: nat)
    requires SlotsWell(workers, slots, available) && i in slots
    ensures SlotsWell(workers, slots - {i}, available + {slots[i]})
  {
    SlotsGivenBack(workers, slots, available, {i});
    hide SlotsWell;
    assert SlotsOf(slots, {i}) == {slots[i]};
  }

  lemma SlotGivenOut(workers: nat, slots: map<nat, nat>, available: set<nat>, i: nat, slot: nat)
    requires SlotsWell(workers, slots, available) && i !in slots && slot in available
    ensures SlotsWell(workers, slots[i := slot], available - {slot})
  {
    var after := slots[i := slot];
    assert forall x :: x in Used(after) <==> x == slot || x in Used(slots) by {
      forall x | x == slot || x in Used(slots)
        ensures x in Used(after)
      {
        if x == slot {
          assert after[i] == x;
        } else {
          var j :| j in slots && slots[j] == x;
          assert after[j] == x;
        }
      }
    }
    assert forall j :: j in slots ==> slots[j] in Used(slots);
  }

  lemma {:induction false} FewUsed(slots: map<nat, nat>)
    ensures |Used(slots)| <= |slots|
    decreases |slots|
  {
    if i :| i in slots {
      var rest := slots - {i};
      assert slots.Keys == rest.Keys + {i};
      FewUsed(rest);
      assert Used(slots) == Used(rest) + {slots[i]} by {
        forall x | x in Used(slots)
          ensures x in Used(rest) + {slots[i]}
        {
          var j :| j in slots && slots[j] == x;
          assert j != i ==> rest[j] == x;
        }
      }
    }
  }

  // While a worker is free, so is a slot.
  lemma SlotFree(workers: nat, slots: map<nat, nat>, available: set<nat>)
    requires SlotsWell(workers, slots, available) && |slots| < workers
    ensures available != {}
  {
    FewUsed(slots);
    IntervalSize(0, workers);
    if available == {} {
      forall x | x in Interval(0, workers)
        ensures x in Used(slots)
      {
        assert x !in Interval(0, workers) - Used(slots);
      }
      Graphs.SubsetSize(Interval(0, workers), Used(slots));
    }
  }

  lemma KeysAdd<V>(m: map<nat, V>, i: nat, v: V)
    ensures m[i := v].Keys == m.Keys + {i} && |m| == |m.Keys|
  {
  }

  lemma KeysDrop<V>(m: map<nat, V>, gone: set<nat>)
    ensures (m - gone).Keys == m.Keys - gone && |(m - gone).Keys| <= |m.Keys|
  {
    Graphs.SubsetSize(m.Keys - gone, m.Keys);
  }

  // Futures -----------------------------------------------------------------------------------

  // One future moves on; the books do not change.
  lemma AnalysisMoves(l: Limits, s: State, i: nat, job: Job<Registry>, open: set<nat>)
    requires Inv(l, s) && i in s.analyses && !s.analyses[i].Cancelled? && !job.Cancelled? && !job.Queued?
    requires job.Succeeded? ==> job.result == Analyze(i)
    ensures Inv(l, s.(analyses := s.analyses[i := job], open := open))
  {
    hide Counters, Middle, SlotsWell, Published, ConversionsLabelled, RegistriesLabelled, Handing, Flags, Finished;
    assert s.analyses[i := job].Keys == s.analyses.Keys;
  }

  lemma ConversionMoves(l: Limits, s: State, i: nat, job: Job<Batch>, open: set<nat>)
    requires Inv(l, s) && i in s.conversions && !Settled(s.conversions[i]) && !job.Cancelled? && !job.Queued?
    requires job.Succeeded? ==> job.result == Convert(i, Analyze(i))
    ensures Inv(l, s.(conversions := s.conversions[i := job], open := open))
  {
    hide Counters, Middle, SlotsWell, Published, AnalysesLabelled, RegistriesLabelled, Flags;
    assert s.conversions[i := job].Keys == s.conversions.Keys;
  }

  lemma AnalysisStepKeeps(l: Limits, s: State, step: Step)
    requires Inv(l, s) && Enabled(l, s, step) && (step.StartAnalysis? || step.ReportAnalysis? || step.SettleAnalysis?)
    ensures Inv(l, Apply(l, s, step))
  {
    hide Inv, BusyJobs;
    match step
    case StartAnalysis(i) => AnalysisMoves(l, s, i, Running, s.open + {i});
    case ReportAnalysis(i, ok) => AnalysisMoves(l, s, i, Reported(ok), if ok then s.open else s.open - {i});
    case SettleAnalysis(i) => AnalysisMoves(l, s, i, if s.analyses[i].ok then Succeeded(Analyze(i)) else Raised, s.open);
  }

  lemma ConversionStepKeeps(l: Limits, s: State, step: Step)
    requires Inv(l, s) && Enabled(l, s, step) && (step.StartConversion? || step.ReportConversion? || step.SettleConversion?)
    ensures Inv(l, Apply(l, s, step))
  {
    hide Counters, Middle, SlotsWell, Published, AnalysesLabelled, RegistriesLabelled, ConversionsLabelled, Handing,
         CancelledJobs, Finished, BusyJobs;
    match step
    case StartConversion(i) => ConversionMoves(l, s, i, Running, s.open);
    case ReportConversion(i, ok) => ConversionMoves(l, s, i, Reported(ok), s.open - {i});
    case SettleConversion(i) =>
      RegistryOf(s.converting, i);
      ConversionMoves(l, s, i, if s.conversions[i].ok then Succeeded(Convert(i, s.converting[i])) else Raised, s.open);
  }

  // Cancelling ------------------------------------------------------------------------------

  lemma CancelAllMeaning<T>(jobs: map<nat, Job<T>>)
    ensures CancelAll(jobs).Keys == jobs.Keys && CancelledJobs(true, CancelAll(jobs))
    ensures forall i :: i in jobs && !jobs[i].Queued? ==> CancelAll(jobs)[i] == jobs[i]
    ensures forall i :: i in jobs && CancelAll(jobs)[i].Succeeded? ==> CancelAll(jobs)[i] == jobs[i]
  {
  }

  // A run that fails, or is given up, keeps everything but its queued futures.
  lemma CancellingKeeps(l: Limits, s: State, failure: Option<Failure>, stopped: bool, coordinating: bool, consumer: Consumer)
    requires Inv(l, s) && (failure.Some? || stopped) && Flags(failure.Some?, true, stopped, consumer.Left?, coordinating)
    requires s.failure.Some? ==> failure.Some?
    requires s.consumer == consumer || (s.consumer.Awaiting? && consumer.Left?)
    ensures Inv(l, Cancelling(s).(failure := failure, stopped := stopped, coordinating := coordinating, consumer := consumer))
  {
    CancelAllMeaning(s.analyses);
    CancelAllMeaning(s.conversions);
    hide Counters, SlotsWell, Published, RegistriesLabelled, CancelAll, CancelledJobs, Flags;
  }

  // Taking futures or registries out of their maps, or putting one in, keeps the labels.
  lemma AnalysesShrink(analyses: map<nat, Job<Registry>>, gone: set<nat>)
    requires AnalysesLabelled(analyses)
    ensures AnalysesLabelled(analyses - gone)
  {
  }

  lemma RegistriesShrink(registries: map<nat, Registry>, gone: set<nat>)
    requires RegistriesLabelled(registries)
    ensures RegistriesLabelled(registries - gone)
  {
  }

  lemma ConversionsShrink(conversions: map<nat, Job<Batch>>, gone: set<nat>)
    requires ConversionsLabelled(conversions)
    ensures ConversionsLabelled(conversions - gone)
  {
  }

  lemma AnalysesGrow(analyses: map<nat, Job<Registry>>, i: nat)
    requires AnalysesLabelled(analyses)
    ensures AnalysesLabelled(analyses[i := Queued])
  {
  }

  lemma RegistriesGrow(registries: map<nat, Registry>, i: nat)
    requires RegistriesLabelled(registries)
    ensures RegistriesLabelled(registries[i := Analyze(i)])
  {
  }

  lemma ConversionsGrow(conversions: map<nat, Job<Batch>>, i: nat)
    requires ConversionsLabelled(conversions)
    ensures ConversionsLabelled(conversions[i := Queued])
  {
  }

  lemma JobsShrink<T>(cancelled: bool, jobs: map<nat, Job<T>>, gone: set<nat>)
    requires CancelledJobs(cancelled, jobs)
    ensures CancelledJobs(cancelled, jobs - gone)
  {
  }

  lemma JobsGrow<T>(jobs: map<nat, Job<T>>, i: nat)
    requires CancelledJobs(false, jobs)
    ensures CancelledJobs(false, jobs[i := Queued])
  {
  }

  // Failed analyses drop out of the books.
  lemma DropFailedKeeps(l: Limits, s: State, seen: set<nat>)
    requires Inv(l, s) && s.coordinating && !s.stopped
    ensures Inv(l, DropFailed(s, seen).(failure := Some(WorkFailure(0)), coordinating := false, cancelled := true,
                                        analyses := CancelAll(DropFailed(s, seen).analyses), conversions := CancelAll(s.conversions)))
  {
    hide Inv, DropFailed, CancelAll, SlotsWell, AnalysesLabelled, ConversionsLabelled, Middle, Handing, CancelledJobs, SlotsOf;
    var gone := RaisedAmong(s, seen);
    DropFailedIs(s, seen);
    DropComponents(l, s, gone);
    BooksReplaced(l, s, CancelAll(s.analyses - gone), s.slots - gone, s.available + SlotsOf(s.slots, gone), CancelAll(s.conversions));
  }

  function RaisedAmong(s: State, seen: set<nat>): set<nat> {
    set i | i in s.analyses && i in seen && s.analyses[i].Raised?
  }

  lemma DropFailedIs(s: State, seen: set<nat>)
    ensures var gone := RaisedAmong(s, seen);
            DropFailed(s, seen) == s.(analyses := s.analyses - gone, slots := s.slots - gone,
                                      available := s.available + SlotsOf(s.slots, gone))
  {
    hide SlotsOf;
  }

  lemma DropComponents(l: Limits, s: State, gone: set<nat>)
    requires Inv(l, s)
    ensures var analyses := CancelAll(s.analyses - gone); var conversions := CancelAll(s.conversions);
            && analyses.Keys == s.analyses.Keys - gone && (s.slots - gone).Keys == analyses.Keys
            && |analyses.Keys| <= l.workers && conversions.Keys == s.conversions.Keys
            && SlotsWell(l.workers, s.slots - gone, s.available + SlotsOf(s.slots, gone))
            && AnalysesLabelled(analyses) && ConversionsLabelled(conversions)
            && Middle(analyses.Keys, s.pending.Keys, s.nextConversion, s.nextConfiguration, false)
            && Handing(s.consumer, s.index, |s.yielded|, conversions)
            && CancelledJobs(true, analyses) && CancelledJobs(true, conversions)
  {
    hide Counters, Middle, SlotsWell, Published, AnalysesLabelled, RegistriesLabelled, ConversionsLabelled, Handing,
         CancelledJobs, CancelAll, Finished, SlotsOf, Flags;
    var left := s.analyses - gone;
    SlotsGivenBack(l.workers, s.slots, s.available, gone);
    KeysDrop(s.analyses, gone);
    KeysDrop(s.slots, gone);
    CancelAllMeaning(left);
    CancelAllMeaning(s.conversions);
    AnalysesShrink(s.analyses, gone);
    CancelledLabels(left, s.conversions);
    MiddleLoosens(s.analyses.Keys, left.Keys, s.pending.Keys, s.nextConversion, s.nextConfiguration, s.failure.None?);
    HandingCancelled(s.consumer, s.index, |s.yielded|, s.conversions);
  }

  // The books of a run that has just failed.
  lemma BooksReplaced(l: Limits, s: State, analyses: map<nat, Job<Registry>>, slots: map<nat, nat>, available: set<nat>,
                      conversions: map<nat, Job<Batch>>)
    requires Inv(l, s) && s.coordinating && !s.stopped
    requires analyses.Keys <= s.analyses.Keys && slots.Keys == analyses.Keys && |analyses.Keys| <= l.workers
    requires conversions.Keys == s.conversions.Keys && SlotsWell(l.workers, slots, available)
    requires AnalysesLabelled(analyses) && ConversionsLabelled(conversions)
    requires Middle(analyses.Keys, s.pending.Keys, s.nextConversion, s.nextConfiguration, false)
    requires Handing(s.consumer, s.index, |s.yielded|, conversions)
    requires CancelledJobs(true, analyses) && CancelledJobs(true, conversions)
    ensures Inv(l, s.(failure := Some(WorkFailure(0)), coordinating := false, cancelled := true, analyses := analyses,
                      slots := slots, available := available, conversions := conversions))
  {
    hide Counters, Middle, SlotsWell, Published, AnalysesLabelled, RegistriesLabelled, ConversionsLabelled, Handing,
         CancelledJobs, Finished;
    NotFinished(l, s.nextConfiguration, analyses.Keys, s.pending.Keys, conversions);
  }

  lemma NotFinished(l: Limits, nextConfiguration: nat, analyses: set<nat>, pending: set<nat>, conversions: map<nat, Job<Batch>>)
    ensures Finished(l, false, nextConfiguration, analyses, pending, conversions)
  {
  }

  lemma CancelledLabels(analyses: map<nat, Job<Registry>>, conversions: map<nat, Job<Batch>>)
    ensures AnalysesLabelled(analyses) ==> AnalysesLabelled(CancelAll(analyses))
    ensures ConversionsLabelled(conversions) ==> ConversionsLabelled(CancelAll(conversions))
  {
  }

  lemma MiddleLoosens(analyses: set<nat>, fewer: set<nat>, pending: set<nat>, low: nat, high: nat, whole: bool)
    requires Middle(analyses, pending, low, high, whole) && fewer <= analyses
    ensures Middle(fewer, pending, low, high, false)
  {
  }

  lemma HandingCancelled(consumer: Consumer, index: nat, count: nat, conversions: map<nat, Job<Batch>>)
    requires Handing(consumer, index, count, conversions)
    ensures Handing(consumer, index, count, CancelAll(conversions))
  {
  }

  lemma FailKeeps(l: Limits, s: State, seen: set<nat>)
    requires Inv(l, s) && Enabled(l, s, Fail(seen))
    ensures Inv(l, Apply(l, s, Fail(seen)))
  {
    hide Counters, Middle, SlotsWell, Published, AnalysesLabelled, RegistriesLabelled, ConversionsLabelled, Handing,
         CancelledJobs, Finished, CancelAll, Least, DropFailed;
    assert Apply(l, s, Fail(seen))
           == Cancelling(DropFailed(s, seen)).(failure := Some(WorkFailure(Least(seen))), coordinating := false);
    hide Apply;
    DropFailedKeeps(l, s, seen);
    DropKeepsConversions(s, seen);
  }

  lemma DropKeepsConversions(s: State, seen: set<nat>)
    ensures DropFailed(s, seen).conversions == s.conversions
  {
  }

  // The coordinator -------------------------------------------------------------------------

  lemma CollectKeeps(l: Limits, s: State, i: nat)
    requires Inv(l, s) && Enabled(l, s, Collect(i))
    ensures Inv(l, Apply(l, s, Collect(i)))
  {
    hide Counters, Middle, SlotsWell, Published, AnalysesLabelled, RegistriesLabelled, ConversionsLabelled, Handing,
         CancelledJobs, Finished;
    var t := Collected(s, i);
    assert Apply(l, s, Collect(i)) == t;
    hide Apply, Cancelling, DropFailed, Kept;
    SlotGivenBack(l.workers, s.slots, s.available, i);
    MiddleMoves(s.analyses.Keys, s.pending.Keys, s.nextConversion, s.nextConfiguration, s.failure.None?, i);
    AnalysesShrink(s.analyses, {i});
    RegistriesGrow(s.pending, i);
    JobsShrink(s.cancelled, s.analyses, {i});
    LabelOf(s.analyses, i);
    NotFinished(l, t.nextConfiguration, t.analyses.Keys, t.pending.Keys, t.conversions);
    KeysDrop(s.analyses, {i});
    KeysDrop(s.slots, {i});
    KeysAdd(s.pending, i, Analyze(i));
  }

  lemma LabelOf(analyses: map<nat, Job<Registry>>, i: nat)
    requires AnalysesLabelled(analyses) && i in analyses && analyses[i].Succeeded?
    ensures analyses[i].result == Analyze(i)
  {
  }

  lemma RegistryOf(registries: map<nat, Registry>, i: nat)
    requires RegistriesLabelled(registries) && i in registries
    ensures registries[i] == Analyze(i)
  {
  }

  lemma MiddleMoves(analyses: set<nat>, pending: set<nat>, low: nat, high: nat, whole: bool, i: nat)
    requires Middle(analyses, pending, low, high, whole) && i in analyses
    ensures Middle(analyses - {i}, pending + {i}, low, high, whole)
  {
    assert (analyses - {i}) + (pending + {i}) == analyses + pending;
  }

  lemma MiddleAdvances(analyses: set<nat>, pending: set<nat>, low: nat, high: nat, whole: bool)
    requires Middle(analyses, pending, low, high, whole) && low in pending
    ensures Middle(analyses, pending - {low}, low + 1, high, whole) && low < high
  {
    assert low in analyses + pending;
    assert Interval(low, high) == Interval(low + 1, high) + {low};
    assert low !in Interval(low + 1, high) && low !in analyses;
  }

  lemma WindowGrows(l: Limits, index: nat, low: nat, high: nat, held: int, window: set<nat>, converting: set<nat>)
    requires Counters(l, index, low, high, held, window, converting) && low < high && |window| < l.maxBatches
    ensures Counters(l, index, low + 1, high, held, window + {low}, converting + {low}) && low !in window
  {
    IntervalSize(index, low);
    assert Interval(index, low + 1) == Interval(index, low) + {low};
  }

  lemma HandingGrows(consumer: Consumer, index: nat, count: nat, conversions: map<nat, Job<Batch>>, i: nat)
    requires Handing(consumer, index, count, conversions) && i !in conversions
    ensures Handing(consumer, index, count, conversions[i := Queued])
  {
  }

  lemma SubmitConversionKeeps(l: Limits, s: State)
    requires Inv(l, s) && Enabled(l, s, SubmitConversion)
    ensures Inv(l, Apply(l, s, SubmitConversion))
  {
    hide Counters, Middle, SlotsWell, Published, AnalysesLabelled, RegistriesLabelled, ConversionsLabelled, Handing,
         CancelledJobs, Finished;
    var i := s.nextConversion;
    var t := ConversionSubmitted(s);
    assert Apply(l, s, SubmitConversion) == t;
    hide Apply, Cancelling, DropFailed, Kept;
    RegistryOf(s.pending, i);
    assert !s.cancelled;
    MiddleAdvances(s.analyses.Keys, s.pending.Keys, i, s.nextConfiguration, s.failure.None?);
    assert |s.conversions| == |s.conversions.Keys|;
    WindowGrows(l, s.index, i, s.nextConfiguration, s.held, s.conversions.Keys, s.converting.Keys);
    RegistriesShrink(s.pending, {i});
    RegistriesGrow(s.converting, i);
    ConversionsGrow(s.conversions, i);
    JobsGrow(s.conversions, i);
    HandingGrows(s.consumer, s.index, |s.yielded|, s.conversions, i);
    NotFinished(l, t.nextConfiguration, t.analyses.Keys, t.pending.Keys, t.conversions);
    KeysDrop(s.pending, {i});
    KeysAdd(s.conversions, i, Queued);
    KeysAdd(s.converting, i, Analyze(i));
  }

  lemma MiddleGrows(analyses: set<nat>, pending: set<nat>, low: nat, high: nat, whole: bool)
    requires Middle(analyses, pending, low, high, whole) && low <= high
    ensures Middle(analyses + {high}, pending, low, high + 1, whole) && high !in analyses
  {
    assert Interval(low, high + 1) == Interval(low, high) + {high};
    assert high !in Interval(low, high);
  }

  lemma CountersAdmit(l: Limits, index: nat, low: nat, high: nat, held: int, window: set<nat>, converting: set<nat>)
    requires Counters(l, index, low, high, held, window, converting) && high < l.total && held < l.maxSpool
    ensures Counters(l, index, low, high + 1, held + 1, window, converting) && low <= high
  {
  }

  lemma SubmitAnalysisKeeps(l: Limits, s: State)
    requires Inv(l, s) && Enabled(l, s, SubmitAnalysis)
    ensures Inv(l, Apply(l, s, SubmitAnalysis))
  {
    hide Counters, Middle, SlotsWell, Published, AnalysesLabelled, RegistriesLabelled, ConversionsLabelled, Handing,
         CancelledJobs, Finished, Least;
    var i, slot := s.nextConfiguration, Least(s.available);
    var t := AnalysisSubmitted(s);
    assert Apply(l, s, SubmitAnalysis) == t;
    hide Apply, Cancelling, DropFailed, Kept;
    assert !s.cancelled;
    CountersAdmit(l, s.index, s.nextConversion, i, s.held, s.conversions.Keys, s.converting.Keys);
    MiddleGrows(s.analyses.Keys, s.pending.Keys, s.nextConversion, i, s.failure.None?);
    SlotGivenOut(l.workers, s.slots, s.available, i, slot);
    AnalysesGrow(s.analyses, i);
    JobsGrow(s.analyses, i);
    NotFinished(l, t.nextConfiguration, t.analyses.Keys, t.pending.Keys, t.conversions);
    KeysAdd(s.analyses, i, Queued);
    KeysAdd(s.slots, i, slot);
  }

  lemma CoordinatorEndKeeps(l: Limits, s: State, step: Step)
    requires Inv(l, s) && Enabled(l, s, step) && (step.Stop? || step.Return? || step.CloseDown?)
    ensures Inv(l, Apply(l, s, step))
  {
    hide Counters, Middle, SlotsWell, Published, AnalysesLabelled, RegistriesLabelled, ConversionsLabelled, Handing,
         CancelledJobs, Kept, AllSettled;
  }

  // The consumer ----------------------------------------------------------------------------

  lemma TakeKeeps(l: Limits, s: State)
    requires Inv(l, s) && Enabled(l, s, Take)
    ensures Inv(l, Apply(l, s, Take))
  {
    hide Counters, Middle, SlotsWell, AnalysesLabelled, RegistriesLabelled, CancelledJobs, Finished;
  }

  lemma WindowMoves(l: Limits, index: nat, low: nat, high: nat, held: int, window: set<nat>, converting: set<nat>)
    requires Counters(l, index, low, high, held, window, converting) && index in window
    ensures Counters(l, index + 1, low, high, held - 1, window - {index}, converting - {index})
  {
    assert Interval(index + 1, low) == Interval(index, low) - {index};
  }

  lemma FinishedShrinks(l: Limits, done: bool, nextConfiguration: nat, analyses: set<nat>, pending: set<nat>,
                        conversions: map<nat, Job<Batch>>, gone: set<nat>)
    requires Finished(l, done, nextConfiguration, analyses, pending, conversions)
    ensures Finished(l, done, nextConfiguration, analyses, pending, conversions - gone)
  {
  }

  lemma HandingReleased(index: nat, count: nat, conversions: map<nat, Job<Batch>>)
    requires Handing(Holding, index, count, conversions)
    ensures index in conversions && Handing(Awaiting, index + 1, count, conversions - {index})
  {
  }

  lemma WindowReplaced(l: Limits, s: State, conversions: map<nat, Job<Batch>>, converting: map<nat, Registry>)
    requires Inv(l, s) && s.consumer.Holding?
    requires Counters(l, s.index + 1, s.nextConversion, s.nextConfiguration, s.held - 1, conversions.Keys, converting.Keys)
    requires RegistriesLabelled(converting) && ConversionsLabelled(conversions) && CancelledJobs(s.cancelled, conversions)
    requires Handing(Awaiting, s.index + 1, |s.yielded|, conversions)
    requires Finished(l, !s.coordinating && !s.cancelled, s.nextConfiguration, s.analyses.Keys, s.pending.Keys, conversions)
    ensures Inv(l, s.(consumer := Awaiting, conversions := conversions, converting := converting,
                      held := s.held - 1, index := s.index + 1))
  {
    hide Counters, Middle, SlotsWell, Published, AnalysesLabelled, RegistriesLabelled, ConversionsLabelled, CancelledJobs,
         Finished, Handing;
  }

  lemma ReleaseKeeps(l: Limits, s: State)
    requires Inv(l, s) && Enabled(l, s, Release)
    ensures Inv(l, Apply(l, s, Release))
  {
    hide Inv, Counters, RegistriesLabelled, ConversionsLabelled, CancelledJobs, Finished, Handing, Cancelling, DropFailed,
         Collected, ConversionSubmitted, AnalysisSubmitted, ApplyWorker, Kept, Interval, AllSettled;
    ReleaseComponents(l, s);
    WindowReplaced(l, s, s.conversions - {s.index}, s.converting - {s.index});
  }

  lemma ReleaseComponents(l: Limits, s: State)
    requires Inv(l, s) && s.consumer.Holding?
    ensures var i := s.index; var conversions := s.conversions - {i}; var converting := s.converting - {i};
            && Counters(l, i + 1, s.nextConversion, s.nextConfiguration, s.held - 1, conversions.Keys, converting.Keys)
            && RegistriesLabelled(converting) && ConversionsLabelled(conversions) && CancelledJobs(s.cancelled, conversions)
            && Handing(Awaiting, i + 1, |s.yielded|, conversions)
            && Finished(l, !s.coordinating && !s.cancelled, s.nextConfiguration, s.analyses.Keys, s.pending.Keys, conversions)
  {
    hide Counters, Middle, SlotsWell, Published, AnalysesLabelled, RegistriesLabelled, ConversionsLabelled, CancelledJobs,
         Finished, Handing;
    var i := s.index;
    KeysDrop(s.conversions, {i});
    KeysDrop(s.converting, {i});
    HandingReleased(i, |s.yielded|, s.conversions);
    WindowMoves(l, i, s.nextConversion, s.nextConfiguration, s.held, s.conversions.Keys, s.converting.Keys);
    RegistriesShrink(s.converting, {i});
    ConversionsShrink(s.conversions, {i});
    JobsShrink(s.cancelled, s.conversions, {i});
    FinishedShrinks(l, !s.coordinating && !s.cancelled, s.nextConfiguration, s.analyses.Keys, s.pending.Keys, s.conversions, {i});
  }

  // Every run -------------------------------------------------------------------------------

  lemma StepKeeps(l: Limits, s: State, step: Step)
    requires Inv(l, s) && Enabled(l, s, step)
    ensures Inv(l, Apply(l, s, step))
  {
    hide Inv;
    match step
    case Collect(i) => CollectKeeps(l, s, i);
    case Fail(seen) => FailKeeps(l, s, seen);
    case Refuse => GiveUpKeeps(l, s, step);
    case Leave => GiveUpKeeps(l, s, step);
    case SubmitConversion => SubmitConversionKeeps(l, s);
    case SubmitAnalysis => SubmitAnalysisKeeps(l, s);
    case Stop => CoordinatorEndKeeps(l, s, step);
    case Return => CoordinatorEndKeeps(l, s, step);
    case CloseDown => CoordinatorEndKeeps(l, s, step);
    case Take => TakeKeeps(l, s);
    case Release => ReleaseKeeps(l, s);
    case StartAnalysis(_) => AnalysisStepKeeps(l, s, step);
    case ReportAnalysis(_, _) => AnalysisStepKeeps(l, s, step);
    case SettleAnalysis(_) => AnalysisStepKeeps(l, s, step);
    case _ => ConversionStepKeeps(l, s, step);
  }

  lemma GiveUpKeeps(l: Limits, s: State, step: Step)
    requires Inv(l, s) && Enabled(l, s, step) && (step.Refuse? || step.Leave?)
    ensures Inv(l, Apply(l, s, step))
  {
    hide Counters, Middle, SlotsWell, Published, AnalysesLabelled, RegistriesLabelled, ConversionsLabelled, Handing,
         CancelledJobs, Finished, CancelAll;
    if step.Refuse? {
      CancellingKeeps(l, s, Some(RequestFailure), s.stopped, false, s.consumer);
    } else {
      CancellingKeeps(l, s, s.failure, true, s.coordinating, Left);
    }
  }

  lemma InitialHolds(l: Limits)
    requires Sensible(l)
    ensures Inv(l, Initial(l))
  {
    assert Interval(0, 0) == {};
    assert Used(map[]) == {};
  }

  lemma {:induction false} RunKeeps(l: Limits, s: State, steps: seq<Step>, t: State)
    requires Inv(l, s) && Reaches(l, s, steps, t)
    ensures Inv(l, t)
    decreases |steps|
  {
    hide Inv, Enabled, Apply;
    if steps != [] {
      StepKeeps(l, s, steps[0]);
      RunKeeps(l, Apply(l, s, steps[0]), steps[1..], t);
    }
  }

  // In every reachable state: what has been published is the in-order prefix of converting
  // the analysis of each configuration, and the three admission bounds hold.
  lemma PublishedPrefix(l: Limits, s: State)
    requires Sensible(l) && Reachable(l, s)
    ensures forall k :: 0 <= k < |s.yielded| ==> s.yielded[k] == Convert(k, Analyze(k))
    ensures |s.yielded| <= l.total && s.index <= |s.yielded| <= s.index + 1
    ensures s.held == s.nextConfiguration - s.index && 0 <= s.held <= l.maxSpool
    ensures |s.analyses| <= l.workers
    ensures s.conversions.Keys == Interval(s.index, s.nextConversion) && s.nextConversion - s.index <= l.maxBatches
  {
    InitialHolds(l);
    var steps :| Reaches(l, Initial(l), steps, s);
    RunKeeps(l, Initial(l), steps, s);
    assert s.consumer.Holding? ==> s.index in Interval(s.index, s.nextConversion);
  }
}
