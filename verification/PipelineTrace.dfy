// The telemetry a run produces, and why the idle gate never faults its shape.
module PipelineTrace {
  import opened Options
  import P = Pipeline
  import Safety = PipelineSafety
  import Progress = PipelineProgress
  import opened IdleGate

  // What happened, before the dispatcher numbers and times it.
  datatype Report = Report(kind: Kind, unscheduled: nat, held: int)

  function Counts(l: P.Limits, s: P.State, kind: Kind): Report
    requires s.nextConfiguration <= l.total
  {
    Report(kind, l.total - s.nextConfiguration, s.held)
  }

  function OutcomeOf(ok: bool, cancelled: bool): Outcome {
    if cancelled then Cancelled else if ok then Succeeded else Failed
  }

  // The reports of one step. Counts are updated, and reported, on submission and on release.
  function Reports(l: P.Limits, s: P.State, step: P.Step): seq<Report>
    requires P.Enabled(l, s, step) && P.Apply(l, s, step).nextConfiguration <= l.total && s.nextConfiguration <= l.total
  {
    match step
    case StartAnalysis(i) => if i in s.slots then [Counts(l, s, AnalyzerStarted(s.slots[i], i))] else []
    case ReportAnalysis(i, ok) =>
      if i in s.slots then [Counts(l, s, AnalyzerFinished(s.slots[i], i, OutcomeOf(ok, s.cancelled)))] else []
    case StartConversion(i) => [Counts(l, s, ConversionStarted(i))]
    case ReportConversion(i, ok) => [Counts(l, s, ConversionFinished(i, OutcomeOf(ok, s.cancelled)))]
    case SubmitAnalysis => [Counts(l, P.Apply(l, s, step), SchedulingState)]
    case Release => [Counts(l, P.Apply(l, s, step), SchedulingState)]
    case _ => []
  }

  // The dispatcher: sequence numbers count up, times never go back.
  ghost predicate Dispatched(l: P.Limits, before: seq<Event>, reports: seq<Report>, after: seq<Event>) {
    if reports == [] then after == before
    else
      && |after| > 0 && Dispatched(l, before, reports[..|reports| - 1], after[..|after| - 1])
      && var e := after[|after| - 1]; var r := reports[|reports| - 1];
      && e.kind == r.kind && e.unscheduled == r.unscheduled && e.held == r.held && e.maxSpool == l.maxSpool && e.slotCount == l.workers
      && e.sequence == |after| && e.time >= 0.0 && (|after| > 1 ==> after[|after| - 2].time <= e.time)
  }

  // A log of a run: the state after construction is reported first, then each step in turn.
  ghost predicate Logs(l: P.Limits, s: P.State, steps: seq<P.Step>, before: seq<Event>, t: P.State, after: seq<Event>)
    decreases |steps|
  {
    if steps == [] then s == t && before == after
    else
      && P.Enabled(l, s, steps[0]) && s.nextConfiguration <= l.total && P.Apply(l, s, steps[0]).nextConfiguration <= l.total
      && exists middle: seq<Event> ::
           && Dispatched(l, before, Reports(l, s, steps[0]), middle)
           && Logs(l, P.Apply(l, s, steps[0]), steps[1..], middle, t, after)
  }

  // A log that the gate accepts event by event, idleness aside.
  ghost predicate Shaped(es: seq<Event>) {
    forall n :: 0 <= n < |es| ==> WellFormed(es[n]) && Fits(es[..n], es[n])
  }

  // Configuration i is being analysed on slot k.
  predicate RunsOn(s: P.State, i: nat, k: nat) {
    i in s.analyses && s.analyses[i].Running? && i in s.slots && s.slots[i] == k
  }

  // Busy slots, each with its configuration.
  ghost predicate Lanes(s: P.State, lanes: map<nat, nat>) {
    && (forall k: nat :: k in lanes ==> RunsOn(s, lanes[k], k))
    && (forall i: nat, k: nat :: RunsOn(s, i, k) ==> k in lanes && lanes[k] == i)
  }

  // The log knows which slots are busy, and with what.
  ghost predicate Faithful(l: P.Limits, lanes: map<nat, nat>, es: seq<Event>) {
    && Shaped(es)
    && (forall e :: e in es ==> e.maxSpool == l.maxSpool && e.slotCount == l.workers)
    && (forall k: nat :: Active(es, k) <==> k in lanes)
    && (forall k: nat :: k in lanes ==> LastConfiguration(es, k) == Some(lanes[k]))
  }

  lemma ShapedSnoc(es: seq<Event>, e: Event)
    requires Shaped(es) && WellFormed(e) && Fits(es, e)
    ensures Shaped(es + [e])
  {
    hide Fits, WellFormed;
    var after := es + [e];
    forall n | 0 <= n < |after|
      ensures WellFormed(after[n]) && Fits(after[..n], after[n])
    {
      assert after[..n] == if n < |es| then es[..n] else es;
    }
  }

  // How a report changes the busy slots; starting needs a free one, finishing its own.
  ghost predicate Moves(l: P.Limits, lanes: map<nat, nat>, kind: Kind, after: map<nat, nat>) {
    if kind.AnalyzerStarted? then
      kind.slot < l.workers && kind.slot !in lanes && after == lanes[kind.slot := kind.configuration]
    else if kind.AnalyzerFinished? then
      kind.slot < l.workers && kind.slot in lanes && lanes[kind.slot] == kind.configuration && after == lanes - {kind.slot}
    else after == lanes
  }

  lemma DispatchedOne(l: P.Limits, es: seq<Event>, report: Report, log: seq<Event>)
    requires Dispatched(l, es, [report], log)
    ensures |log| == |es| + 1 && log[..|es|] == es && log == es + [log[|es|]]
    ensures var e := log[|es|];
            && e.kind == report.kind && e.unscheduled == report.unscheduled && e.held == report.held
            && e.maxSpool == l.maxSpool && e.slotCount == l.workers && e.sequence == |es| + 1 && e.time >= 0.0
            && (es != [] ==> es[|es| - 1].time <= e.time)
  {
    assert [report][..0] == [];
    assert Dispatched(l, es, [], log[..|log| - 1]);
  }

  lemma ReportFits(l: P.Limits, lanes: map<nat, nat>, es: seq<Event>, e: Event, after: map<nat, nat>)
    requires P.Sensible(l) && Faithful(l, lanes, es) && Moves(l, lanes, e.kind, after)
    requires e.held <= l.maxSpool && e.maxSpool == l.maxSpool && e.slotCount == l.workers && e.sequence == |es| + 1 && e.time >= 0.0
    requires es != [] ==> es[|es| - 1].time <= e.time
    ensures WellFormed(e) && Fits(es, e)
  {
    hide Active, LastConfiguration, Shaped;
    assert es != [] ==> es[|es| - 1] in es;
  }

  // One report, dispatched: the log stays in shape.
  lemma ReportKeeps(l: P.Limits, lanes: map<nat, nat>, es: seq<Event>, report: Report, after: map<nat, nat>, log: seq<Event>)
    requires P.Sensible(l) && Faithful(l, lanes, es) && Dispatched(l, es, [report], log)
    requires 0 <= report.held <= l.maxSpool && Moves(l, lanes, report.kind, after)
    ensures Faithful(l, after, log)
  {
    hide Active, LastConfiguration, Shaped, Dispatched, Fits, WellFormed, Since, Idle;
    DispatchedOne(l, es, report, log);
    var e := log[|es|];
    ReportFits(l, lanes, es, e, after);
    ShapedSnoc(es, e);
    forall k: nat
      ensures Active(log, k) <==> k in after
      ensures k in after ==> LastConfiguration(log, k) == Some(after[k])
    {
      OneMoreEvent(es, e, k);
    }
  }

  // What each step does to the busy slots ---------------------------------------------------

  lemma StartMoves(l: P.Limits, s: P.State, i: nat, lanes: map<nat, nat>)
    requires P.Enabled(l, s, P.StartAnalysis(i)) && Lanes(s, lanes)
    requires s.slots.Keys == s.analyses.Keys && P.SlotsWell(l.workers, s.slots, s.available)
    ensures i in s.slots && Moves(l, lanes, AnalyzerStarted(s.slots[i], i), lanes[s.slots[i] := i])
    ensures Lanes(P.Apply(l, s, P.StartAnalysis(i)), lanes[s.slots[i] := i])
  {
    hide P.BusyJobs, P.Interval, P.Used;
    Progress.FirstIsQueued(s.analyses, i);
    var t := P.Apply(l, s, P.StartAnalysis(i));
    forall j: nat, k: nat
      ensures RunsOn(t, j, k) <==> RunsOn(s, j, k) || (j == i && k == s.slots[i])
    {
    }
  }

  lemma FinishMoves(l: P.Limits, s: P.State, i: nat, ok: bool, lanes: map<nat, nat>)
    requires P.Enabled(l, s, P.ReportAnalysis(i, ok)) && Lanes(s, lanes)
    requires s.slots.Keys == s.analyses.Keys && P.SlotsWell(l.workers, s.slots, s.available)
    ensures i in s.slots && Moves(l, lanes, AnalyzerFinished(s.slots[i], i, OutcomeOf(ok, s.cancelled)), lanes - {s.slots[i]})
    ensures Lanes(P.Apply(l, s, P.ReportAnalysis(i, ok)), lanes - {s.slots[i]})
  {
    hide P.Interval, P.Used;
    assert RunsOn(s, i, s.slots[i]);
    var t := P.Apply(l, s, P.ReportAnalysis(i, ok));
    forall j: nat, k: nat
      ensures RunsOn(t, j, k) <==> RunsOn(s, j, k) && j != i
    {
    }
  }

  // No other step starts, ends or moves a running analysis.
  lemma RunningUntouched(l: P.Limits, s: P.State, step: P.Step, i: nat, k: nat)
    requires P.Enabled(l, s, step) && !step.StartAnalysis? && !step.ReportAnalysis?
    requires s.nextConfiguration !in s.analyses
    ensures RunsOn(P.Apply(l, s, step), i, k) <==> RunsOn(s, i, k)
  {
    hide P.BusyJobs, P.FirstQueued, P.Least, P.AllSettled, P.Kept, P.SlotsOf, P.Cancelling, P.DropFailed;
    if P.WorkerStep(step) {
      hide P.ApplyScheduler;
    } else {
      hide P.ApplyWorker;
      CancellingRuns(s, i, k);
      if step.Fail? {
        DropRuns(s, step.seen, i, k);
        CancellingRuns(P.DropFailed(s, step.seen), i, k);
      }
    }
  }

  lemma CancellingRuns(s: P.State, i: nat, k: nat)
    ensures RunsOn(P.Cancelling(s), i, k) <==> RunsOn(s, i, k)
  {
  }

  lemma DropRuns(s: P.State, seen: set<nat>, i: nat, k: nat)
    ensures RunsOn(P.DropFailed(s, seen), i, k) <==> RunsOn(s, i, k)
  {
    hide P.SlotsOf;
  }

  lemma OthersKeepLanes(l: P.Limits, s: P.State, step: P.Step, lanes: map<nat, nat>)
    requires P.Enabled(l, s, step) && Lanes(s, lanes) && !step.StartAnalysis? && !step.ReportAnalysis?
    requires s.nextConfiguration !in s.analyses
    ensures Lanes(P.Apply(l, s, step), lanes)
  {
    hide P.Enabled, P.Apply, RunsOn;
    forall i: nat, k: nat
      ensures RunsOn(P.Apply(l, s, step), i, k) <==> RunsOn(s, i, k)
    {
      RunningUntouched(l, s, step, i, k);
    }
  }

  // Every run -------------------------------------------------------------------------------

  lemma NoReports(l: P.Limits, es: seq<Event>, log: seq<Event>)
    requires Dispatched(l, es, [], log)
    ensures log == es
  {
  }

  lemma BusyOnOwnSlot(l: P.Limits, s: P.State)
    requires P.Inv(l, s)
    ensures s.slots.Keys == s.analyses.Keys && P.SlotsWell(l.workers, s.slots, s.available)
    ensures s.nextConfiguration <= l.total && 0 <= s.held <= l.maxSpool
    ensures s.nextConfiguration !in s.analyses
  {
    Progress.Where(l, s);
    hide P.SlotsWell, P.Middle, P.Published, P.AnalysesLabelled, P.RegistriesLabelled, P.ConversionsLabelled, P.Handing,
         P.CancelledJobs, P.Finished;
  }

  lemma QuietMoves(l: P.Limits, lanes: map<nat, nat>)
    ensures forall kind: Kind :: !kind.AnalyzerStarted? && !kind.AnalyzerFinished? ==> Moves(l, lanes, kind, lanes)
  {
  }

  lemma StepKeepsLog(l: P.Limits, s: P.State, step: P.Step, lanes: map<nat, nat>, es: seq<Event>, log: seq<Event>)
    returns (after: map<nat, nat>)
    requires P.Sensible(l) && P.Inv(l, s) && P.Enabled(l, s, step) && Lanes(s, lanes) && Faithful(l, lanes, es)
    requires s.nextConfiguration <= l.total && P.Apply(l, s, step).nextConfiguration <= l.total
    requires Dispatched(l, es, Reports(l, s, step), log)
    ensures Lanes(P.Apply(l, s, step), after) && Faithful(l, after, log)
  {
    hide P.Inv, P.Enabled, P.Apply, P.SlotsWell, P.Sensible, Lanes, Faithful, Dispatched, Moves, OutcomeOf;
    Safety.StepKeeps(l, s, step);
    BusyOnOwnSlot(l, s);
    BusyOnOwnSlot(l, P.Apply(l, s, step));
    after := lanes;
    if step.StartAnalysis? {
      StartMoves(l, s, step.i, lanes);
      after := lanes[s.slots[step.i] := step.i];
    } else if step.ReportAnalysis? {
      FinishMoves(l, s, step.i, step.ok, lanes);
      after := lanes - {s.slots[step.i]};
    } else {
      OthersKeepLanes(l, s, step, lanes);
    }
    var reports := Reports(l, s, step);
    QuietMoves(l, after);
    if reports == [] {
      NoReports(l, es, log);
    } else {
      assert reports == [reports[0]];
      ReportKeeps(l, lanes, es, reports[0], after, log);
    }
  }

  lemma {:induction false} RunKeepsLog(l: P.Limits, s: P.State, steps: seq<P.Step>, t: P.State, lanes: map<nat, nat>,
                                       es: seq<Event>, log: seq<Event>)
    requires P.Sensible(l) && P.Inv(l, s) && Lanes(s, lanes) && Faithful(l, lanes, es)
    requires Logs(l, s, steps, es, t, log)
    ensures Shaped(log)
    decreases |steps|
  {
    hide P.Inv, P.Enabled, P.Apply, Lanes, Dispatched, Shaped, Reports;
    if steps != [] {
      var middle: seq<Event> :| Dispatched(l, es, Reports(l, s, steps[0]), middle)
                                && Logs(l, P.Apply(l, s, steps[0]), steps[1..], middle, t, log);
      var after := StepKeepsLog(l, s, steps[0], lanes, es, middle);
      Safety.StepKeeps(l, s, steps[0]);
      RunKeepsLog(l, P.Apply(l, s, steps[0]), steps[1..], t, after, middle, log);
    }
  }

  // Whatever a run does, its telemetry is in shape: contiguous numbers, counts within the spool
  // limit, and on each slot starts and finishes of the same configuration in strict alternation.
  // The idle gate can refuse an event only for idleness.
  lemma TelemetryFits(l: P.Limits, steps: seq<P.Step>, t: P.State, first: seq<Event>, log: seq<Event>)
    requires P.Sensible(l) && Dispatched(l, [], [Report(SchedulingState, l.total, 0)], first)
    requires Logs(l, P.Initial(l), steps, first, t, log)
    ensures Shaped(log)
  {
    Safety.InitialHolds(l);
    assert Lanes(P.Initial(l), map[]);
    assert Faithful(l, map[], []);
    ReportKeeps(l, map[], [], Report(SchedulingState, l.total, 0), map[], first);
    hide P.Inv, Faithful, Dispatched, Logs, Shaped, Lanes;
    RunKeepsLog(l, P.Initial(l), steps, t, map[], first, log);
  }

  // What the log says of the scheduler ------------------------------------------------------

  // The last event's counts are the scheduler's own: unscheduled work, and registries held.
  ghost predicate Current(l: P.Limits, s: P.State, es: seq<Event>) {
    es != [] && es[|es| - 1].unscheduled == l.total - s.nextConfiguration && es[|es| - 1].held == s.held
  }

  // Is configuration i being converted after these events?
  function Converting(es: seq<Event>, i: nat): bool {
    if es == [] then false
    else
      var e := es[|es| - 1];
      if e.kind.ConversionStarted? && e.kind.configuration == i then true
      else if e.kind.ConversionFinished? && e.kind.configuration == i then false
      else Converting(es[..|es| - 1], i)
  }

  ghost predicate Converts(s: P.State, i: nat) {
    i in s.conversions && s.conversions[i].Running?
  }

  ghost predicate UpToDate(l: P.Limits, s: P.State, es: seq<Event>) {
    Current(l, s, es) && forall i: nat :: Converting(es, i) <==> Converts(s, i)
  }

  lemma ConvertingMore(es: seq<Event>, e: Event, i: nat)
    ensures Converting(es + [e], i)
            <==> if e.kind.ConversionStarted? && e.kind.configuration == i then true
                 else if e.kind.ConversionFinished? && e.kind.configuration == i then false
                 else Converting(es, i)
  {
    assert (es + [e])[..|es|] == es;
  }

  lemma CountsStay(l: P.Limits, s: P.State, step: P.Step)
    requires P.Enabled(l, s, step) && !step.SubmitAnalysis? && !step.Release?
    ensures P.Apply(l, s, step).nextConfiguration == s.nextConfiguration && P.Apply(l, s, step).held == s.held
  {
    hide P.BusyJobs, P.FirstQueued, P.Least, P.AllSettled, P.Kept, P.SlotsOf, P.CancelAll;
    if P.WorkerStep(step) {
      hide P.ApplyScheduler;
    } else {
      hide P.ApplyWorker;
    }
  }

  lemma StartConverts(l: P.Limits, s: P.State, i: nat)
    requires P.Enabled(l, s, P.StartConversion(i))
    ensures forall j: nat :: Converts(P.Apply(l, s, P.StartConversion(i)), j) <==> Converts(s, j) || j == i
  {
    hide P.BusyJobs;
    Progress.FirstIsQueued(s.conversions, i);
  }

  lemma ReportConverts(l: P.Limits, s: P.State, i: nat, ok: bool)
    requires P.Enabled(l, s, P.ReportConversion(i, ok))
    ensures forall j: nat :: Converts(P.Apply(l, s, P.ReportConversion(i, ok)), j) <==> Converts(s, j) && j != i
  {
  }

  // No other step starts or ends a running conversion.
  lemma ConversionUntouched(l: P.Limits, s: P.State, step: P.Step, i: nat)
    requires P.Enabled(l, s, step) && !step.StartConversion? && !step.ReportConversion?
    requires s.nextConversion !in s.conversions
    requires s.consumer.Holding? ==> s.index in s.conversions && s.conversions[s.index].Succeeded?
    ensures Converts(P.Apply(l, s, step), i) <==> Converts(s, i)
  {
    hide P.Enabled, P.ApplyWorker, P.ApplyScheduler, Converts;
    if P.WorkerStep(step) {
      WorkerConverts(l, s, step, i);
    } else {
      SchedulerConverts(l, s, step, i);
    }
  }

  lemma WorkerConverts(l: P.Limits, s: P.State, step: P.Step, i: nat)
    requires P.WorkerStep(step) && P.Enabled(l, s, step) && !step.StartConversion? && !step.ReportConversion?
    ensures Converts(P.ApplyWorker(l, s, step), i) <==> Converts(s, i)
  {
    hide P.BusyJobs, P.FirstQueued;
  }

  lemma SchedulerConverts(l: P.Limits, s: P.State, step: P.Step, i: nat)
    requires !P.WorkerStep(step) && P.Enabled(l, s, step) && s.nextConversion !in s.conversions
    requires s.consumer.Holding? ==> s.index in s.conversions && s.conversions[s.index].Succeeded?
    ensures Converts(P.ApplyScheduler(l, s, step), i) <==> Converts(s, i)
  {
    hide P.BusyJobs, P.FirstQueued, P.Least, P.AllSettled, P.Kept, P.SlotsOf, P.Cancelling, P.DropFailed, P.WorkerStep;
    match step {
      case Fail(seen) =>
        Safety.DropKeepsConversions(s, seen);
        CancellingConverts(P.DropFailed(s, seen), i);
      case Refuse => CancellingConverts(s, i);
      case Leave => CancellingConverts(s, i);
      case SubmitConversion => SubmittedConverts(s, i);
      case Release => ReleasedConverts(s, i);
      case _ =>
    }
  }

  lemma SubmittedConverts(s: P.State, i: nat)
    requires s.nextConversion in s.pending && s.nextConversion !in s.conversions
    ensures Converts(P.ConversionSubmitted(s), i) <==> Converts(s, i)
  {
  }

  lemma ReleasedConverts(s: P.State, i: nat)
    requires s.index in s.conversions && s.conversions[s.index].Succeeded?
    ensures Converts(P.Released(s), i) <==> Converts(s, i)
  {
  }

  lemma CancellingConverts(s: P.State, i: nat)
    ensures Converts(P.Cancelling(s), i) <==> Converts(s, i)
  {
  }

  lemma OneReport(l: P.Limits, es: seq<Event>, report: Report, log: seq<Event>)
    requires Dispatched(l, es, [report], log)
    ensures log != [] && log[|log| - 1].unscheduled == report.unscheduled && log[|log| - 1].held == report.held
    ensures forall i: nat :: Converting(log, i)
                             <==> if report.kind.ConversionStarted? && report.kind.configuration == i then true
                                  else if report.kind.ConversionFinished? && report.kind.configuration == i then false
                                  else Converting(es, i)
  {
    hide Dispatched, Converting;
    DispatchedOne(l, es, report, log);
    forall i: nat
      ensures Converting(log, i)
              <==> if report.kind.ConversionStarted? && report.kind.configuration == i then true
                   else if report.kind.ConversionFinished? && report.kind.configuration == i then false
                   else Converting(es, i)
    {
      ConvertingMore(es, log[|es|], i);
    }
  }

  // What each step reports, spelled out: starts and finishes of analyses on their slots and of
  // conversions, how they ended, and every change of the counts.
  lemma ReportsSay(l: P.Limits, s: P.State, step: P.Step, r: Report)
    requires P.Inv(l, s) && P.Enabled(l, s, step) && s.nextConfiguration <= l.total && P.Apply(l, s, step).nextConfiguration <= l.total
    ensures r in Reports(l, s, step) <==>
              && r.unscheduled == l.total - P.Apply(l, s, step).nextConfiguration && r.held == P.Apply(l, s, step).held
              && match step
                 case StartAnalysis(i) => i in s.slots && r.kind == AnalyzerStarted(s.slots[i], i)
                 case ReportAnalysis(i, ok) =>
                   i in s.slots && r.kind == AnalyzerFinished(s.slots[i], i, if s.cancelled then Cancelled else if ok then Succeeded else Failed)
                 case StartConversion(i) => r.kind == ConversionStarted(i)
                 case ReportConversion(i, ok) =>
                   r.kind == ConversionFinished(i, if s.cancelled then Cancelled else if ok then Succeeded else Failed)
                 case SubmitAnalysis => r.kind == SchedulingState
                 case Release => r.kind == SchedulingState
                 case _ => false
  {
    hide P.Inv, P.Enabled, P.Apply;
    if !step.SubmitAnalysis? && !step.Release? {
      CountsStay(l, s, step);
    }
  }

  lemma ReportsShape(l: P.Limits, s: P.State, step: P.Step)
    requires P.Inv(l, s) && P.Enabled(l, s, step) && s.nextConfiguration <= l.total && P.Apply(l, s, step).nextConfiguration <= l.total
    ensures var rs := Reports(l, s, step);
            && |rs| <= 1
            && (rs == [] ==> !step.SubmitAnalysis? && !step.Release? && !step.StartConversion? && !step.ReportConversion?)
            && (rs != [] ==>
                  && rs[0].unscheduled == l.total - P.Apply(l, s, step).nextConfiguration && rs[0].held == P.Apply(l, s, step).held
                  && (rs[0].kind.ConversionStarted? <==> step.StartConversion?)
                  && (rs[0].kind.ConversionFinished? <==> step.ReportConversion?)
                  && (step.StartConversion? || step.ReportConversion? ==> rs[0].kind.configuration == step.i))
  {
    hide P.Inv, P.Enabled, P.Apply;
    if !step.SubmitAnalysis? && !step.Release? {
      CountsStay(l, s, step);
    }
  }

  // Running conversions after a step.
  lemma ConversionsMove(l: P.Limits, s: P.State, step: P.Step, j: nat)
    requires P.Inv(l, s) && P.Enabled(l, s, step)
    ensures Converts(P.Apply(l, s, step), j)
            <==> if step.StartConversion? && step.i == j then true
                 else if step.ReportConversion? && step.i == j then false
                 else Converts(s, j)
  {
    Progress.Where(l, s);
    hide P.Inv, P.Enabled, P.Apply, Converts;
    match step {
      case StartConversion(i) => StartConverts(l, s, i);
      case ReportConversion(i, ok) => ReportConverts(l, s, i, ok);
      case _ => ConversionUntouched(l, s, step, j);
    }
  }

  lemma StepTells(l: P.Limits, s: P.State, step: P.Step, es: seq<Event>, log: seq<Event>)
    requires P.Inv(l, s) && P.Enabled(l, s, step) && UpToDate(l, s, es)
    requires s.nextConfiguration <= l.total && P.Apply(l, s, step).nextConfiguration <= l.total
    requires Dispatched(l, es, Reports(l, s, step), log)
    ensures UpToDate(l, P.Apply(l, s, step), log)
  {
    hide P.Inv, P.Enabled, P.Apply, Dispatched, Converting, Converts, Reports;
    ReportsShape(l, s, step);
    forall j: nat
      ensures Converts(P.Apply(l, s, step), j)
              <==> if step.StartConversion? && step.i == j then true
                   else if step.ReportConversion? && step.i == j then false
                   else Converts(s, j)
    {
      ConversionsMove(l, s, step, j);
    }
    var reports := Reports(l, s, step);
    if reports == [] {
      NoReports(l, es, log);
      CountsStay(l, s, step);
    } else {
      assert reports == [reports[0]];
      OneReport(l, es, reports[0], log);
    }
  }

  lemma {:induction false} RunTells(l: P.Limits, s: P.State, steps: seq<P.Step>, t: P.State, es: seq<Event>, log: seq<Event>)
    requires P.Inv(l, s) && UpToDate(l, s, es) && Logs(l, s, steps, es, t, log)
    requires P.Sensible(l)
    ensures UpToDate(l, t, log)
    decreases |steps|
  {
    hide P.Inv, P.Enabled, P.Apply, UpToDate, Dispatched, Reports;
    if steps != [] {
      var middle: seq<Event> :| Dispatched(l, es, Reports(l, s, steps[0]), middle)
                                && Logs(l, P.Apply(l, s, steps[0]), steps[1..], middle, t, log);
      StepTells(l, s, steps[0], es, middle);
      Safety.StepKeeps(l, s, steps[0]);
      RunTells(l, P.Apply(l, s, steps[0]), steps[1..], t, middle, log);
    }
  }

  // At every moment of every run the last event's counts are the scheduler's, so the gate judges
  // idleness by the work that is unscheduled and the spool that is free; and the log knows which
  // conversions are running.
  lemma TelemetryIsCurrent(l: P.Limits, steps: seq<P.Step>, t: P.State, first: seq<Event>, log: seq<Event>)
    requires P.Sensible(l) && Dispatched(l, [], [Report(SchedulingState, l.total, 0)], first)
    requires Logs(l, P.Initial(l), steps, first, t, log)
    ensures UpToDate(l, t, log)
  {
    Safety.InitialHolds(l);
    OneReport(l, [], Report(SchedulingState, l.total, 0), first);
    assert UpToDate(l, P.Initial(l), first);
    hide P.Inv, Dispatched, Logs, UpToDate;
    RunTells(l, P.Initial(l), steps, t, first, log);
  }
}
