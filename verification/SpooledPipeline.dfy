// The pipeline together with the spools its jobs write: every step of the scheduler opens and
// closes registries of the one pool that shares the byte and descriptor budgets.
module SpooledPipeline {
  import opened Options
  import opened Pipeline
  import opened PipelineSafety
  import opened PipelineProgress
  import opened PipelineResources
  import Registry

  // The registries of the configurations called open are just those that are not closed, one each.
  ghost predicate Booked(open: set<nat>, index: map<nat, nat>, closed: seq<bool>) {
    && (forall i :: i in index ==> index[i] < |closed|)
    && (forall i :: i in open ==> i in index && !closed[index[i]])
    && (forall i, j :: i in open && j in open && index[i] == index[j] ==> i == j)
    && (forall k :: 0 <= k < |closed| && !closed[k] ==> exists i :: i in open && index[i] == k)
  }

  lemma BookOpened(open: set<nat>, index: map<nat, nat>, closed: seq<bool>, i: nat)
    requires Booked(open, index, closed) && i !in open
    ensures Booked(open + {i}, index[i := |closed|], closed + [false])
  {
    var open', index', closed' := open + {i}, index[i := |closed|], closed + [false];
    forall k | 0 <= k < |closed'| && !closed'[k]
      ensures exists j :: j in open' && index'[j] == k
    {
      if k < |closed| {
        var j :| j in open && index[j] == k;
        assert j in open' && index'[j] == k;
      } else {
        assert i in open' && index'[i] == k;
      }
    }
  }

  lemma BookClosed(open: set<nat>, index: map<nat, nat>, closed: seq<bool>, i: nat)
    requires Booked(open, index, closed) && i in open
    ensures index[i] < |closed| && Booked(open - {i}, index, closed[index[i] := true])
  {
    var closed' := closed[index[i] := true];
    forall k | 0 <= k < |closed'| && !closed'[k]
      ensures exists j :: j in open - {i} && index[j] == k
    {
      var j :| j in open && index[j] == k;
      assert j in open - {i};
    }
  }

  // Configurations whose registry has been opened at some time.
  ghost predicate Started(s: State, index: map<nat, nat>) {
    && (forall i :: i in s.analyses && !s.analyses[i].Queued? && !s.analyses[i].Cancelled? ==> i in index)
    && s.pending.Keys <= index.Keys && s.converting.Keys <= index.Keys
  }

  lemma StartedWorker(l: Limits, s: State, step: Step, index: map<nat, nat>)
    requires Enabled(l, s, step) && WorkerStep(step) && Started(s, index)
    ensures Started(ApplyWorker(l, s, step), if step.StartAnalysis? then index[step.i := 0] else index)
  {
    hide BusyJobs, FirstQueued;
  }

  lemma StartedIndex(s: State, index: map<nat, nat>, index': map<nat, nat>)
    requires Started(s, index) && index.Keys == index'.Keys
    ensures Started(s, index')
  {
  }

  lemma StartedScheduler(l: Limits, s: State, step: Step, index: map<nat, nat>)
    requires Enabled(l, s, step) && !WorkerStep(step) && Started(s, index)
    ensures Started(ApplyScheduler(l, s, step), index)
  {
    hide BusyJobs, FirstQueued, Kept, Least, AllSettled;
  }

  lemma KeptStarted(s: State, index: map<nat, nat>)
    requires Started(s, index)
    ensures Kept(s) <= index.Keys
  {
  }

  // A configuration about to be analysed has no open registry, one that reports has one.
  lemma WorkersOwn(l: Limits, s: State, step: Step)
    requires Inv(l, s) && Accounted(s) && Enabled(l, s, step)
    ensures step.StartAnalysis? ==> step.i !in s.open
    ensures step.ReportAnalysis? || step.ReportConversion? ==> step.i in s.open
  {
    hide Inv, Exact, Apart, BusyJobs, Accounted, FirstQueued;
    if step.StartAnalysis? || step.ReportAnalysis? || step.ReportConversion? {
      ExactUntilClosed(l, s, step);
      BooksApart(l, s);
      JobsOwn(s, step.i);
      if step.StartAnalysis? {
        FirstIsQueued(s.analyses, step.i);
      }
    }
  }

  // Steps other than these leave the registries alone.
  predicate TouchesSpools(step: Step) {
    step.StartAnalysis? || (step.ReportAnalysis? && !step.ok) || step.ReportConversion? || step.CloseDown?
  }

  lemma OpenAfter(l: Limits, s: State, step: Step)
    requires Enabled(l, s, step)
    ensures Apply(l, s, step).open ==
              match step
              case StartAnalysis(i) => s.open + {i}
              case ReportAnalysis(i, ok) => if ok then s.open else s.open - {i}
              case ReportConversion(i, _) => s.open - {i}
              case CloseDown => s.open - Kept(s)
              case _ => s.open
  {
    hide BusyJobs, FirstQueued, Kept, Least, AllSettled, CancelAll;
  }

  lemma AllClosed(open: set<nat>, kept: set<nat>, index: map<nat, nat>, closed: seq<bool>, closed': seq<bool>)
    requires Booked(open, index, closed) && open <= kept && |closed'| == |closed|
    requires forall k :: 0 <= k < |closed| && closed[k] ==> closed'[k]
    requires forall i :: i in kept && i in index ==> closed'[index[i]]
    ensures forall k :: 0 <= k < |closed'| ==> closed'[k]
    ensures Booked({}, index, closed')
  {
    forall k | 0 <= k < |closed'|
      ensures closed'[k]
    {
      if !closed[k] {
        var i :| i in open && index[i] == k;
      }
    }
  }

  lemma BookedInside(open: set<nat>, index: map<nat, nat>, closed: seq<bool>)
    requires Booked(open, index, closed)
    ensures forall i :: i in index ==> index[i] < |closed|
  {
  }

  lemma StartedAfter(l: Limits, s: State, step: Step, index: map<nat, nat>)
    requires Enabled(l, s, step) && Started(s, index)
    ensures Started(Apply(l, s, step), if step.StartAnalysis? then index[step.i := 0] else index)
  {
    hide Enabled, Started;
    if WorkerStep(step) {
      StartedWorker(l, s, step, index);
    } else {
      StartedScheduler(l, s, step, index);
    }
  }

  lemma OpenIsKept(l: Limits, s: State)
    requires Inv(l, s) && Accounted(s) && Enabled(l, s, CloseDown)
    ensures s.open <= Kept(s) && Apply(l, s, CloseDown).open == {}
  {
    CloseDownEmpties(l, s);
    OpenAfter(l, s, CloseDown);
    hide Inv, Accounted, Enabled, Apply, Kept;
  }

  lemma RunningOwns(l: Limits, s: State, i: nat)
    requires Inv(l, s) && Accounted(s) && i in s.analyses && s.analyses[i].Running?
    ensures i in s.open
  {
    ExactUntilClosed(l, s, ReportAnalysis(i, true));
    BooksApart(l, s);
    hide Inv, Exact, Apart;
    JobsOwn(s, i);
  }

  lemma InitialAccounted(l: Limits)
    ensures Accounted(Initial(l)) && Started(Initial(l), map[])
  {
  }

  class SpooledRun {
    const limits: Limits
    const pool: Registry.SpoolPool
    var state: State
    // Where in the pool the registry of a configuration is.
    var index: map<nat, nat>

    ghost function Closed(): (c: seq<bool>)
      reads pool, pool.registries
      ensures |c| == |pool.registries| && forall k :: 0 <= k < |c| ==> c[k] == pool.registries[k].closed
    {
      seq(|pool.registries|, k requires 0 <= k < |pool.registries| reads pool, pool.registries => pool.registries[k].closed)
    }

    ghost predicate Valid()
      reads this, pool, pool.bytes, pool.descriptors, pool.registries
    {
      && Inv(limits, state) && Accounted(state) && Started(state, index)
      && pool.Balanced() && Booked(state.open, index, Closed())
    }

    constructor (l: Limits, maxBytes: nat, maxDescriptors: nat, maxRecordBytes: nat)
      requires Sensible(l) && maxBytes > 0 && maxDescriptors > 0 && maxRecordBytes > 0
      ensures Valid() && limits == l && state == Initial(l)
      ensures fresh(pool) && fresh(pool.bytes) && fresh(pool.descriptors)
    {
      limits := l;
      pool := new Registry.SpoolPool(maxBytes, maxDescriptors, maxRecordBytes);
      state, index := Initial(l), map[];
      InitialHolds(l);
      InitialAccounted(l);
    }

    // A new registry for configuration i.
    method OpenFor(i: nat, ghost open: set<nat>)
      requires pool.Balanced() && Booked(open, index, Closed()) && i !in open
      modifies this`index, pool
      ensures pool.Balanced() && Booked(open + {i}, index, Closed())
      ensures index.Keys == old(index.Keys) + {i} && old(pool.registries) <= pool.registries
    {
      hide Booked, Registry.SpoolPool.Balanced;
      ghost var closed := Closed();
      var k := pool.Open();
      assert pool.registries == old(pool.registries) + [pool.registries[k]];
      assert Closed() == closed + [false];
      BookOpened(open, index, closed, i);
      index := index[i := k];
    }

    // The registry of configuration i is closed.
    method CloseFor(i: nat, ghost open: set<nat>)
      requires pool.Balanced() && Booked(open, index, Closed()) && i in open
      modifies pool.registries, pool.bytes, pool.descriptors
      ensures pool.Balanced() && Booked(open - {i}, index, Closed()) && pool.registries == old(pool.registries)
    {
      ghost var closed := Closed();
      BookClosed(open, index, closed, i);
      hide Booked, Registry.SpoolPool.Balanced;
      pool.Close(index[i]);
      assert Closed() == closed[index[i] := true];
    }

    // Every registry the run still keeps is closed, closed before or not.
    method CloseKept(kept: set<nat>, ghost open: set<nat>)
      requires pool.Balanced() && Booked(open, index, Closed()) && open <= kept <= index.Keys
      modifies pool.registries, pool.bytes, pool.descriptors
      ensures pool.Balanced() && Booked({}, index, Closed()) && pool.registries == old(pool.registries)
      ensures pool.bytes.used == 0 && pool.descriptors.used == 0
    {
      hide Registry.SpoolPool.Balanced, Booked;
      ghost var closed := Closed();
      BookedInside(open, index, closed);
      var todo := kept;
      while todo != {}
        invariant pool.Balanced() && pool.registries == old(pool.registries) && todo <= kept
        invariant forall k :: 0 <= k < |closed| && closed[k] ==> Closed()[k]
        invariant forall i :: i in kept && i !in todo ==> Closed()[index[i]]
        decreases |todo|
      {
        var i :| i in todo;
        pool.Close(index[i]);
        todo := todo - {i};
      }
      AllClosed(open, kept, index, closed, Closed());
      assert forall r :: r in pool.registries ==> r.closed by {
        forall r | r in pool.registries
          ensures r.closed
        {
          var k :| 0 <= k < |pool.registries| && pool.registries[k] == r;
          assert Closed()[k];
        }
      }
      pool.NothingHeld();
    }

    // One step of the pipeline and what it does to the spools. However the run has gone, after
    // closing down not a byte and not a descriptor is in use.
    method Advance(step: Step)
      requires Valid() && Enabled(limits, state, step)
      modifies this, pool, pool.bytes, pool.descriptors, pool.registries
      ensures Valid() && state == Apply(limits, old(state), step)
      ensures old(pool.registries) <= pool.registries
      ensures !TouchesSpools(step) ==>
                pool.bytes.used == old(pool.bytes.used) && pool.descriptors.used == old(pool.descriptors.used)
      ensures step.CloseDown? ==> pool.bytes.used == 0 && pool.descriptors.used == 0
    {
      hide Inv, Accounted, Enabled, Apply, Booked, Started, Kept, Closed, Registry.SpoolPool.Balanced;
      ghost var open, index0 := state.open, index;
      var next := Apply(limits, state, step);
      StepKeeps(limits, state, step);
      AccountedKept(limits, state, step);
      StartedAfter(limits, state, step, index);
      OpenAfter(limits, state, step);
      if step.CloseDown? {
        KeptStarted(state, index);
        OpenIsKept(limits, state);
        CloseKept(Kept(state), open);
        assert next.open == {};
      } else {
        WorkersOwn(limits, state, step);
        match step
        case StartAnalysis(i) => OpenFor(i, open);
        case ReportAnalysis(i, ok) => if !ok { CloseFor(i, open); }
        case ReportConversion(i, _) => CloseFor(i, open);
        case _ =>
      }
      StartedIndex(next, if step.StartAnalysis? then index0[step.i := 0] else index0, index);
      state := next;
    }

    // A running analysis spools a fact; its registry is never a closed one.
    method Spool(i: nat, kind: Option<string>, payload: Option<Registry.Payload>, temporary: bool, written: bool)
      returns (error: Registry.Error)
      requires Valid() && i in state.analyses && state.analyses[i].Running?
      modifies pool.bytes, pool.descriptors, pool.registries
      ensures Valid() && error != Registry.ClosedError && pool.registries == old(pool.registries)
      ensures i in index && index[i] < |pool.registries| && !old(pool.registries[index[i]].closed)
      ensures pool.registries[index[i]].Answered(kind, payload, temporary, written, error)
      ensures pool.registries[index[i]].Stored(kind, payload, error)
    {
      hide Inv, Started, Registry.SpoolPool.Balanced, Registry.FactRegistry.Stored;
      ghost var closed := Closed();
      RunningOwns(limits, state, i);
      hide Accounted;
      assert i in index && !Closed()[index[i]];
      hide Booked;
      error := pool.Spool(index[i], kind, payload, temporary, written);
      assert Closed() == closed;
    }
  }
}
