// What solving one component comes to, said of its rounds alone: how many are run, and what is
// recorded when they do not come to rest.
module ComponentRun {
  import opened Graphs
  import opened Options
  import opened Summaries
  import opened Transfer
  import opened TransferMeaning
  import opened Chains
  import opened Solver
  import opened SolverTheorems
  import opened Convergence
  import opened Fixpoint

  // The facts after n rounds: in each, every member is recomputed from the facts of the round
  // before, and is told when the component has more members than the limit allows.
  function After(p: Program, limits: Limits, component: seq<nat>, cur: Current, n: nat): Current
    requires WellFormed(p) && Members(p, component)
  {
    if n == 0 then cur
    else
      var before := After(p, limits, component, cur, n - 1);
      before + map s | s in component :: TransferFacts(p, limits, |component| > limits.maxSccSize, p.summaries[s], before)
  }

  // Round n changed nothing.
  ghost predicate Quiet(p: Program, limits: Limits, component: seq<nat>, cur: Current, n: nat)
    requires WellFormed(p) && Members(p, component) && n > 0
  {
    forall s :: s in component ==>
      FactsOf(After(p, limits, component, cur, n), s) == FactsOf(After(p, limits, component, cur, n - 1), s)
  }

  // One round for a component that is too large, and otherwise as many as the limit says.
  function RoundsAllowed(limits: Limits, component: seq<nat>): nat {
    if |component| > limits.maxSccSize then 1 else limits.maxIterations
  }

  // The last round is the first quiet one, or the last that is allowed.
  ghost predicate LastRound(p: Program, limits: Limits, component: seq<nat>, cur: Current, n: nat)
    requires WellFormed(p) && Members(p, component)
  {
    && 1 <= n <= RoundsAllowed(limits, component)
    && (Quiet(p, limits, component, cur, n) || n == RoundsAllowed(limits, component))
    && forall m :: 1 <= m < n ==> !Quiet(p, limits, component, cur, m)
  }

  lemma {:induction false} AfterIsIterate(p: Program, limits: Limits, component: seq<nat>, cur: Current, n: nat)
    requires WellFormed(p) && Members(p, component)
    ensures After(p, limits, component, cur, n) == Iterate(p, limits, component, cur, n)
  {
    hide WellFormed, TransferFacts;
    if n > 0 {
      AfterIsIterate(p, limits, component, cur, n - 1);
    }
  }

  lemma QuietIsStable(p: Program, limits: Limits, component: seq<nat>, cur: Current, n: nat)
    requires WellFormed(p) && Members(p, component) && n > 0
    ensures var before := Iterate(p, limits, component, cur, n - 1);
            Quiet(p, limits, component, cur, n) <==> Stable(component, before, Round(p, limits, component, before))
  {
    hide WellFormed, TransferFacts, After, Iterate, Round, Stable;
    AfterIsIterate(p, limits, component, cur, n - 1);
    AfterIsIterate(p, limits, component, cur, n);
    IterateStep(p, limits, component, cur, n - 1);
    var before := Iterate(p, limits, component, cur, n - 1);
    MergedFacts(p, limits, component, before);
  }

  lemma MergedFacts(p: Program, limits: Limits, component: seq<nat>, cur: Current)
    requires WellFormed(p) && Members(p, component)
    ensures var next := Round(p, limits, component, cur);
            Stable(component, cur, next) <==> forall s :: s in component ==> FactsOf(cur + next, s) == FactsOf(cur, s)
  {
    hide WellFormed, TransferFacts;
  }

  lemma {:induction false} JacobiStops(p: Program, limits: Limits, component: seq<nat>, cur: Current, done: nat, limit: nat)
    requires WellFormed(p) && Members(p, component) && done < limit
    requires forall m :: 1 <= m <= done ==> !Quiet(p, limits, component, cur, m)
    ensures var o := Jacobi(p, limits, component, Iterate(p, limits, component, cur, done), done + 1, limit);
            && 1 <= o.iterations <= limit && o.cur == After(p, limits, component, cur, o.iterations)
            && (o.converged <==> Quiet(p, limits, component, cur, o.iterations))
            && (o.converged || o.iterations == limit)
            && forall m :: 1 <= m < o.iterations ==> !Quiet(p, limits, component, cur, m)
    decreases limit - done
  {
    hide WellFormed, TransferFacts, Iterate, Stable, After, Quiet;
    var here := Iterate(p, limits, component, cur, done);
    IterateStep(p, limits, component, cur, done);
    AfterIsIterate(p, limits, component, cur, done + 1);
    QuietIsStable(p, limits, component, cur, done + 1);
    if !(Stable(component, here, Round(p, limits, component, here)) || done + 1 == limit) {
      JacobiStops(p, limits, component, cur, done + 1, limit);
    }
  }

  // Solving a component: its members get the facts of the last round, and besides them the mark of
  // the iteration limit if that round was not quiet and the component is not too large, which has
  // its own mark; nothing else changes.
  lemma SolvedExactly(p: Program, limits: Limits, component: seq<nat>, cur: Current)
    requires WellFormed(p) && limits.Valid() && Members(p, component) && forall s :: s in component ==> s in cur
    ensures var o := SolveComponent(p, limits, component, cur); var n := o.iterations;
            && LastRound(p, limits, component, cur, n)
            && (forall s :: s in component ==>
                  var f := FactsOf(After(p, limits, component, cur, n), s);
                  FactsOf(o.cur, s) == f.(reasons := f.reasons +
                    if !Quiet(p, limits, component, cur, n) && |component| <= limits.maxSccSize then {SccIterationCap} else {}))
            && (forall s :: s !in component ==> FactsOf(o.cur, s) == FactsOf(cur, s))
  {
    hide WellFormed, CallGraph, TransferFacts, Jacobi, After, Quiet, Settled, FactsOf, AddReason, Shortcut;
    ComponentSettles(p, limits, component, cur);
    if Solitary(p, component) {
      assert component == [component[0]];
      ShortcutIsExact(p, limits, component[0], cur);
    }
    IterateNone(p, limits, component, cur);
    JacobiStops(p, limits, component, cur, 0, RoundsAllowed(limits, component));
    var o := Jacobi(p, limits, component, cur, 1, RoundsAllowed(limits, component));
    MarkedMembers(o.cur, component);
    AfterKeys(p, limits, component, cur, o.iterations);
  }

  lemma IterateNone(p: Program, limits: Limits, component: seq<nat>, cur: Current)
    requires WellFormed(p) && Members(p, component)
    ensures Iterate(p, limits, component, cur, 0) == cur
  {
    hide WellFormed, Round;
  }

  lemma MarkedMembers(cur: Current, component: seq<nat>)
    ensures forall s :: s in component && s in cur ==>
              FactsOf(AddReason(cur, component, SccIterationCap), s)
              == FactsOf(cur, s).(reasons := FactsOf(cur, s).reasons + {SccIterationCap})
    ensures forall s :: FactsOf(cur, s) == FactsOf(cur, s).(reasons := FactsOf(cur, s).reasons + {})
  {
  }

  lemma {:induction false} AfterKeys(p: Program, limits: Limits, component: seq<nat>, cur: Current, n: nat)
    requires WellFormed(p) && Members(p, component)
    ensures cur.Keys <= After(p, limits, component, cur, n).Keys
  {
    hide WellFormed, TransferFacts;
    if n > 0 {
      AfterKeys(p, limits, component, cur, n - 1);
    }
  }
}
