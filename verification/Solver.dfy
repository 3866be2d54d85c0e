// The solver over one build variant as functions: a transfer per non-recursive
// summary, a capped Jacobi iteration per recursive component, callees first.
module Solver {
  import opened Graphs
  import opened Options
  import opened Summaries
  import opened Transfer
  import opened TransferMeaning
  import opened Chains
  import Tarjan

  predicate Members(p: Program, component: seq<nat>) {
    forall s :: s in component ==> s in p.summaries
  }

  predicate Oversized(limits: Limits, component: seq<nat>) {
    |component| > limits.maxSccSize
  }

  function Initial(p: Program): Current {
    map s | s in p.summaries :: Facts(LocalEffects(p, s), LocalOrigins(p, s), p.summaries[s].localReasons)
  }

  // One Jacobi round: every member's transfer against the same current facts.
  function Round(p: Program, limits: Limits, component: seq<nat>, cur: Current): Current
    requires WellFormed(p) && Members(p, component)
  {
    map s | s in component :: TransferFacts(p, limits, Oversized(limits, component), p.summaries[s], cur)
  }

  predicate Stable(component: seq<nat>, cur: Current, next: Current)
    requires forall s :: s in component ==> s in next
  {
    forall s :: s in component ==> FactsOf(cur, s) == next[s]
  }

  datatype Outcome = Outcome(cur: Current, converged: bool, iterations: nat)

  function Jacobi(p: Program, limits: Limits, component: seq<nat>, cur: Current, count: nat, limit: nat): Outcome
    requires WellFormed(p) && Members(p, component) && count <= limit
    decreases limit - count
  {
    var next := Round(p, limits, component, cur);
    var stable := Stable(component, cur, next);
    if stable || count == limit then Outcome(cur + next, stable, count)
    else Jacobi(p, limits, component, cur + next, count + 1, limit)
  }

  function AddReason(cur: Current, component: seq<nat>, reason: Reason): Current {
    map s | s in cur ::
      if s in component then cur[s].(reasons := cur[s].reasons + {reason}) else cur[s]
  }

  function IterationLimit(limits: Limits, component: seq<nat>): nat {
    if Oversized(limits, component) then 1 else limits.maxIterations
  }

  // The iterating branch.
  function Iterated(p: Program, limits: Limits, component: seq<nat>, cur: Current): Outcome
    requires WellFormed(p) && Members(p, component) && limits.Valid()
  {
    var o := Jacobi(p, limits, component, cur, 1, IterationLimit(limits, component));
    if !o.converged && !Oversized(limits, component) then
      o.(cur := AddReason(o.cur, component, SccIterationCap))
    else o
  }

  // The single-transfer branch for a summary that does not call itself.
  function Shortcut(p: Program, limits: Limits, s: nat, cur: Current): Outcome
    requires WellFormed(p) && s in p.summaries
  {
    var next := TransferFacts(p, limits, Oversized(limits, [s]), p.summaries[s], cur);
    var changed := next != FactsOf(cur, s);
    var next' := if changed && limits.maxIterations == 1 then next.(reasons := next.reasons + {SccIterationCap}) else next;
    Outcome(cur[s := next'], !changed || limits.maxIterations > 1, if changed && limits.maxIterations > 1 then 2 else 1)
  }

  predicate Solitary(p: Program, component: seq<nat>) {
    |component| == 1 && component[0] !in Successors(CallGraph(p), component[0])
  }

  function SolveComponent(p: Program, limits: Limits, component: seq<nat>, cur: Current): Outcome
    requires WellFormed(p) && Members(p, component) && limits.Valid()
  {
    if Solitary(p, component) then Shortcut(p, limits, component[0], cur)
    else Iterated(p, limits, component, cur)
  }

  // A solved summary as it is emitted.
  datatype Solved = Solved(id: nat, complete: bool, recursive: bool, iterations: nat, facts: Facts)

  function SolvedSummary(p: Program, component: seq<nat>, s: nat, o: Outcome): Solved {
    var facts := FactsOf(o.cur, s);
    Solved(s, facts.reasons == {}, Tarjan.FlaggedRecursive(CallGraph(p), component, s), o.iterations, facts)
  }

  function SolvedMembers(p: Program, component: seq<nat>, o: Outcome, n: nat): seq<Solved>
    requires n <= |component|
  {
    seq(n, i requires 0 <= i < n => SolvedSummary(p, component, component[i], o))
  }

  datatype Run = Run(cur: Current, emitted: seq<Solved>)

  predicate AllMembers(p: Program, components: seq<seq<nat>>) {
    forall k :: 0 <= k < |components| ==> Members(p, components[k])
  }

  // The first k components solved in order, keeping every summary's facts.
  function RunTo(p: Program, limits: Limits, components: seq<seq<nat>>, k: nat): Run
    requires WellFormed(p) && limits.Valid() && AllMembers(p, components) && k <= |components|
  {
    if k == 0 then Run(Initial(p), [])
    else
      var before := RunTo(p, limits, components, k - 1);
      var component := components[k - 1];
      var o := SolveComponent(p, limits, component, before.cur);
      Run(o.cur, before.emitted + SolvedMembers(p, component, o, |component|))
  }

  // The shortcut -------------------------------------------------------------------

  lemma UnreadUpdate(p: Program, limits: Limits, oversized: bool, s: nat, cur: Current, facts: Facts)
    requires WellFormed(p) && s in p.summaries && s !in Successors(CallGraph(p), s)
    ensures TransferFacts(p, limits, oversized, p.summaries[s], cur[s := facts])
            == TransferFacts(p, limits, oversized, p.summaries[s], cur)
  {
    hide WellFormed, CallEdges, TransferFacts;
    var c := p.summaries[s];
    forall e | e in CallEdges(p, c)
      ensures FactsOf(cur[s := facts], e.callee.id) == FactsOf(cur, e.callee.id)
    {
      assert e.callee.id in CalleeIds(CallEdges(p, c));
    }
    TransferDependsOnCallees(p, limits, oversized, c, cur[s := facts], cur);
  }

  // Skipping the equality pass changes nothing: facts, reasons and iteration count
  // equal those of the iterating branch, for every limit setting.
  lemma ShortcutIsExact(p: Program, limits: Limits, s: nat, cur: Current)
    requires WellFormed(p) && limits.Valid() && s in p.summaries && s in cur
    requires s !in Successors(CallGraph(p), s)
    ensures Shortcut(p, limits, s, cur) == Iterated(p, limits, [s], cur)
  {
    hide WellFormed, CallGraph, TransferFacts;
    var component := [s];
    var next := TransferFacts(p, limits, false, p.summaries[s], cur);
    var round := Round(p, limits, component, cur);
    assert round == map[s := next];
    assert cur + round == cur[s := next];
    var limit := IterationLimit(limits, component);
    if next != FactsOf(cur, s) && limit > 1 {
      UnreadUpdate(p, limits, false, s, cur, next);
      var again := Round(p, limits, component, cur[s := next]);
      assert again == map[s := next];
      assert cur[s := next] + again == cur[s := next];
      assert Jacobi(p, limits, component, cur[s := next], 2, limit) == Outcome(cur[s := next], true, 2);
    }
    if limits.maxIterations == 1 {
      var capped := cur[s := next.(reasons := next.reasons + {SccIterationCap})];
      assert AddReason(cur[s := next], component, SccIterationCap) == capped;
    }
  }

  // Settling -----------------------------------------------------------------------

  // A summary is settled when it is marked incomplete or its facts reproduce themselves.
  ghost predicate Settled(p: Program, limits: Limits, oversized: bool, s: nat, cur: Current)
    requires WellFormed(p) && s in p.summaries
  {
    || FactsOf(cur, s).reasons != {}
    || FactsOf(cur, s) == TransferFacts(p, limits, oversized, p.summaries[s], cur)
  }

  lemma SettledElsewhere(p: Program, limits: Limits, oversized: bool, s: nat, cur: Current, cur': Current)
    requires WellFormed(p) && s in p.summaries && Settled(p, limits, oversized, s, cur)
    requires FactsOf(cur, s) == FactsOf(cur', s) && AgreeOn(cur, cur', CallEdges(p, p.summaries[s]))
    ensures Settled(p, limits, oversized, s, cur')
  {
    hide WellFormed, TransferFacts, AgreeOn, FactsOf;
    TransferDependsOnCallees(p, limits, oversized, p.summaries[s], cur, cur');
  }

  lemma OversizedReason(p: Program, limits: Limits, c: Summary, cur: Current)
    requires WellFormed(p)
    ensures TransferFacts(p, limits, true, c, cur).reasons != {}
  {
    hide WellFormed, AllEffects, AllOrigins, Truncate, SitesReasons, EdgesReasons;
    assert SccSizeCap in StartReasons(c, true);
  }

  lemma {:induction false} JacobiSettles(p: Program, limits: Limits, component: seq<nat>, cur: Current, count: nat, limit: nat, s: nat)
    requires WellFormed(p) && Members(p, component) && count <= limit && s in component
    ensures var o := Jacobi(p, limits, component, cur, count, limit);
            && (o.converged || Oversized(limits, component) ==> Settled(p, limits, Oversized(limits, component), s, o.cur))
            && s in o.cur
    decreases limit - count
  {
    hide WellFormed, TransferFacts, CallEdges;
    var next := Round(p, limits, component, cur);
    var stable := Stable(component, cur, next);
    if stable {
      forall x
        ensures FactsOf(cur + next, x) == FactsOf(cur, x)
      {
      }
      assert AgreeOn(cur, cur + next, CallEdges(p, p.summaries[s]));
      TransferDependsOnCallees(p, limits, Oversized(limits, component), p.summaries[s], cur, cur + next);
    } else if count < limit {
      JacobiSettles(p, limits, component, cur + next, count + 1, limit, s);
    } else if Oversized(limits, component) {
      OversizedReason(p, limits, p.summaries[s], cur);
    }
  }

  lemma {:induction false} JacobiFrame(p: Program, limits: Limits, component: seq<nat>, cur: Current, count: nat, limit: nat)
    requires WellFormed(p) && Members(p, component) && count <= limit
    ensures var o := Jacobi(p, limits, component, cur, count, limit);
            && o.cur.Keys == cur.Keys + (set s | s in component)
            && forall s :: s !in component ==> FactsOf(o.cur, s) == FactsOf(cur, s)
    decreases limit - count
  {
    hide WellFormed, TransferFacts;
    var next := Round(p, limits, component, cur);
    if !(Stable(component, cur, next) || count == limit) {
      JacobiFrame(p, limits, component, cur + next, count + 1, limit);
    }
  }

  // A component's solution settles its members and touches nothing else.
  lemma ComponentSettles(p: Program, limits: Limits, component: seq<nat>, cur: Current)
    requires WellFormed(p) && Members(p, component) && limits.Valid()
    requires forall s :: s in component ==> s in cur
    ensures var o := SolveComponent(p, limits, component, cur);
            && o.cur.Keys == cur.Keys
            && (forall s :: s !in component ==> FactsOf(o.cur, s) == FactsOf(cur, s))
            && (forall s :: s in component ==> Settled(p, limits, Oversized(limits, component), s, o.cur))
  {
    hide WellFormed, CallGraph, TransferFacts, Jacobi, Settled;
    if Solitary(p, component) {
      assert component == [component[0]];
      ShortcutIsExact(p, limits, component[0], cur);
    }
    var limit := IterationLimit(limits, component);
    var o := Jacobi(p, limits, component, cur, 1, limit);
    JacobiFrame(p, limits, component, cur, 1, limit);
    forall s | s in component
      ensures Settled(p, limits, Oversized(limits, component), s, Iterated(p, limits, component, cur).cur)
    {
      JacobiSettles(p, limits, component, cur, 1, limit, s);
      if !o.converged && !Oversized(limits, component) {
        CapSettles(p, limits, component, o.cur, s);
      }
    }
  }

  lemma CapSettles(p: Program, limits: Limits, component: seq<nat>, cur: Current, s: nat)
    requires WellFormed(p) && Members(p, component) && s in component && s in cur
    ensures Settled(p, limits, Oversized(limits, component), s, AddReason(cur, component, SccIterationCap))
  {
    hide WellFormed, TransferFacts;
    assert SccIterationCap in FactsOf(AddReason(cur, component, SccIterationCap), s).reasons;
  }

  // The components come from the strongly connected component walk of the call graph.
  ghost predicate Ordered(p: Program, components: seq<seq<nat>>) {
    Tarjan.Correct(CallGraph(p), p.summaries.Keys, components)
  }

  lemma CalleesAreSummaries(p: Program)
    requires WellFormed(p)
    ensures Closed(CallGraph(p), p.summaries.Keys)
  {
    forall x, y | x in p.summaries && y in Successors(CallGraph(p), x)
      ensures y in p.summaries
    {
      var e :| e in CallEdges(p, p.summaries[x]) && e.callee.id == y;
      EdgesStayInUnit(p, p.summaries[x], e);
    }
  }

  lemma OrderedMembers(p: Program, components: seq<seq<nat>>)
    requires WellFormed(p) && Ordered(p, components)
    ensures AllMembers(p, components)
    ensures forall s :: s in p.summaries <==> Tarjan.Emitted(components, s)
  {
    hide WellFormed, CallEdges;
    CalleesAreSummaries(p);
    forall s
      ensures s in p.summaries <==> Tarjan.Emitted(components, s)
    {
      ReachRefl(CallGraph(p), s);
      if r :| r in p.summaries && Reach(CallGraph(p), r, s) {
        ReachStaysClosed(CallGraph(p), p.summaries.Keys, r, s);
      }
    }
    forall k, s | 0 <= k < |components| && s in components[k]
      ensures s in p.summaries
    {
      assert Tarjan.Emitted(components, s);
    }
  }

  // A callee of a member of components[k] sits in components[..k + 1].
  lemma CalleeEarlier(p: Program, components: seq<seq<nat>>, k: nat, s: nat, e: Edge)
    requires WellFormed(p) && Ordered(p, components) && k < |components| && s in components[k]
    requires s in p.summaries && e in CallEdges(p, p.summaries[s])
    ensures Tarjan.Emitted(components[..k + 1], e.callee.id)
  {
    hide WellFormed, CallEdges;
    assert e.callee.id in CalleeIds(CallEdges(p, p.summaries[s]));
    assert e.callee.id in Successors(CallGraph(p), s);
  }

  lemma LaterIsNot(components: seq<seq<nat>>, k: nat, s: nat)
    requires Tarjan.Disjoint(components) && k < |components| && Tarjan.Emitted(components[..k], s)
    ensures s !in components[k]
  {
    var j :| 0 <= j < k && s in components[..k][j];
    assert s in components[j];
  }

  lemma RunKeys(p: Program, limits: Limits, components: seq<seq<nat>>, k: nat)
    requires WellFormed(p) && limits.Valid() && AllMembers(p, components) && k <= |components|
    ensures RunTo(p, limits, components, k).cur.Keys == p.summaries.Keys
  {
    hide WellFormed, SolveComponent;
    if k > 0 {
      RunKeys(p, limits, components, k - 1);
      var before := RunTo(p, limits, components, k - 1);
      assert Members(p, components[k - 1]);
      ComponentSettles(p, limits, components[k - 1], before.cur);
    }
  }

  // After k components every member of every solved component is settled.
  lemma {:induction false} RunSettles(p: Program, limits: Limits, components: seq<seq<nat>>, k: nat, j: nat, s: nat)
    requires WellFormed(p) && limits.Valid() && AllMembers(p, components) && Ordered(p, components)
    requires j < k <= |components| && s in components[j]
    ensures s in p.summaries
    ensures Settled(p, limits, Oversized(limits, components[j]), s, RunTo(p, limits, components, k).cur)
  {
    hide WellFormed, SolveComponent, Ordered, CallEdges, Settled;
    var before := RunTo(p, limits, components, k - 1);
    var component := components[k - 1];
    RunKeys(p, limits, components, k - 1);
    assert Members(p, component) && Members(p, components[j]);
    ComponentSettles(p, limits, component, before.cur);
    if j < k - 1 {
      RunSettles(p, limits, components, k - 1, j, s);
      var after := RunTo(p, limits, components, k).cur;
      Earlier(p, components, k - 1, j, s, before.cur, after);
      SettledElsewhere(p, limits, Oversized(limits, components[j]), s, before.cur, after);
    }
  }

  // Solving component k changes neither an earlier member nor its callees.
  lemma Earlier(p: Program, components: seq<seq<nat>>, k: nat, j: nat, s: nat, cur: Current, cur': Current)
    requires WellFormed(p) && Ordered(p, components) && j < k < |components| && s in components[j] && s in p.summaries
    requires forall x :: x !in components[k] ==> FactsOf(cur', x) == FactsOf(cur, x)
    ensures FactsOf(cur, s) == FactsOf(cur', s)
    ensures AgreeOn(cur, cur', CallEdges(p, p.summaries[s]))
  {
    hide WellFormed, CallEdges, FactsOf;
    assert s in components[..k][j];
    LaterIsNot(components, k, s);
    forall e | e in CallEdges(p, p.summaries[s])
      ensures FactsOf(cur, e.callee.id) == FactsOf(cur', e.callee.id)
    {
      CalleeEarlier(p, components, j, s, e);
      var i :| 0 <= i < j + 1 && e.callee.id in components[..j + 1][i];
      assert e.callee.id in components[..k][i];
      LaterIsNot(components, k, e.callee.id);
    }
  }
}
