// What a solved variant publishes: each summary once, with its final facts, and exactly the
// flows that its call edges, bindings and final callee facts give rise to.
module Published {
  import opened Graphs
  import opened Options
  import opened Summaries
  import opened Transfer
  import opened TransferMeaning
  import opened Solver
  import opened SolverTheorems
  import opened Flows
  import opened SolverRun
  import Tarjan

  // Facts are final once their component is solved --------------------------------------------

  lemma {:induction false} FactsAreFinal(p: Program, limits: Limits, components: seq<seq<nat>>, j: nat, k: nat, s: nat)
    requires Solvable(p, limits, components) && j < k <= |components| && s in components[j]
    ensures FactsOf(RunTo(p, limits, components, k).cur, s) == FactsOf(Final(p, limits, components), s)
    decreases |components| - k
  {
    hide WellFormed, Ordered, AllMembers, RunTo, FactsOf;
    if k < |components| {
      FactsAreFinal(p, limits, components, j, k + 1, s);
      DisjointComponents(p, components, j, k, s);
      OutsideKept(p, limits, components, k, s);
    }
  }

  // Solving component k leaves everything else as it was.
  lemma OutsideKept(p: Program, limits: Limits, components: seq<seq<nat>>, k: nat, s: nat)
    requires Solvable(p, limits, components) && k < |components| && s !in components[k]
    ensures FactsOf(RunTo(p, limits, components, k + 1).cur, s) == FactsOf(RunTo(p, limits, components, k).cur, s)
  {
    hide WellFormed, Ordered, SolveComponent, FactsOf, Settled;
    RunKeys(p, limits, components, k);
    assert Members(p, components[k]);
    ComponentSettles(p, limits, components[k], RunTo(p, limits, components, k).cur);
  }

  lemma DisjointComponents(p: Program, components: seq<seq<nat>>, j: nat, k: nat, s: nat)
    requires Ordered(p, components) && j < k < |components| && s in components[j]
    ensures s !in components[k]
  {
    hide CallGraph;
    assert s in components[..k][j];
    LaterIsNot(components, k, s);
  }

  // Summaries ---------------------------------------------------------------------------------

  // An emitted summary that tells the truth about the solved variant.
  ghost predicate Truthful(p: Program, limits: Limits, components: seq<seq<nat>>, x: Solved)
    requires Solvable(p, limits, components)
  {
    && x.id in p.summaries && x.facts == FactsOf(Final(p, limits, components), x.id)
    && (x.complete <==> Complete(p, Final(p, limits, components), x.id))
    && (x.recursive <==> OnCycle(CallGraph(p), x.id))
  }

  lemma MemberIsTruthful(p: Program, limits: Limits, components: seq<seq<nat>>, k: nat, n: nat)
    requires Solvable(p, limits, components) && k < |components| && n < |components[k]|
    ensures var o := SolveComponent(p, limits, components[k], RunTo(p, limits, components, k).cur);
            Truthful(p, limits, components, SolvedSummary(p, components[k], components[k][n], o))
  {
    hide WellFormed, SolveComponent, FactsOf, CallGraph, Tarjan.Correct, OnCycle;
    var s := components[k][n];
    assert s in components[k];
    FactsAreFinal(p, limits, components, k, k + 1, s);
    Tarjan.RecursiveIffOnCycle(CallGraph(p), p.summaries.Keys, components, k, s);
    assert Members(p, components[k]);
  }

  // The identities emitted by the first k components, in order.
  function IdsTo(components: seq<seq<nat>>, k: nat): seq<nat>
    requires k <= |components|
  {
    if k == 0 then [] else IdsTo(components, k - 1) + components[k - 1]
  }

  lemma {:induction false} EmittedTruthfully(p: Program, limits: Limits, components: seq<seq<nat>>, k: nat)
    requires Solvable(p, limits, components) && k <= |components|
    ensures var emitted := RunTo(p, limits, components, k).emitted;
            && |emitted| == |IdsTo(components, k)|
            && forall n :: 0 <= n < |emitted| ==> emitted[n].id == IdsTo(components, k)[n] && Truthful(p, limits, components, emitted[n])
  {
    hide WellFormed, SolveComponent, Truthful, CallGraph, Ordered;
    if k > 0 {
      EmittedTruthfully(p, limits, components, k - 1);
      var component := components[k - 1];
      forall n | 0 <= n < |component|
        ensures Truthful(p, limits, components, SolvedSummary(p, component, component[n],
                          SolveComponent(p, limits, component, RunTo(p, limits, components, k - 1).cur)))
      {
        MemberIsTruthful(p, limits, components, k - 1, n);
      }
    }
  }

  lemma {:induction false} IdsAreMembers(components: seq<seq<nat>>, k: nat, s: nat)
    requires k <= |components|
    ensures s in IdsTo(components, k) <==> Tarjan.Emitted(components[..k], s)
  {
    if k > 0 {
      IdsAreMembers(components, k - 1, s);
      assert components[..k] == components[..k - 1] + [components[k - 1]];
      Tarjan.EmittedSnoc(components[..k - 1], components[k - 1], s);
    }
  }

  lemma {:induction false} IdsAreDistinct(components: seq<seq<nat>>, k: nat)
    requires k <= |components| && Tarjan.Disjoint(components)
    requires forall j :: 0 <= j < |components| ==> StrictlyAscending(components[j])
    ensures forall m, n :: 0 <= m < n < |IdsTo(components, k)| ==> IdsTo(components, k)[m] != IdsTo(components, k)[n]
  {
    if k > 0 {
      IdsAreDistinct(components, k - 1);
      var before := IdsTo(components, k - 1);
      forall m | 0 <= m < |before|
        ensures before[m] !in components[k - 1]
      {
        assert before[m] in before;
        IdsAreMembers(components, k - 1, before[m]);
        LaterIsNot(components, k - 1, before[m]);
      }
    }
  }

  // Every summary is emitted exactly once, and every emission is truthful.
  lemma EmittedOnceAndTrue(p: Program, limits: Limits, components: seq<seq<nat>>)
    requires Solvable(p, limits, components)
    ensures var emitted := RunTo(p, limits, components, |components|).emitted;
            && (forall n :: 0 <= n < |emitted| ==> Truthful(p, limits, components, emitted[n]))
            && (forall m, n :: 0 <= m < n < |emitted| ==> emitted[m].id != emitted[n].id)
            && (forall s :: s in p.summaries ==> exists n :: 0 <= n < |emitted| && emitted[n].id == s)
  {
    hide WellFormed, Truthful, RunTo, CallGraph, Ordered, Tarjan.Disjoint, AllMembers;
    EmittedTruthfully(p, limits, components, |components|);
    ComponentShapes(p, components);
    IdsAreDistinct(components, |components|);
    OrderedMembers(p, components);
    var ids := IdsTo(components, |components|);
    forall s | s in p.summaries
      ensures s in ids
    {
      assert components[..|components|] == components;
      IdsAreMembers(components, |components|, s);
    }
  }

  // Flows -------------------------------------------------------------------------------------

  // A flow over edge e: from its caller to its callee or back, at its call site and for its target.
  ghost predicate Over(e: Edge, i: FlowId) {
    i.caller == e.caller.id && i.callee == e.callee.id && i.site == e.site.id && i.target == e.target.symbol
  }

  // An argument bound to the parameter that the flow names goes into that parameter.
  ghost predicate Passes(p: Program, e: Edge, i: FlowId) {
    && i.kind.ArgumentToParameter? && Over(e, i) && i.access.None?
    && i.index.Some? && i.index.value < |e.callee.parameters| && i.calleeLocation == Some(e.callee.parameters[i.index.value])
    && ArgumentOf(p, e, i.index.value).Some? && i.callerLocation == ArgumentOf(p, e, i.index.value).value.location
  }

  // Effect y of the callee writes through the parameter that the flow names, which is taken by
  // reference or by pointer, and the argument bound to it may be written back.
  ghost predicate WritesBack(p: Program, e: Edge, y: Effect, i: FlowId) {
    && i.kind.Writeback? && Over(e, i) && i.access.None?
    && y.kind.Write? && y.parameter.Some? && y.parameter == i.index && y.location == i.calleeLocation
    && y.parameter.value < |e.callee.modes|
    && (var mode := e.callee.modes[y.parameter.value]; mode == Reference || mode == RvalueReference || mode == Pointer)
    && ArgumentOf(p, e, y.parameter.value).Some?
    && (var b := ArgumentOf(p, e, y.parameter.value).value; b.writeback && i.callerLocation == b.location)
  }

  // Origin z of the callee reaches the storage that the call's result defines.
  ghost predicate HandsBack(p: Program, e: Edge, z: Origin, i: FlowId) {
    && i.kind.ReturnToCaller? && Over(e, i) && i.index.None? && z.location == i.calleeLocation
    && ResultKey(e.caller.id, e.site.id) in p.results
    && (var r := p.results[ResultKey(e.caller.id, e.site.id)]; i.callerLocation == Some(r.location) && i.access == Some(r.access))
  }

  // The effects and the origins of a callee that give rise to a flow.
  ghost function Writers(p: Program, e: Edge, callee: Facts, i: FlowId): set<FactId> {
    set y | y in callee.effects && WritesBack(p, e, callee.effects[y], i)
  }

  ghost function Returners(p: Program, e: Edge, callee: Facts, i: FlowId): set<FactId> {
    set z | z in callee.origins && HandsBack(p, e, callee.origins[z], i)
  }

  // Why a flow is recorded for an edge: a bound argument, a written parameter, or a returned origin.
  ghost predicate Recorded(p: Program, e: Edge, callee: Facts, i: FlowId) {
    Passes(p, e, i) || Writers(p, e, callee, i) != {} || Returners(p, e, callee, i) != {}
  }

  predicate ArgumentFlow(p: Program, e: Edge, n: nat, i: FlowId) {
    && n < |e.callee.parameters| && KeyOf(e, n) in p.bindings
    && i == FlowOf(ArgumentToParameter, e, Some(n), p.bindings[KeyOf(e, n)].location, Some(e.callee.parameters[n]), None)
  }

  lemma PassesIff(p: Program, e: Edge, i: FlowId)
    ensures Passes(p, e, i) <==> exists n: nat :: n < |e.callee.parameters| && ArgumentFlow(p, e, n, i)
  {
    if Passes(p, e, i) {
      assert ArgumentFlow(p, e, i.index.value, i);
    }
    if n: nat :| ArgumentFlow(p, e, n, i) {
      assert ArgumentOf(p, e, n).Some?;
    }
  }

  lemma WritesBackIff(p: Program, e: Edge, y: Effect, i: FlowId)
    ensures WritesBack(p, e, y, i) <==> Eligible(p, e, y) && i == WritebackId(p, e, y)
  {
    assert y.parameter.Some? ==> ArgumentOf(p, e, y.parameter.value).Some? == (KeyOf(e, y.parameter.value) in p.bindings);
  }

  lemma HandsBackIff(p: Program, e: Edge, z: Origin, i: FlowId)
    ensures var key := ResultKey(e.caller.id, e.site.id);
            HandsBack(p, e, z, i) <==> key in p.results && i == ReturnId(e, p.results[key], z)
  {
  }

  lemma {:induction false} ArgumentsExact(p: Program, e: Edge, n: nat, flows: FlowMap, i: FlowId)
    requires n <= |e.callee.parameters|
    ensures i in ArgumentFlows(p, e, n, flows) <==> i in flows || exists a: nat :: a < n && ArgumentFlow(p, e, a, i)
  {
    if n > 0 {
      ArgumentsExact(p, e, n - 1, flows, i);
      if ArgumentFlow(p, e, n - 1, i) {
      }
    }
  }

  lemma {:induction false} WritebacksExact(p: Program, e: Edge, ys: seq<Effect>, flows: FlowMap, i: FlowId)
    ensures i in WritebackFlows(p, e, ys, flows)
            <==> i in flows || exists k :: 0 <= k < |ys| && Eligible(p, e, ys[k]) && i == WritebackId(p, e, ys[k])
  {
    hide Eligible, WritebackId, WritebackCertainty;
    if ys != [] {
      var n := |ys| - 1;
      WritebacksExact(p, e, ys[..n], flows, i);
      assert forall k :: 0 <= k < n ==> ys[..n][k] == ys[k];
    }
  }

  lemma {:induction false} ReturnsExact(e: Edge, r: ResultBinding, zs: seq<Origin>, flows: FlowMap, i: FlowId)
    ensures i in ReturnFlows(e, r, zs, flows) <==> i in flows || exists k :: 0 <= k < |zs| && i == ReturnId(e, r, zs[k])
  {
    hide ReturnId, EdgeCertainty;
    if zs != [] {
      var n := |zs| - 1;
      ReturnsExact(e, r, zs[..n], flows, i);
      assert forall k :: 0 <= k < n ==> zs[..n][k] == zs[k];
    }
  }

  lemma EdgeExact(p: Program, e: Edge, callee: Facts, flows: FlowMap, i: FlowId)
    requires WellFormed(p)
    ensures i in EdgeFlows(p, e, callee, flows) <==> i in flows || Recorded(p, e, callee, i)
  {
    hide WellFormed, Passes, Writers, Returners, ArgumentFlows, WritebackFlows, ReturnFlows, Effects, Origins;
    var bound := ArgumentFlows(p, e, |e.callee.parameters|, flows);
    AllArgumentsExact(p, e, flows, i);
    EffectsExact(p, e, callee, bound, i);
    OriginsExact(p, e, callee, WritebackFlows(p, e, Effects(p, callee.effects), bound), i);
  }

  lemma AllArgumentsExact(p: Program, e: Edge, flows: FlowMap, i: FlowId)
    ensures i in ArgumentFlows(p, e, |e.callee.parameters|, flows) <==> i in flows || Passes(p, e, i)
  {
    hide ArgumentFlow, ArgumentFlows, Passes;
    ArgumentsExact(p, e, |e.callee.parameters|, flows, i);
    PassesIff(p, e, i);
  }

  lemma EffectsExact(p: Program, e: Edge, callee: Facts, flows: FlowMap, i: FlowId)
    requires WellFormed(p)
    ensures i in WritebackFlows(p, e, Effects(p, callee.effects), flows) <==> i in flows || Writers(p, e, callee, i) != {}
  {
    hide WellFormed, Eligible, WritebackId, WritebackFlows, WritesBack;
    var ys := Effects(p, callee.effects);
    WritebacksExact(p, e, ys, flows, i);
    forall y: Effect
      ensures WritesBack(p, e, y, i) <==> Eligible(p, e, y) && i == WritebackId(p, e, y)
    {
      WritesBackIff(p, e, y, i);
    }
    if k :| 0 <= k < |ys| && Eligible(p, e, ys[k]) && i == WritebackId(p, e, ys[k]) {
      assert ys[k] in ys;
      var y :| y in callee.effects && callee.effects[y] == ys[k];
      assert y in Writers(p, e, callee, i);
    }
    if y :| y in Writers(p, e, callee, i) {
      assert callee.effects[y] in ys;
      var k :| 0 <= k < |ys| && ys[k] == callee.effects[y];
    }
  }

  lemma OriginsExact(p: Program, e: Edge, callee: Facts, flows: FlowMap, i: FlowId)
    requires WellFormed(p)
    ensures var key := ResultKey(e.caller.id, e.site.id);
            var after := if key in p.results then ReturnFlows(e, p.results[key], Origins(p, callee.origins), flows) else flows;
            i in after <==> i in flows || Returners(p, e, callee, i) != {}
  {
    hide WellFormed, ReturnId, ReturnFlows, HandsBack;
    var key, zs := ResultKey(e.caller.id, e.site.id), Origins(p, callee.origins);
    forall z: Origin
      ensures HandsBack(p, e, z, i) <==> key in p.results && i == ReturnId(e, p.results[key], z)
    {
      HandsBackIff(p, e, z, i);
    }
    if key in p.results {
      var r := p.results[key];
      ReturnsExact(e, r, zs, flows, i);
      if k :| 0 <= k < |zs| && i == ReturnId(e, r, zs[k]) {
        assert zs[k] in zs;
        var z :| z in callee.origins && callee.origins[z] == zs[k];
        assert z in Returners(p, e, callee, i);
      }
      if z :| z in Returners(p, e, callee, i) {
        assert callee.origins[z] in zs;
        var k :| 0 <= k < |zs| && zs[k] == callee.origins[z];
      }
    }
  }

  lemma {:induction false} SummaryExact(p: Program, edges: seq<Edge>, cur: Current, flows: FlowMap, i: FlowId)
    requires WellFormed(p)
    ensures i in SummaryFlows(p, edges, cur, flows)
            <==> i in flows || exists k :: 0 <= k < |edges| && Recorded(p, edges[k], FactsOf(cur, edges[k].callee.id), i)
  {
    hide WellFormed, Recorded, EdgeFlows, FactsOf;
    if edges != [] {
      var n := |edges| - 1;
      SummaryExact(p, edges[..n], cur, flows, i);
      EdgeExact(p, edges[n], FactsOf(cur, edges[n].callee.id), SummaryFlows(p, edges[..n], cur, flows), i);
      assert forall k :: 0 <= k < n ==> edges[..n][k] == edges[k];
    }
  }

  // A flow of one of the first n members of a component, in a given state.
  ghost predicate MemberFlow(p: Program, component: seq<nat>, n: nat, cur: Current, i: FlowId)
    requires Members(p, component) && n <= |component|
  {
    exists m, e :: 0 <= m < n && e in CallEdges(p, p.summaries[component[m]]) && Recorded(p, e, FactsOf(cur, e.callee.id), i)
  }

  lemma {:induction false} MembersExact(p: Program, component: seq<nat>, n: nat, cur: Current, flows: FlowMap, i: FlowId)
    requires WellFormed(p) && Members(p, component) && n <= |component|
    ensures i in MemberFlows(p, component, n, cur, flows) <==> i in flows || MemberFlow(p, component, n, cur, i)
  {
    hide WellFormed, Recorded, SummaryFlows, FactsOf, CallEdges;
    if n > 0 {
      MembersExact(p, component, n - 1, cur, flows, i);
      var edges := CallEdges(p, p.summaries[component[n - 1]]);
      SummaryExact(p, edges, cur, MemberFlows(p, component, n - 1, cur, flows), i);
      if k :| 0 <= k < |edges| && Recorded(p, edges[k], FactsOf(cur, edges[k].callee.id), i) {
        assert edges[k] in edges;
      }
    }
  }

  // A flow that the final facts justify, for a summary of the first k components.
  ghost predicate FinalFlow(p: Program, limits: Limits, components: seq<seq<nat>>, k: nat, i: FlowId)
    requires Solvable(p, limits, components) && k <= |components|
  {
    exists s, e :: Tarjan.Emitted(components[..k], s) && s in p.summaries && e in CallEdges(p, p.summaries[s])
                   && Recorded(p, e, FactsOf(Final(p, limits, components), e.callee.id), i)
  }

  lemma CalleeFactsFinal(p: Program, limits: Limits, components: seq<seq<nat>>, k: nat, s: nat, e: Edge)
    requires Solvable(p, limits, components) && k < |components| && s in components[k] && s in p.summaries
    requires e in CallEdges(p, p.summaries[s])
    ensures FactsOf(RunTo(p, limits, components, k + 1).cur, e.callee.id) == FactsOf(Final(p, limits, components), e.callee.id)
  {
    hide WellFormed, CallEdges, Ordered, AllMembers, FactsOf, RunTo, Final, Tarjan.Emitted;
    CalleeEarlier(p, components, k, s, e);
    var j := EmittedAt(components, k + 1, e.callee.id);
    FactsAreFinal(p, limits, components, j, k + 1, e.callee.id);
  }

  lemma ComponentFlowsFinal(p: Program, limits: Limits, components: seq<seq<nat>>, k: nat, i: FlowId)
    requires Solvable(p, limits, components) && k < |components| && Members(p, components[k])
    ensures MemberFlow(p, components[k], |components[k]|, RunTo(p, limits, components, k + 1).cur, i)
            <==> exists s, e :: s in components[k] && s in p.summaries && e in CallEdges(p, p.summaries[s])
                                && Recorded(p, e, FactsOf(Final(p, limits, components), e.callee.id), i)
  {
    hide WellFormed, CallEdges, Ordered, FactsOf, Recorded, RunTo;
    var component, cur := components[k], RunTo(p, limits, components, k + 1).cur;
    forall s, e | s in component && s in p.summaries && e in CallEdges(p, p.summaries[s])
      ensures FactsOf(cur, e.callee.id) == FactsOf(Final(p, limits, components), e.callee.id)
    {
      CalleeFactsFinal(p, limits, components, k, s, e);
    }
    if m, e :| 0 <= m < |component| && e in CallEdges(p, p.summaries[component[m]]) && Recorded(p, e, FactsOf(cur, e.callee.id), i) {
      assert component[m] in component;
    }
    if s, e :| s in component && s in p.summaries && e in CallEdges(p, p.summaries[s])
               && Recorded(p, e, FactsOf(Final(p, limits, components), e.callee.id), i) {
      var m :| 0 <= m < |component| && component[m] == s;
      assert e in CallEdges(p, p.summaries[component[m]]);
    }
  }

  lemma {:induction false} FlowsToExact(p: Program, limits: Limits, components: seq<seq<nat>>, k: nat, i: FlowId)
    requires Solvable(p, limits, components) && k <= |components|
    ensures i in FlowsTo(p, limits, components, k) <==> FinalFlow(p, limits, components, k, i)
  {
    hide WellFormed, CallEdges, Ordered, FactsOf, Recorded, RunTo, MemberFlow, MemberFlows, Final;
    if k > 0 {
      FlowsToExact(p, limits, components, k - 1, i);
      assert Members(p, components[k - 1]);
      MembersExact(p, components[k - 1], |components[k - 1]|, RunTo(p, limits, components, k).cur,
                   FlowsTo(p, limits, components, k - 1), i);
      ComponentFlowsFinal(p, limits, components, k - 1, i);
      assert components[..k] == components[..k - 1] + [components[k - 1]];
      forall s
        ensures Tarjan.Emitted(components[..k], s) <==> Tarjan.Emitted(components[..k - 1], s) || s in components[k - 1]
      {
        Tarjan.EmittedSnoc(components[..k - 1], components[k - 1], s);
      }
    }
  }

  // The recorded flows are exactly those that some call edge of some summary gives rise to
  // under the final facts of its callee.
  lemma FlowsExact(p: Program, limits: Limits, components: seq<seq<nat>>, i: FlowId)
    requires Solvable(p, limits, components)
    ensures i in FlowsTo(p, limits, components, |components|)
            <==> exists s, e :: s in p.summaries && IsEdge(p, p.summaries[s], e)
                                && Recorded(p, e, FactsOf(Final(p, limits, components), e.callee.id), i)
  {
    hide WellFormed, CallEdges, IsEdge, FactsOf, Recorded, RunTo, FlowsTo, Final, Ordered, AllMembers;
    forall c, e
      ensures e in CallEdges(p, c) <==> IsEdge(p, c, e)
    {
      EdgesAreEdges(p, c, e);
    }
    FlowsToExact(p, limits, components, |components|, i);
    OrderedMembers(p, components);
    assert components[..|components|] == components;
  }
}
