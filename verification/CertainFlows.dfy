// When a published flow is certain. Several edges and several facts of one callee can give rise to
// the same flow; the last of them decides.
module CertainFlows {
  import opened Graphs
  import opened Options
  import opened Summaries
  import opened Transfer
  import opened TransferMeaning
  import opened LastWriter
  import opened Solver
  import opened SolverTheorems
  import opened Flows
  import opened SolverRun
  import opened Published
  import opened OrderFree
  import Tarjan

  predicate CertainIn(flows: FlowMap, i: FlowId) {
    i in flows && flows[i].Certain?
  }

  // A target that is certain and has a single body.
  ghost predicate CertainEdge(e: Edge) {
    e.target.certainty.Certain? && !e.ambiguous
  }

  ghost predicate BoundCompletely(p: Program, e: Edge, i: FlowId) {
    i.index.Some? && ArgumentOf(p, e, i.index.value).Some? && ArgumentOf(p, e, i.index.value).value.complete
  }

  // What edge e says about a flow that it records: of an argument, that the binding is complete; of
  // a write-back, that the binding is complete and the last effect to write there is certain; of a
  // result, that the last origin to name that storage is certain. In each case the target must be
  // certain and have a single body.
  ghost predicate SurelyRecorded(p: Program, e: Edge, callee: Facts, i: FlowId) {
    && CertainEdge(e)
    && match i.kind
       case ArgumentToParameter => BoundCompletely(p, e, i)
       case Writeback =>
         BoundCompletely(p, e, i)
         && exists y :: Greatest(p, Writers(p, e, callee, i), y) && callee.effects[y].certainty.Certain?
       case ReturnToCaller =>
         exists z :: Greatest(p, Returners(p, e, callee, i), z) && callee.origins[z].certainty.Certain?
  }

  // Arguments ---------------------------------------------------------------------------------

  lemma {:induction false} ArgumentsValue(p: Program, e: Edge, n: nat, flows: FlowMap, i: FlowId)
    requires n <= |e.callee.parameters|
    ensures var after := ArgumentFlows(p, e, n, flows);
            if Passes(p, e, i) && i.index.value < n then CertainIn(after, i) <==> CertainEdge(e) && BoundCompletely(p, e, i)
            else CertainIn(after, i) <==> CertainIn(flows, i)
  {
    if n > 0 {
      ArgumentsValue(p, e, n - 1, flows, i);
      hide ArgumentFlows;
      ArgumentStep(p, e, n - 1, ArgumentFlows(p, e, n - 1, flows), i);
      ArgumentsUnfold(p, e, n, flows);
    }
  }

  lemma ArgumentsUnfold(p: Program, e: Edge, n: nat, flows: FlowMap)
    requires 0 < n <= |e.callee.parameters|
    ensures ArgumentFlows(p, e, n, flows) == OneArgument(p, e, n - 1, ArgumentFlows(p, e, n - 1, flows))
  {
  }

  function OneArgument(p: Program, e: Edge, n: nat, before: FlowMap): FlowMap
    requires n < |e.callee.parameters|
  {
    if KeyOf(e, n) !in p.bindings then before
    else
      var b := p.bindings[KeyOf(e, n)];
      before[FlowOf(ArgumentToParameter, e, Some(n), b.location, Some(e.callee.parameters[n]), None)
             := EdgeCertainty(e, if b.complete then Certain else Possible)]
  }

  lemma ArgumentStep(p: Program, e: Edge, n: nat, before: FlowMap, i: FlowId)
    requires n < |e.callee.parameters|
    ensures var after := OneArgument(p, e, n, before);
            if Passes(p, e, i) && i.index.value == n then CertainIn(after, i) <==> CertainEdge(e) && BoundCompletely(p, e, i)
            else CertainIn(after, i) <==> CertainIn(before, i)
  {
    assert ArgumentOf(p, e, n).Some? <==> KeyOf(e, n) in p.bindings;
  }

  // Write-backs -------------------------------------------------------------------------------

  lemma WritebackStep(p: Program, e: Edge, y: Effect, i: FlowId)
    requires WritesBack(p, e, y, i)
    ensures Eligible(p, e, y) && WritebackId(p, e, y) == i
    ensures WritebackCertainty(p, e, y).Certain? <==> CertainEdge(e) && BoundCompletely(p, e, i) && y.certainty.Certain?
  {
    WritesBackIff(p, e, y, i);
  }

  lemma {:induction false} WritebacksValue(p: Program, e: Edge, ys: seq<Effect>, flows: FlowMap, i: FlowId, k: nat)
    requires k < |ys| && WritesBack(p, e, ys[k], i) && forall n :: k < n < |ys| ==> !WritesBack(p, e, ys[n], i)
    ensures CertainIn(WritebackFlows(p, e, ys, flows), i)
            <==> CertainEdge(e) && BoundCompletely(p, e, i) && ys[k].certainty.Certain?
  {
    hide Eligible, WritebackId, WritebackCertainty, WritesBack, CertainEdge, BoundCompletely;
    var n := |ys| - 1;
    if k < n {
      WritesBackIff(p, e, ys[n], i);
      WritebacksValue(p, e, ys[..n], flows, i, k);
    } else {
      WritebackStep(p, e, ys[n], i);
    }
  }

  lemma {:induction false} WritebacksNone(p: Program, e: Edge, ys: seq<Effect>, flows: FlowMap, i: FlowId)
    requires forall n :: 0 <= n < |ys| ==> !WritesBack(p, e, ys[n], i)
    ensures CertainIn(WritebackFlows(p, e, ys, flows), i) <==> CertainIn(flows, i)
  {
    hide Eligible, WritebackId, WritebackCertainty, WritesBack;
    if ys != [] {
      WritesBackIff(p, e, ys[|ys| - 1], i);
      WritebacksNone(p, e, ys[..|ys| - 1], flows, i);
    }
  }

  lemma EffectsValue(p: Program, e: Edge, callee: Facts, flows: FlowMap, i: FlowId)
    requires WellFormed(p)
    ensures var due := Writers(p, e, callee, i); var after := WritebackFlows(p, e, Effects(p, callee.effects), flows);
            if due == {} then CertainIn(after, i) <==> CertainIn(flows, i)
            else CertainIn(after, i) <==>
                   CertainEdge(e) && BoundCompletely(p, e, i)
                   && exists y :: Greatest(p, due, y) && callee.effects[y].certainty.Certain?
  {
    hide WellFormed, WritesBack, WritebackFlows, Effects, CertainEdge, BoundCompletely, CertainIn;
    var due, ys := Writers(p, e, callee, i), Effects(p, callee.effects);
    if due == {} {
      forall n | 0 <= n < |ys|
        ensures !WritesBack(p, e, ys[n], i)
      {
        assert ys[n] in ys;
        var y :| y in callee.effects && callee.effects[y] == ys[n];
        assert y !in due;
      }
      WritebacksNone(p, e, ys, flows, i);
    } else {
      var j := GreatestExists(p, due);
      OnlyGreatest(p, due, j);
      var k := EffectAt(p, callee.effects, j);
      forall n | k < n < |ys|
        ensures !WritesBack(p, e, ys[n], i)
      {
        assert exists l :: l in callee.effects && p.rank(j) < p.rank(l) && ys[n] == callee.effects[l];
        var l :| l in callee.effects && p.rank(j) < p.rank(l) && ys[n] == callee.effects[l];
        assert l !in due;
      }
      WritebacksValue(p, e, ys, flows, i, k);
    }
  }

  lemma OnlyGreatest(p: Program, due: set<FactId>, j: FactId)
    requires WellFormed(p) && Greatest(p, due, j)
    ensures forall k :: Greatest(p, due, k) <==> k == j
  {
    forall k | Greatest(p, due, k)
      ensures k == j
    {
      GreatestUnique(p, due, j, k);
    }
  }

  // Results -----------------------------------------------------------------------------------

  lemma {:induction false} ReturnsValue(p: Program, e: Edge, r: ResultBinding, zs: seq<Origin>, flows: FlowMap, i: FlowId, k: nat)
    requires ResultKey(e.caller.id, e.site.id) in p.results && p.results[ResultKey(e.caller.id, e.site.id)] == r
    requires k < |zs| && HandsBack(p, e, zs[k], i) && forall n :: k < n < |zs| ==> !HandsBack(p, e, zs[n], i)
    ensures CertainIn(ReturnFlows(e, r, zs, flows), i) <==> CertainEdge(e) && zs[k].certainty.Certain?
  {
    hide ReturnId, HandsBack;
    var n := |zs| - 1;
    HandsBackIff(p, e, zs[n], i);
    if k < n {
      hide CertainEdge;
      ReturnsValue(p, e, r, zs[..n], flows, i, k);
    }
  }

  lemma {:induction false} ReturnsNone(p: Program, e: Edge, r: ResultBinding, zs: seq<Origin>, flows: FlowMap, i: FlowId)
    requires ResultKey(e.caller.id, e.site.id) in p.results && p.results[ResultKey(e.caller.id, e.site.id)] == r
    requires forall n :: 0 <= n < |zs| ==> !HandsBack(p, e, zs[n], i)
    ensures CertainIn(ReturnFlows(e, r, zs, flows), i) <==> CertainIn(flows, i)
  {
    hide ReturnId, HandsBack;
    if zs != [] {
      HandsBackIff(p, e, zs[|zs| - 1], i);
      ReturnsNone(p, e, r, zs[..|zs| - 1], flows, i);
    }
  }

  // The flows after the callee's origins are recorded, if the call has a result binding.
  function ResultFlows(p: Program, e: Edge, callee: Facts, flows: FlowMap): FlowMap
    requires WellFormed(p)
  {
    var key := ResultKey(e.caller.id, e.site.id);
    if key in p.results then ReturnFlows(e, p.results[key], Origins(p, callee.origins), flows) else flows
  }

  lemma OriginsValue(p: Program, e: Edge, callee: Facts, flows: FlowMap, i: FlowId)
    requires WellFormed(p)
    ensures var due := Returners(p, e, callee, i); var after := ResultFlows(p, e, callee, flows);
            if due == {} then CertainIn(after, i) <==> CertainIn(flows, i)
            else CertainIn(after, i) <==> CertainEdge(e) && exists z :: Greatest(p, due, z) && callee.origins[z].certainty.Certain?
  {
    hide WellFormed, HandsBack, ReturnFlows, Origins, CertainEdge, CertainIn;
    var key, due, zs := ResultKey(e.caller.id, e.site.id), Returners(p, e, callee, i), Origins(p, callee.origins);
    if due == {} {
      forall n | 0 <= n < |zs|
        ensures !HandsBack(p, e, zs[n], i)
      {
        assert zs[n] in zs;
        var z :| z in callee.origins && callee.origins[z] == zs[n];
        assert z !in due;
      }
      if key in p.results {
        ReturnsNone(p, e, p.results[key], zs, flows, i);
      }
    } else {
      var j := GreatestExists(p, due);
      OnlyGreatest(p, due, j);
      HandsBackIff(p, e, callee.origins[j], i);
      var k := OriginAt(p, callee.origins, j);
      forall n | k < n < |zs|
        ensures !HandsBack(p, e, zs[n], i)
      {
        assert exists l :: l in callee.origins && p.rank(j) < p.rank(l) && zs[n] == callee.origins[l];
        var l :| l in callee.origins && p.rank(j) < p.rank(l) && zs[n] == callee.origins[l];
        assert l !in due;
      }
      ReturnsValue(p, e, p.results[key], zs, flows, i, k);
    }
  }

  // Edges -------------------------------------------------------------------------------------

  lemma KindsApart(p: Program, e: Edge, callee: Facts, i: FlowId)
    ensures Passes(p, e, i) ==> i.kind.ArgumentToParameter? && i.index.Some? && i.index.value < |e.callee.parameters|
    ensures Writers(p, e, callee, i) != {} ==> i.kind.Writeback?
    ensures Returners(p, e, callee, i) != {} ==> i.kind.ReturnToCaller?
  {
    if y :| y in Writers(p, e, callee, i) {
      assert WritesBack(p, e, callee.effects[y], i);
    }
    if z :| z in Returners(p, e, callee, i) {
      assert HandsBack(p, e, callee.origins[z], i);
    }
  }

  lemma EdgeValue(p: Program, e: Edge, callee: Facts, flows: FlowMap, i: FlowId)
    requires WellFormed(p)
    ensures CertainIn(EdgeFlows(p, e, callee, flows), i)
            <==> if Recorded(p, e, callee, i) then SurelyRecorded(p, e, callee, i) else CertainIn(flows, i)
  {
    hide WellFormed, Passes, Writers, Returners, ArgumentFlows, WritebackFlows, ReturnFlows, Effects, Origins, CertainIn, CertainEdge,
         BoundCompletely, Greatest;
    var bound := ArgumentFlows(p, e, |e.callee.parameters|, flows);
    var written := WritebackFlows(p, e, Effects(p, callee.effects), bound);
    KindsApart(p, e, callee, i);
    ArgumentsValue(p, e, |e.callee.parameters|, flows, i);
    EffectsValue(p, e, callee, bound, i);
    OriginsValue(p, e, callee, written, i);
  }

  // Edge k is the last of a summary's edges to record flow i.
  ghost predicate LastRecords(p: Program, edges: seq<Edge>, cur: Current, i: FlowId, k: nat) {
    && k < |edges| && Recorded(p, edges[k], FactsOf(cur, edges[k].callee.id), i)
    && forall n :: k < n < |edges| ==> !Recorded(p, edges[n], FactsOf(cur, edges[n].callee.id), i)
  }

  lemma {:induction false} SummaryValue(p: Program, edges: seq<Edge>, cur: Current, i: FlowId)
    requires WellFormed(p)
    ensures CertainIn(SummaryFlows(p, edges, cur, map[]), i)
            <==> exists k: nat :: LastRecords(p, edges, cur, i, k) && SurelyRecorded(p, edges[k], FactsOf(cur, edges[k].callee.id), i)
  {
    hide WellFormed, Recorded, SurelyRecorded, EdgeFlows, FactsOf;
    if edges != [] {
      var n := |edges| - 1;
      var e := edges[n];
      var before := edges[..n];
      assert forall k :: 0 <= k < n ==> before[k] == edges[k];
      SummaryValue(p, before, cur, i);
      EdgeValue(p, e, FactsOf(cur, e.callee.id), SummaryFlows(p, before, cur, map[]), i);
      hide CertainIn, SummaryFlows;
      if Recorded(p, e, FactsOf(cur, e.callee.id), i) {
        assert LastRecords(p, edges, cur, i, n);
      } else {
        forall k: nat
          ensures LastRecords(p, edges, cur, i, k) <==> LastRecords(p, before, cur, i, k)
        {
        }
      }
    }
  }

  // A flow is published as certain exactly when the last call edge of its caller to record it says
  // so under the final facts of that edge's callee.
  lemma CertainFlowIff(p: Program, limits: Limits, components: seq<seq<nat>>, i: FlowId)
    requires Solvable(p, limits, components)
    ensures CertainIn(FlowsTo(p, limits, components, |components|), i)
            <==> && i.caller in p.summaries
                 && var edges := CallEdges(p, p.summaries[i.caller]); var final := Final(p, limits, components);
                    exists k: nat :: LastRecords(p, edges, final, i, k)
                                     && SurelyRecorded(p, edges[k], FactsOf(final, edges[k].callee.id), i)
  {
    hide WellFormed, CallEdges, Ordered, FactsOf, LastRecords, SurelyRecorded, RunTo, FlowsTo, Final, SummaryFlows;
    FlowsMeaning(p, limits, components, i);
    if i.caller in p.summaries {
      SummaryValue(p, CallEdges(p, p.summaries[i.caller]), Final(p, limits, components), i);
    }
  }

  // A flow published as certain has a call edge with a certain target and a single body, a
  // complete binding where there is one, and a certain fact of the callee behind it.
  lemma CertainFlowJustified(p: Program, limits: Limits, components: seq<seq<nat>>, i: FlowId)
    requires Solvable(p, limits, components) && CertainIn(FlowsTo(p, limits, components, |components|), i)
    ensures exists e :: && i.caller in p.summaries && IsEdge(p, p.summaries[i.caller], e) && CertainEdge(e)
                        && (i.index.Some? ==> BoundCompletely(p, e, i))
                        && var facts := FactsOf(Final(p, limits, components), e.callee.id);
                           match i.kind
                           case ArgumentToParameter => Passes(p, e, i)
                           case Writeback =>
                             exists y :: y in facts.effects && WritesBack(p, e, facts.effects[y], i) && facts.effects[y].certainty.Certain?
                           case ReturnToCaller =>
                             exists z :: z in facts.origins && HandsBack(p, e, facts.origins[z], i) && facts.origins[z].certainty.Certain?
  {
    hide WellFormed, CallEdges, Ordered, FactsOf, RunTo, FlowsTo, Final, IsEdge, CertainIn, CertainEdge, BoundCompletely, Passes,
         WritesBack, HandsBack, Recorded;
    CertainFlowIff(p, limits, components, i);
    var edges, final := CallEdges(p, p.summaries[i.caller]), Final(p, limits, components);
    var k: nat :| LastRecords(p, edges, final, i, k) && SurelyRecorded(p, edges[k], FactsOf(final, edges[k].callee.id), i);
    var e := edges[k];
    assert e in edges;
    EdgesAreEdges(p, p.summaries[i.caller], e);
    SurelyMeans(p, e, FactsOf(final, e.callee.id), i);
  }

  lemma SurelyMeans(p: Program, e: Edge, facts: Facts, i: FlowId)
    requires Recorded(p, e, facts, i) && SurelyRecorded(p, e, facts, i)
    ensures CertainEdge(e) && (i.index.Some? ==> BoundCompletely(p, e, i))
    ensures match i.kind
            case ArgumentToParameter => Passes(p, e, i)
            case Writeback =>
              exists y :: y in facts.effects && WritesBack(p, e, facts.effects[y], i) && facts.effects[y].certainty.Certain?
            case ReturnToCaller =>
              exists z :: z in facts.origins && HandsBack(p, e, facts.origins[z], i) && facts.origins[z].certainty.Certain?
  {
    KindsApart(p, e, facts, i);
    hide Passes, WritesBack, BoundCompletely, CertainEdge, ArgumentOf;
    if i.kind.ReturnToCaller? {
      var z :| z in Returners(p, e, facts, i) && facts.origins[z].certainty.Certain?;
    }
  }
}
