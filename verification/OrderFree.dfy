// The result of a solved variant does not depend on the order in which the component search
// happens to emit components: facts, emitted summaries and flows, certainties included, are
// functions of the program and the limits alone.
module OrderFree {
  import opened Graphs
  import opened Options
  import opened Summaries
  import opened Transfer
  import opened TransferMeaning
  import opened Chains
  import opened Solver
  import opened SolverTheorems
  import opened Fixpoint
  import opened Flows
  import opened SolverRun
  import opened Published
  import Tarjan

  // Two orders have the same components --------------------------------------------------

  lemma {:induction false} AscendingUnique(s: seq<nat>, t: seq<nat>)
    requires StrictlyAscending(s) && StrictlyAscending(t) && forall x :: x in s <==> x in t
    ensures s == t
  {
    assert t != [] ==> t[0] in t;
    if s != [] {
      assert s[0] in t && t[0] in s;
      assert s[0] == t[0];
      forall x
        ensures x in s[1..] <==> x in t[1..]
      {
        HeadOnce(s, x);
        HeadOnce(t, x);
      }
      AscendingUnique(s[1..], t[1..]);
      assert s == [s[0]] + s[1..] && t == [t[0]] + t[1..];
    }
  }

  lemma HeadOnce(s: seq<nat>, x: nat)
    requires StrictlyAscending(s) && s != []
    ensures StrictlyAscending(s[1..]) && (x in s[1..] <==> x in s && x != s[0])
  {
    assert s == [s[0]] + s[1..];
    assert s[0] !in s[1..];
  }

  lemma SameComponent(p: Program, a: seq<seq<nat>>, b: seq<seq<nat>>, k: nat, j: nat, s: nat)
    requires Ordered(p, a) && Ordered(p, b) && k < |a| && j < |b| && s in a[k] && s in b[j]
    ensures a[k] == b[j]
  {
    hide CallGraph, Tarjan.Emitted, Reach;
    var g := CallGraph(p);
    assert IsScc(g, a[k]) && IsScc(g, b[j]);
    forall x
      ensures x in a[k] <==> x in b[j]
    {
      assert x in a[k] <==> Reach(g, s, x) && Reach(g, x, s);
      assert x in b[j] <==> Reach(g, s, x) && Reach(g, x, s);
    }
    ComponentShapes(p, a);
    ComponentShapes(p, b);
    AscendingUnique(a[k], b[j]);
  }

  lemma PlaceOf(p: Program, components: seq<seq<nat>>, s: nat) returns (j: nat)
    requires WellFormed(p) && Ordered(p, components) && s in p.summaries
    ensures j < |components| && s in components[j]
  {
    hide WellFormed, CallGraph, Ordered;
    OrderedMembers(p, components);
    assert Tarjan.Emitted(components, s);
    j :| 0 <= j < |components| && s in components[j];
  }

  // The same facts ------------------------------------------------------------------------

  // What a component starts from: its members' own facts.
  lemma MembersStart(p: Program, limits: Limits, components: seq<seq<nat>>, k: nat, s: nat)
    requires Solvable(p, limits, components) && k < |components| && s in components[k]
    ensures s in RunTo(p, limits, components, k).cur
    ensures FactsOf(RunTo(p, limits, components, k).cur, s) == FactsOf(Initial(p), s)
  {
    hide WellFormed, RunTo, FactsOf, Initial, Tarjan.Emitted;
    OrderedMembers(p, components);
    assert Members(p, components[k]);
    ComponentShapes(p, components);
    hide Ordered, AllMembers;
    if Tarjan.Emitted(components[..k], s) {
      LaterIsNot(components, k, s);
    }
    UnsolvedIsInitial(p, limits, components, k, s);
  }

  // A callee outside the component has its final facts by then.
  lemma CalleeDone(p: Program, limits: Limits, components: seq<seq<nat>>, k: nat, s: nat, e: Edge) returns (i: nat)
    requires Solvable(p, limits, components) && k < |components| && s in components[k] && s in p.summaries
    requires e in CallEdges(p, p.summaries[s]) && e.callee.id !in components[k]
    ensures i < k && e.callee.id in components[i]
    ensures FactsOf(RunTo(p, limits, components, k).cur, e.callee.id) == FactsOf(Final(p, limits, components), e.callee.id)
  {
    hide WellFormed, RunTo, FactsOf, CallEdges, Ordered, AllMembers, Final;
    CalleeEarlier(p, components, k, s, e);
    i := EmittedAt(components, k + 1, e.callee.id);
    FactsAreFinal(p, limits, components, i, k, e.callee.id);
  }

  ghost predicate BothSolvable(p: Program, limits: Limits, a: seq<seq<nat>>, b: seq<seq<nat>>) {
    Solvable(p, limits, a) && Solvable(p, limits, b)
  }

  // When component k of one order and j of the other are the same, they start alike.
  lemma {:induction false} StartAlike(p: Program, limits: Limits, a: seq<seq<nat>>, b: seq<seq<nat>>, k: nat, j: nat)
    requires BothSolvable(p, limits, a, b) && k < |a| && j < |b| && a[k] == b[j] && Members(p, a[k])
    ensures SameNear(p, a[k], RunTo(p, limits, a, k).cur, RunTo(p, limits, b, j).cur)
    ensures forall s :: s in a[k] ==> s in RunTo(p, limits, a, k).cur && s in RunTo(p, limits, b, j).cur
    decreases k, 1
  {
    hide WellFormed, RunTo, FactsOf, CallEdges, Ordered, AllMembers, Initial, Final, AgreeOn;
    forall s | s in a[k]
      ensures s in RunTo(p, limits, a, k).cur && s in RunTo(p, limits, b, j).cur
      ensures FactsOf(RunTo(p, limits, a, k).cur, s) == FactsOf(RunTo(p, limits, b, j).cur, s)
      ensures AgreeOn(RunTo(p, limits, a, k).cur, RunTo(p, limits, b, j).cur, CallEdges(p, p.summaries[s]))
    {
      MembersStart(p, limits, a, k, s);
      MembersStart(p, limits, b, j, s);
      CalleesAlike(p, limits, a, b, k, j, s);
    }
  }

  lemma {:induction false} CalleesAlike(p: Program, limits: Limits, a: seq<seq<nat>>, b: seq<seq<nat>>, k: nat, j: nat, s: nat)
    requires BothSolvable(p, limits, a, b) && k < |a| && j < |b| && a[k] == b[j] && s in a[k] && s in p.summaries
    ensures AgreeOn(RunTo(p, limits, a, k).cur, RunTo(p, limits, b, j).cur, CallEdges(p, p.summaries[s]))
    decreases k, 0
  {
    hide WellFormed, RunTo, FactsOf, CallEdges, Ordered, AllMembers, Initial, Final;
    forall e | e in CallEdges(p, p.summaries[s])
      ensures FactsOf(RunTo(p, limits, a, k).cur, e.callee.id) == FactsOf(RunTo(p, limits, b, j).cur, e.callee.id)
    {
      if e.callee.id in a[k] {
        MembersStart(p, limits, a, k, e.callee.id);
        MembersStart(p, limits, b, j, e.callee.id);
      } else {
        var i := CalleeDone(p, limits, a, k, s, e);
        var i' := CalleeDone(p, limits, b, j, s, e);
        SolvedAlike(p, limits, a, b, i, i', e.callee.id);
      }
    }
  }

  // Either order gives each summary the same facts after the same number of iterations.
  lemma {:induction false} SolvedAlike(p: Program, limits: Limits, a: seq<seq<nat>>, b: seq<seq<nat>>, k: nat, j: nat, s: nat)
    requires BothSolvable(p, limits, a, b) && k < |a| && j < |b| && s in a[k] && s in b[j]
    ensures a[k] == b[j] && Members(p, a[k])
    ensures FactsOf(Final(p, limits, a), s) == FactsOf(Final(p, limits, b), s)
    ensures SolveComponent(p, limits, a[k], RunTo(p, limits, a, k).cur).iterations
            == SolveComponent(p, limits, b[j], RunTo(p, limits, b, j).cur).iterations
    decreases k, 2
  {
    hide WellFormed, FactsOf, CallEdges, Ordered, Initial, SolveComponent, SameNear;
    SameComponent(p, a, b, k, j, s);
    assert Members(p, a[k]);
    StartAlike(p, limits, a, b, k, j);
    SolveLocal(p, limits, a[k], RunTo(p, limits, a, k).cur, RunTo(p, limits, b, j).cur);
    FactsAreFinal(p, limits, a, k, k + 1, s);
    FactsAreFinal(p, limits, b, j, j + 1, s);
  }

  // The facts of a solved variant are independent of the order of its components.
  lemma FinalUnique(p: Program, limits: Limits, a: seq<seq<nat>>, b: seq<seq<nat>>)
    requires BothSolvable(p, limits, a, b)
    ensures Final(p, limits, a) == Final(p, limits, b)
  {
    hide WellFormed, RunTo, Ordered, AllMembers;
    RunKeys(p, limits, a, |a|);
    RunKeys(p, limits, b, |b|);
    forall s | s in p.summaries
      ensures Final(p, limits, a)[s] == Final(p, limits, b)[s]
    {
      var k := PlaceOf(p, a, s);
      var j := PlaceOf(p, b, s);
      SolvedAlike(p, limits, a, b, k, j, s);
    }
  }

  // The same emissions ------------------------------------------------------------------------

  // x is emitted for member n of component j.
  ghost predicate EmissionAt(p: Program, limits: Limits, components: seq<seq<nat>>, k: nat, x: Solved, j: nat, n: nat)
    requires WellFormed(p) && limits.Valid() && AllMembers(p, components) && k <= |components|
  {
    && j < k && n < |components[j]|
    && x == SolvedSummary(p, components[j], components[j][n], SolveComponent(p, limits, components[j], RunTo(p, limits, components, j).cur))
  }

  lemma {:induction false} EmittedSomewhere(p: Program, limits: Limits, components: seq<seq<nat>>, k: nat, x: Solved)
    returns (j: nat, n: nat)
    requires WellFormed(p) && limits.Valid() && AllMembers(p, components) && k <= |components|
    requires x in RunTo(p, limits, components, k).emitted
    ensures EmissionAt(p, limits, components, k, x, j, n)
  {
    hide WellFormed, SolveComponent, SolvedSummary;
    assert Members(p, components[k - 1]);
    if x in RunTo(p, limits, components, k - 1).emitted {
      j, n := EmittedSomewhere(p, limits, components, k - 1, x);
    } else {
      var component := components[k - 1];
      var o := SolveComponent(p, limits, component, RunTo(p, limits, components, k - 1).cur);
      var batch := SolvedMembers(p, component, o, |component|);
      var i :| 0 <= i < |batch| && batch[i] == x;
      j, n := k - 1, i;
    }
  }

  lemma {:induction false} SomewhereEmitted(p: Program, limits: Limits, components: seq<seq<nat>>, k: nat, x: Solved, j: nat, n: nat)
    requires WellFormed(p) && limits.Valid() && AllMembers(p, components) && k <= |components|
    requires EmissionAt(p, limits, components, k, x, j, n)
    ensures x in RunTo(p, limits, components, k).emitted
  {
    hide WellFormed, SolveComponent, SolvedSummary;
    assert Members(p, components[k - 1]);
    if j < k - 1 {
      SomewhereEmitted(p, limits, components, k - 1, x, j, n);
    } else {
      var component := components[k - 1];
      var o := SolveComponent(p, limits, component, RunTo(p, limits, components, k - 1).cur);
      assert SolvedMembers(p, component, o, |component|)[n] == x;
    }
  }

  // Both orders emit the same summaries, with the same flags and iteration counts.
  lemma EmissionsUnique(p: Program, limits: Limits, a: seq<seq<nat>>, b: seq<seq<nat>>, x: Solved)
    requires BothSolvable(p, limits, a, b) && x in RunTo(p, limits, a, |a|).emitted
    ensures x in RunTo(p, limits, b, |b|).emitted
  {
    hide WellFormed, RunTo, Ordered, SolveComponent, SolvedSummary, Final, Tarjan.Emitted;
    var k, n := EmittedSomewhere(p, limits, a, |a|, x);
    var s := a[k][n];
    assert s in a[k];
    assert Members(p, a[k]);
    var j := PlaceOf(p, b, s);
    SolvedAlike(p, limits, a, b, k, j, s);
    SolvedIs(p, limits, a, k, s);
    SolvedIs(p, limits, b, j, s);
    SameSolved(p, a[k], s, SolveComponent(p, limits, a[k], RunTo(p, limits, a, k).cur),
               SolveComponent(p, limits, b[j], RunTo(p, limits, b, j).cur));
    SomewhereEmitted(p, limits, b, |b|, x, j, n);
  }

  lemma SameSolved(p: Program, component: seq<nat>, s: nat, o: Outcome, o': Outcome)
    requires FactsOf(o.cur, s) == FactsOf(o'.cur, s) && o.iterations == o'.iterations
    ensures SolvedSummary(p, component, s, o) == SolvedSummary(p, component, s, o')
  {
    hide FactsOf, Tarjan.FlaggedRecursive, CallGraph;
  }

  lemma SolvedIs(p: Program, limits: Limits, components: seq<seq<nat>>, k: nat, s: nat)
    requires Solvable(p, limits, components) && k < |components| && s in components[k]
    ensures FactsOf(SolveComponent(p, limits, components[k], RunTo(p, limits, components, k).cur).cur, s)
            == FactsOf(Final(p, limits, components), s)
  {
    hide WellFormed, Ordered, SolveComponent, FactsOf, Final;
    FactsAreFinal(p, limits, components, k, k + 1, s);
  }

  // The same flows ------------------------------------------------------------------------------

  // The flows one summary gives rise to under given facts.
  function OwnFlows(p: Program, s: nat, cur: Current): FlowMap
    requires WellFormed(p) && s in p.summaries
  {
    SummaryFlows(p, CallEdges(p, p.summaries[s]), cur, map[])
  }

  // Recording into a map is recording into an empty one and merging.
  lemma {:induction false} ArgumentsMerge(p: Program, e: Edge, n: nat, flows: FlowMap)
    requires n <= |e.callee.parameters|
    ensures ArgumentFlows(p, e, n, flows) == flows + ArgumentFlows(p, e, n, map[])
  {
    hide FlowOf, EdgeCertainty;
    if n > 0 {
      ArgumentsMerge(p, e, n - 1, flows);
    }
  }

  lemma {:induction false} WritebacksMerge(p: Program, e: Edge, ys: seq<Effect>, flows: FlowMap)
    ensures WritebackFlows(p, e, ys, flows) == flows + WritebackFlows(p, e, ys, map[])
  {
    hide WritebackId, WritebackCertainty, Eligible;
    if ys != [] {
      WritebacksMerge(p, e, ys[..|ys| - 1], flows);
    }
  }

  lemma {:induction false} ReturnsMerge(e: Edge, r: ResultBinding, zs: seq<Origin>, flows: FlowMap)
    ensures ReturnFlows(e, r, zs, flows) == flows + ReturnFlows(e, r, zs, map[])
  {
    hide ReturnId, EdgeCertainty;
    if zs != [] {
      ReturnsMerge(e, r, zs[..|zs| - 1], flows);
    }
  }

  lemma MergeTwice(a: FlowMap, b: FlowMap, c: FlowMap)
    ensures a + b + c == a + (b + c)
  {
  }

  lemma EdgeMerge(p: Program, e: Edge, callee: Facts, flows: FlowMap)
    requires WellFormed(p)
    ensures EdgeFlows(p, e, callee, flows) == flows + EdgeFlows(p, e, callee, map[])
  {
    hide WellFormed, ArgumentFlows, WritebackFlows, ReturnFlows, Effects, Origins;
    var n, ys := |e.callee.parameters|, Effects(p, callee.effects);
    var bound, bound0 := ArgumentFlows(p, e, n, flows), ArgumentFlows(p, e, n, map[]);
    ArgumentsMerge(p, e, n, flows);
    WritebacksMerge(p, e, ys, bound);
    WritebacksMerge(p, e, ys, bound0);
    MergeTwice(flows, bound0, WritebackFlows(p, e, ys, map[]));
    var key := ResultKey(e.caller.id, e.site.id);
    if key in p.results {
      var r, zs := p.results[key], Origins(p, callee.origins);
      ReturnsMerge(e, r, zs, WritebackFlows(p, e, ys, bound));
      ReturnsMerge(e, r, zs, WritebackFlows(p, e, ys, bound0));
      MergeTwice(flows, WritebackFlows(p, e, ys, bound0), ReturnFlows(e, r, zs, map[]));
    }
  }

  lemma {:induction false} SummaryMerge(p: Program, edges: seq<Edge>, cur: Current, flows: FlowMap)
    requires WellFormed(p)
    ensures SummaryFlows(p, edges, cur, flows) == flows + SummaryFlows(p, edges, cur, map[])
  {
    hide WellFormed, EdgeFlows, FactsOf;
    if edges != [] {
      var n := |edges| - 1;
      var facts := FactsOf(cur, edges[n].callee.id);
      var before, before0 := SummaryFlows(p, edges[..n], cur, flows), SummaryFlows(p, edges[..n], cur, map[]);
      SummaryMerge(p, edges[..n], cur, flows);
      EdgeMerge(p, edges[n], facts, before);
      EdgeMerge(p, edges[n], facts, before0);
      MergeTwice(flows, before0, EdgeFlows(p, edges[n], facts, map[]));
    }
  }

  lemma RecordedCaller(p: Program, e: Edge, callee: Facts, i: FlowId)
    requires Recorded(p, e, callee, i)
    ensures i.caller == e.caller.id
  {
  }

  // A summary's flows are filed under it as the caller.
  lemma OwnFlowsCaller(p: Program, s: nat, cur: Current, i: FlowId)
    requires WellFormed(p) && s in p.summaries && i in OwnFlows(p, s, cur)
    ensures i.caller == s
  {
    hide WellFormed, CallEdges, SummaryFlows, FactsOf, Recorded;
    var edges := CallEdges(p, p.summaries[s]);
    SummaryExact(p, edges, cur, map[], i);
    var k :| 0 <= k < |edges| && Recorded(p, edges[k], FactsOf(cur, edges[k].callee.id), i);
    RecordedCaller(p, edges[k], FactsOf(cur, edges[k].callee.id), i);
    EdgeCaller(p, p.summaries[s], edges[k]);
    SummaryId(p, s);
  }

  lemma SummaryId(p: Program, s: nat)
    requires WellFormed(p) && s in p.summaries
    ensures p.summaries[s].id == s
  {
  }

  // The flows recorded so far: for every summary done, its own flows under the final facts.
  ghost predicate FlowsOfDone(p: Program, final: Current, flows: FlowMap, done: set<nat>)
    requires WellFormed(p) && done <= p.summaries.Keys
  {
    && (forall i :: i in flows <==> i.caller in done && i in OwnFlows(p, i.caller, final))
    && (forall i :: i in flows ==> i.caller in done && flows[i] == OwnFlows(p, i.caller, final)[i])
  }

  lemma FlowsOfOneMore(p: Program, final: Current, flows: FlowMap, done: set<nat>, s: nat)
    requires WellFormed(p) && done <= p.summaries.Keys && s in p.summaries && s !in done
    requires FlowsOfDone(p, final, flows, done)
    ensures FlowsOfDone(p, final, flows + OwnFlows(p, s, final), done + {s})
  {
    hide WellFormed, OwnFlows;
    forall i | i in OwnFlows(p, s, final)
      ensures i.caller == s
    {
      OwnFlowsCaller(p, s, final, i);
    }
  }

  function Elements(s: seq<nat>): set<nat> {
    set x | x in s
  }

  lemma {:induction false} MembersDone(p: Program, component: seq<nat>, n: nat, cur: Current, final: Current, flows: FlowMap, done: set<nat>)
    requires WellFormed(p) && Members(p, component) && n <= |component| && StrictlyAscending(component)
    requires done <= p.summaries.Keys && forall s :: s in component ==> s !in done
    requires forall s :: s in component ==> AgreeOn(cur, final, CallEdges(p, p.summaries[s]))
    requires FlowsOfDone(p, final, flows, done)
    ensures var done' := done + Elements(component[..n]);
            done' <= p.summaries.Keys && FlowsOfDone(p, final, MemberFlows(p, component, n, cur, flows), done')
  {
    hide WellFormed, CallEdges, AgreeOn, FlowsOfDone, SummaryFlows;
    if n == 0 {
      assert done + Elements(component[..0]) == done;
    } else {
      MembersDone(p, component, n - 1, cur, final, flows, done);
      var s := component[n - 1];
      assert s in component;
      var edges := CallEdges(p, p.summaries[s]);
      var before := MemberFlows(p, component, n - 1, cur, flows);
      var done1 := done + Elements(component[..n - 1]);
      FlowsDependOnCallees(p, edges, cur, final, before);
      SummaryMerge(p, edges, final, before);
      FlowsOfOneMore(p, final, before, done1, s);
      assert component[..n] == component[..n - 1] + [s];
      assert done + Elements(component[..n]) == done1 + {s};
    }
  }

  // Everything emitted by the first k components.
  ghost function DoneBy(p: Program, components: seq<seq<nat>>, k: nat): set<nat>
    requires k <= |components|
  {
    set s | s in p.summaries && Tarjan.Emitted(components[..k], s)
  }

  lemma {:induction false} FlowsDone(p: Program, limits: Limits, components: seq<seq<nat>>, k: nat)
    requires Solvable(p, limits, components) && k <= |components|
    ensures FlowsOfDone(p, Final(p, limits, components), FlowsTo(p, limits, components, k), DoneBy(p, components, k))
  {
    hide WellFormed, CallEdges, AgreeOn, FlowsOfDone, MemberFlows, RunTo, Ordered, DoneBy;
    var final := Final(p, limits, components);
    if k == 0 {
      NoneDone(p, components, final);
    } else {
      FlowsDone(p, limits, components, k - 1);
      var component := components[k - 1];
      assert Members(p, component);
      ComponentShapes(p, components);
      DoneStep(p, components, k - 1);
      var cur := RunTo(p, limits, components, k).cur;
      forall s | s in component
        ensures AgreeOn(cur, final, CallEdges(p, p.summaries[s]))
      {
        CalleesFinal(p, limits, components, k - 1, s);
      }
      MembersDone(p, component, |component|, cur, final, FlowsTo(p, limits, components, k - 1), DoneBy(p, components, k - 1));
      assert component[..|component|] == component;
    }
  }

  lemma NoneDone(p: Program, components: seq<seq<nat>>, final: Current)
    requires WellFormed(p)
    ensures DoneBy(p, components, 0) == {} && FlowsOfDone(p, final, map[], {})
  {
    hide WellFormed;
  }

  lemma DoneStep(p: Program, components: seq<seq<nat>>, k: nat)
    requires k < |components| && Members(p, components[k]) && Tarjan.Disjoint(components)
    ensures DoneBy(p, components, k + 1) == DoneBy(p, components, k) + Elements(components[k])
    ensures DoneBy(p, components, k) <= p.summaries.Keys
    ensures forall s :: s in components[k] ==> s !in DoneBy(p, components, k)
  {
    hide Tarjan.Emitted;
    assert components[..k + 1] == components[..k] + [components[k]];
    forall s
      ensures Tarjan.Emitted(components[..k + 1], s) <==> Tarjan.Emitted(components[..k], s) || s in components[k]
      ensures Tarjan.Emitted(components[..k], s) ==> s !in components[k]
    {
      Tarjan.EmittedSnoc(components[..k], components[k], s);
      if Tarjan.Emitted(components[..k], s) {
        LaterIsNot(components, k, s);
      }
    }
  }

  lemma CalleesFinal(p: Program, limits: Limits, components: seq<seq<nat>>, k: nat, s: nat)
    requires Solvable(p, limits, components) && k < |components| && s in components[k] && s in p.summaries
    ensures AgreeOn(RunTo(p, limits, components, k + 1).cur, Final(p, limits, components), CallEdges(p, p.summaries[s]))
  {
    hide WellFormed, CallEdges, RunTo, Ordered, AllMembers, Final, FactsOf;
    forall e | e in CallEdges(p, p.summaries[s])
      ensures FactsOf(RunTo(p, limits, components, k + 1).cur, e.callee.id) == FactsOf(Final(p, limits, components), e.callee.id)
    {
      CalleeFactsFinal(p, limits, components, k, s, e);
    }
  }

  // The flows of a variant, certainties included: for each summary those of its own call
  // edges, the last one to write a flow winning, under the final facts of its callees.
  lemma FlowsMeaning(p: Program, limits: Limits, components: seq<seq<nat>>, i: FlowId)
    requires Solvable(p, limits, components)
    ensures var flows := FlowsTo(p, limits, components, |components|); var final := Final(p, limits, components);
            && (i in flows <==> i.caller in p.summaries && i in OwnFlows(p, i.caller, final))
            && (i in flows ==> i.caller in p.summaries && flows[i] == OwnFlows(p, i.caller, final)[i])
  {
    hide WellFormed, RunTo, Ordered, AllMembers, FlowsTo, OwnFlows, Final;
    FlowsDone(p, limits, components, |components|);
    OrderedMembers(p, components);
    assert components[..|components|] == components;
  }

  lemma FlowsUnique(p: Program, limits: Limits, a: seq<seq<nat>>, b: seq<seq<nat>>)
    requires BothSolvable(p, limits, a, b)
    ensures FlowsTo(p, limits, a, |a|) == FlowsTo(p, limits, b, |b|)
  {
    hide WellFormed, RunTo, Ordered, AllMembers, FlowsTo, OwnFlows, Final;
    FinalUnique(p, limits, a, b);
    forall i
      ensures i in FlowsTo(p, limits, a, |a|) <==> i in FlowsTo(p, limits, b, |b|)
      ensures i in FlowsTo(p, limits, a, |a|) ==> FlowsTo(p, limits, a, |a|)[i] == FlowsTo(p, limits, b, |b|)[i]
    {
      FlowsMeaning(p, limits, a, i);
      FlowsMeaning(p, limits, b, i);
    }
  }
}
