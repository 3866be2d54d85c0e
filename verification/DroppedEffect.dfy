// A concrete input on which the solver omits a callee effect and still reports the
// caller complete: a read through a pointer that no parameter roots.
module DroppedEffect {
  import opened Graphs
  import opened Options
  import opened Summaries
  import opened Transfer
  import opened TransferMeaning
  import opened Chains
  import opened Solver
  import opened SolverTheorems
  import Tarjan

  const CALLER := Summary(1, 10, 0, 0, [], [], {})
  const CALLEE := Summary(2, 20, 0, 0, [], [], {})
  const CALL := Site(5, 10, 0, 0, true)
  const CALL_TARGET := Target(5, 20, Certain)
  const READ := Effect(LocalFact(0), Read, DereferenceStorage, Certain, None, [], None, Some(7))
  const DEFAULTS := Limits(32, 128, 1024)

  function TwoFunctions(rank: FactId -> nat): Program {
    Program(map[1 := CALLER, 2 := CALLEE], [CALL], [CALL_TARGET], map[], map[],
            map[2 := map[LocalFact(0) := READ]], map[], rank)
  }

  lemma OneElement(s: seq<nat>, x: nat)
    requires StrictlyAscending(s) && forall y :: y in s <==> y == x
    ensures s == [x]
  {
    assert x in s;
    assert s[0] in s && s[|s| - 1] in s;
  }

  lemma OneSite<T(!new)>(x: T, keep: T -> bool)
    ensures Filter([x], keep) == if keep(x) then [x] else []
  {
    assert [x][..0] == [];
  }

  lemma TwoFunctionsSites(rank: FactId -> nat)
    ensures OwnerSites(TwoFunctions(rank), CALLER) == [CALL] && OwnerSites(TwoFunctions(rank), CALLEE) == []
    ensures TargetsOf(TwoFunctions(rank), CALL) == [CALL_TARGET]
  {
    OneSite(CALL, (s: Site) => s.owner == CALLER.symbol && s.unit == CALLER.unit && s.configuration == CALLER.configuration);
    OneSite(CALL, (s: Site) => s.owner == CALLEE.symbol && s.unit == CALLEE.unit && s.configuration == CALLEE.configuration);
    OneSite(CALL_TARGET, (t: Target) => t.site == CALL.id);
  }

  lemma OneCandidate(p: Program)
    requires p.summaries == map[1 := CALLER, 2 := CALLEE]
    ensures Candidates(p, 20) == [2]
  {
    AscendingCandidates(p, 20);
    OneElement(Candidates(p, 20), 2);
  }

  lemma OneBody(p: Program)
    requires p.summaries == map[1 := CALLER, 2 := CALLEE]
    ensures Bodies(p, CALLER, CALL_TARGET) == [2]
  {
    OneCandidate(p);
    AscendingBodies(p, CALLER, CALL_TARGET);
    hide Candidates;
    assert forall s :: s in Bodies(p, CALLER, CALL_TARGET) <==> s == 2;
    hide Bodies;
    OneElement(Bodies(p, CALLER, CALL_TARGET), 2);
  }

  lemma TwoFunctionsWellFormed(rank: FactId -> nat)
    requires Injective(rank)
    ensures WellFormed(TwoFunctions(rank))
  {
    var p := TwoFunctions(rank);
    assert EffectsWell(p, 2, p.localEffects[2]);
  }

  lemma TwoFunctionsEdges(rank: FactId -> nat)
    requires Injective(rank)
    ensures var p := TwoFunctions(rank); var e := Edge(CALLER, CALL, CALL_TARGET, CALLEE, false);
            && OwnerSites(p, CALLER) == [CALL] && OwnerSites(p, CALLEE) == []
            && TargetsOf(p, CALL) == [CALL_TARGET] && Bodies(p, CALLER, CALL_TARGET) == [2]
            && (forall x :: x in CallEdges(p, CALLER) <==> x == e)
            && CallEdges(p, CALLEE) == []
  {
    var p := TwoFunctions(rank);
    var e := Edge(CALLER, CALL, CALL_TARGET, CALLEE, false);
    TwoFunctionsSites(rank);
    OneBody(p);
    forall x
      ensures x in CallEdges(p, CALLER) <==> x == e
    {
      OneEdge(p, x);
    }
  }

  lemma OneEdge(p: Program, x: Edge)
    requires p.summaries == map[1 := CALLER, 2 := CALLEE]
    requires OwnerSites(p, CALLER) == [CALL] && TargetsOf(p, CALL) == [CALL_TARGET] && Bodies(p, CALLER, CALL_TARGET) == [2]
    ensures x in CallEdges(p, CALLER) <==> x == Edge(CALLER, CALL, CALL_TARGET, CALLEE, false)
  {
    hide CallEdges, OwnerSites, TargetsOf, Bodies;
    CallEdgesMembers(p, CALLER, x);
    TargetEdgesMembers(p, CALLER, CALL, CALL_TARGET, x);
    assert 2 in Bodies(p, CALLER, CALL_TARGET);
  }

  lemma TwoFunctionsGraph(rank: FactId -> nat)
    requires Injective(rank)
    ensures CallGraph(TwoFunctions(rank)) == map[1 := {2}, 2 := {}]
  {
    hide CallEdges, OwnerSites, TargetsOf, Bodies, Injective;
    var p := TwoFunctions(rank);
    TwoFunctionsEdges(rank);
    assert Edge(CALLER, CALL, CALL_TARGET, CALLEE, false) in CallEdges(p, CALLER);
    assert CalleeIds(CallEdges(p, CALLER)) == {2};
    assert CalleeIds(CallEdges(p, CALLEE)) == {};
  }

  lemma TwoFunctionsOrdered(rank: FactId -> nat)
    requires Injective(rank)
    ensures WellFormed(TwoFunctions(rank)) && Ordered(TwoFunctions(rank), [[2], [1]])
  {
    hide CallGraph, WellFormed, Tarjan.Correct, Injective;
    TwoFunctionsWellFormed(rank);
    TwoFunctionsGraph(rank);
    TwoNodes(CallGraph(TwoFunctions(rank)));
    assert TwoFunctions(rank).summaries.Keys == {1, 2};
  }

  lemma TwoNodes(g: Graph)
    requires g == map[1 := {2}, 2 := {}]
    ensures Tarjan.Correct(g, {1, 2}, [[2], [1]])
  {
    var result: seq<seq<nat>> := [[2], [1]];
    ReachRefl(g, 1);
    ReachRefl(g, 2);
    forall x, y | Reach(g, x, y)
      ensures x == y || (x == 1 && y == 2)
    {
      if x == 2 {
        ReachStaysClosed(g, {2}, x, y);
      } else if x == 1 {
        ReachStaysClosed(g, {1, 2}, x, y);
      } else {
        ReachStaysClosed(g, {x}, x, y);
      }
    }
    ReachEdge(g, 1, 2);
    assert 2 in result[0] && 1 in result[1];
    assert Tarjan.Emitted(result[..2], 2) by {
      assert result[..2] == result;
    }
    forall x
      ensures Tarjan.Emitted(result, x) <==> Tarjan.Reachable(g, {1, 2}, x)
    {
      assert Tarjan.Emitted(result, x) <==> x == 1 || x == 2;
    }
  }

  lemma TwoFunctionsRun(rank: FactId -> nat)
    requires Injective(rank)
    ensures Solvable(TwoFunctions(rank), DEFAULTS, [[2], [1]])
    ensures var final := Final(TwoFunctions(rank), DEFAULTS, [[2], [1]]);
            && FactsOf(final, 1).reasons == {} && FactsOf(final, 2).reasons == {}
            && LocalFact(0) in FactsOf(final, 2).effects && FactsOf(final, 2).effects[LocalFact(0)] == READ
            && FactsOf(final, 1).effects == map[]
  {
    hide WellFormed, CallEdges, OwnerSites, Ordered, TargetsOf, Bodies, CallGraph, TransferFacts, TwoFunctions, Solitary, Injective;
    var p := TwoFunctions(rank);
    var components: seq<seq<nat>> := [[2], [1]];
    TwoFunctionsOrdered(rank);
    OrderedMembers(p, components);
    SolitarySteps(rank);
    var start := Initial(p);
    var middle := start[2 := TransferFacts(p, DEFAULTS, false, CALLEE, start)];
    CalleeAlone(rank, start);
    CallerAfter(rank, middle);
    TwoBodies(rank);
    LoneStep(p, components, 0, CALLEE);
    LoneStep(p, components, 1, CALLER);
  }

  lemma TwoBodies(rank: FactId -> nat)
    ensures TwoFunctions(rank).summaries == map[1 := CALLER, 2 := CALLEE]
  {
  }

  // A component of one non-recursive function takes one transfer.
  lemma LoneStep(p: Program, components: seq<seq<nat>>, k: nat, c: Summary)
    requires WellFormed(p) && AllMembers(p, components) && k < |components|
    requires components[k] == [c.id] && Solitary(p, [c.id]) && c.id in p.summaries && p.summaries[c.id] == c
    ensures var before := RunTo(p, DEFAULTS, components, k).cur;
            RunTo(p, DEFAULTS, components, k + 1).cur == before[c.id := TransferFacts(p, DEFAULTS, false, c, before)]
  {
    hide WellFormed, TransferFacts, Solitary, AllMembers;
  }

  lemma SolitarySteps(rank: FactId -> nat)
    requires Injective(rank)
    ensures Solitary(TwoFunctions(rank), [2]) && Solitary(TwoFunctions(rank), [1])
  {
    var p := TwoFunctions(rank);
    TwoFunctionsEdges(rank);
    assert 1 !in CalleeIds(CallEdges(p, CALLER)) && 2 !in CalleeIds(CallEdges(p, CALLEE));
  }

  lemma CalleeAlone(rank: FactId -> nat, cur: Current)
    requires Injective(rank) && WellFormed(TwoFunctions(rank))
    ensures var f := TransferFacts(TwoFunctions(rank), DEFAULTS, false, CALLEE, cur);
            f.reasons == {} && f.effects == map[LocalFact(0) := READ]
  {
    hide WellFormed, OwnerSites, TargetsOf, Bodies, AllOrigins, UncappedReasons, CallEdges, OwnSite, SiteComplete;
    TwoFunctionsEdges(rank);
    SitesComplete(TwoFunctions(rank), CALLEE);
    CompleteTransferIff(TwoFunctions(rank), DEFAULTS, false, CALLEE, cur);
  }

  // The one call sends nothing, so nothing joins the caller's own effects, of which it has none.
  lemma NothingArrives(p: Program, cur: Current)
    requires WellFormed(p) && LocalEffects(p, 1) == map[]
    requires forall x :: x in CallEdges(p, CALLER) <==> x == Edge(CALLER, CALL, CALL_TARGET, CALLEE, false)
    requires FactsOf(cur, 2).effects == map[LocalFact(0) := READ]
    ensures AllEffects(p, CALLER, cur) == map[]
  {
    hide WellFormed, CallEdges, EffectFold, LocalEffects;
    var all := AllEffects(p, CALLER, cur);
    if i :| i in all {
      FoldValue(p, CallEdges(p, CALLER), cur, LocalEffects(p, 1), i);
    }
    assert all.Keys == {};
  }

  // Every site of either function is resolved, as the spelled-out completeness of a site has it.
  lemma SitesComplete(p: Program, c: Summary)
    requires OwnerSites(p, c) == [] || (c == CALLER && OwnerSites(p, c) == [CALL])
    requires TargetsOf(p, CALL) == [CALL_TARGET] && Bodies(p, CALLER, CALL_TARGET) == [2]
    ensures forall site :: OwnSite(p, c, site) ==> SiteComplete(p, c, site)
  {
    hide OwnerSites, TargetsOf, Bodies, OwnSite, SiteComplete;
    forall site | OwnSite(p, c, site)
      ensures SiteComplete(p, c, site)
    {
      OwnSitesAre(p, c, site);
      SiteResolvedIff(p, c, site);
    }
  }

  lemma CallerAfter(rank: FactId -> nat, cur: Current)
    requires Injective(rank) && WellFormed(TwoFunctions(rank))
    requires FactsOf(cur, 2).reasons == {} && FactsOf(cur, 2).effects == map[LocalFact(0) := READ]
    ensures var f := TransferFacts(TwoFunctions(rank), DEFAULTS, false, CALLER, cur);
            f.reasons == {} && f.effects == map[]
  {
    hide WellFormed, CallEdges, OwnerSites, TargetsOf, Bodies, AllEffects, AllOrigins, UncappedReasons, FactsOf, OwnSite, SiteComplete;
    var p := TwoFunctions(rank);
    TwoFunctionsEdges(rank);
    SitesComplete(p, CALLER);
    NothingArrives(p, cur);
    CompleteTransferIff(p, DEFAULTS, false, CALLER, cur);
  }

  // The documented promise that an omitted fact always reduces completeness fails on
  // this input, under the default limits and whatever the digest order: the callee's
  // read is missing from a caller that is reported complete.
  lemma OmittedYetComplete(rank: FactId -> nat)
    requires Injective(rank)
    ensures Solvable(TwoFunctions(rank), DEFAULTS, [[2], [1]])
    ensures var p := TwoFunctions(rank);
            var final := Final(p, DEFAULTS, [[2], [1]]);
            && Complete(p, final, 1)
            && (exists e :: e in CallEdges(p, CALLER) && e.callee == CALLEE)
            && READ in FactsOf(final, 2).effects.Values
            && FactsOf(final, 1).effects == map[]
            && !Carried(READ)
  {
    hide CallEdges, OwnerSites, TargetsOf, Bodies, Solvable, Injective, FactsOf;
    TwoFunctionsRun(rank);
    TwoFunctionsEdges(rank);
    var p := TwoFunctions(rank);
    assert Edge(CALLER, CALL, CALL_TARGET, CALLEE, false) in CallEdges(p, CALLER);
    var effects := FactsOf(Final(p, DEFAULTS, [[2], [1]]), 2).effects;
    assert LocalFact(0) in effects && effects[LocalFact(0)] == READ;
  }
}
