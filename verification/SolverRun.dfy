// The solver of one build variant as it runs: component loop, emission, flow
// recording and early release of facts no later caller will read.
module SolverRun {
  import opened Graphs
  import opened Options
  import opened Summaries
  import opened Transfer
  import opened TransferMeaning
  import opened Solver
  import opened Flows
  import Tarjan

  // Components --------------------------------------------------------------------

  method IterateComponent(p: Program, limits: Limits, component: seq<nat>, cur: Current) returns (o: Outcome)
    requires WellFormed(p) && limits.Valid() && Members(p, component)
    ensures o == Iterated(p, limits, component, cur)
  {
    hide WellFormed, TransferFacts, Jacobi;
    var limit := IterationLimit(limits, component);
    var now := cur;
    var converged := false;
    var count := 1;
    while true
      invariant 1 <= count <= limit
      invariant Jacobi(p, limits, component, now, count, limit) == Jacobi(p, limits, component, cur, 1, limit)
      decreases limit - count
    {
      var next := TransferAll(p, limits, component, now);
      ghost var before := now;
      converged := Stable(component, now, next);
      now := now + next;
      JacobiUnfold(p, limits, component, before, count, limit);
      if converged || count == limit {
        break;
      }
      count := count + 1;
    }
    o := Outcome(now, converged, count);
    if !converged && !Oversized(limits, component) {
      o := o.(cur := AddReason(now, component, SccIterationCap));
    }
  }

  lemma JacobiUnfold(p: Program, limits: Limits, component: seq<nat>, cur: Current, count: nat, limit: nat)
    requires WellFormed(p) && Members(p, component) && count <= limit
    ensures var next := Round(p, limits, component, cur);
            Jacobi(p, limits, component, cur, count, limit)
            == if Stable(component, cur, next) || count == limit then Outcome(cur + next, Stable(component, cur, next), count)
               else Jacobi(p, limits, component, cur + next, count + 1, limit)
  {
    hide WellFormed, TransferFacts;
  }

  // Transfers of all members against the same facts.
  method TransferAll(p: Program, limits: Limits, component: seq<nat>, cur: Current) returns (next: Current)
    requires WellFormed(p) && Members(p, component)
    ensures next == Round(p, limits, component, cur)
  {
    hide WellFormed, TransferFacts;
    next := map[];
    for k := 0 to |component|
      invariant forall s :: s in next <==> s in component[..k]
      invariant forall s :: s in next ==> s in p.summaries
      invariant forall s :: s in next ==> next[s] == TransferFacts(p, limits, Oversized(limits, component), p.summaries[s], cur)
    {
      var s := component[k];
      assert component[..k + 1] == component[..k] + [s];
      var facts := Transfer.Transfer(p, limits, Oversized(limits, component), p.summaries[s], cur);
      next := next[s := facts];
    }
    assert component[..|component|] == component;
  }

  method Solve(p: Program, limits: Limits, component: seq<nat>, cur: Current) returns (o: Outcome)
    requires WellFormed(p) && limits.Valid() && Members(p, component)
    ensures o == SolveComponent(p, limits, component, cur)
  {
    hide WellFormed, TransferFacts, CallGraph, Iterated;
    if Solitary(p, component) {
      var s := component[0];
      var next := Transfer.Transfer(p, limits, Oversized(limits, [s]), p.summaries[s], cur);
      var changed := next != FactsOf(cur, s);
      if changed && limits.maxIterations == 1 {
        next := next.(reasons := next.reasons + {SccIterationCap});
      }
      o := Outcome(cur[s := next], !changed || limits.maxIterations > 1, if changed && limits.maxIterations > 1 then 2 else 1);
    } else {
      o := IterateComponent(p, limits, component, cur);
    }
  }

  // Solving reads nothing but members and their callees ----------------------------

  // The facts a component's solution depends on are the same in both.
  ghost predicate SameNear(p: Program, component: seq<nat>, a: Current, b: Current)
    requires Members(p, component)
  {
    forall s :: s in component ==> FactsOf(a, s) == FactsOf(b, s) && AgreeOn(a, b, CallEdges(p, p.summaries[s]))
  }

  lemma RoundLocal(p: Program, limits: Limits, component: seq<nat>, a: Current, b: Current)
    requires WellFormed(p) && Members(p, component) && SameNear(p, component, a, b)
    ensures Round(p, limits, component, a) == Round(p, limits, component, b)
    ensures SameNear(p, component, a + Round(p, limits, component, a), b + Round(p, limits, component, b))
  {
    hide WellFormed, TransferFacts, CallEdges;
    forall s | s in component
      ensures TransferFacts(p, limits, Oversized(limits, component), p.summaries[s], a)
              == TransferFacts(p, limits, Oversized(limits, component), p.summaries[s], b)
    {
      TransferDependsOnCallees(p, limits, Oversized(limits, component), p.summaries[s], a, b);
    }
  }

  // b' differs from b exactly as a' differs from a.
  ghost predicate SameChange(component: seq<nat>, a: Current, a': Current, b: Current, b': Current) {
    && a'.Keys == a.Keys + (set s | s in component) && b'.Keys == b.Keys + (set s | s in component)
    && (forall s :: s in component ==> FactsOf(a', s) == FactsOf(b', s))
    && (forall s :: s !in component ==> FactsOf(a', s) == FactsOf(a, s) && FactsOf(b', s) == FactsOf(b, s))
  }

  lemma {:induction false} JacobiLocal(p: Program, limits: Limits, component: seq<nat>, a: Current, b: Current, count: nat, limit: nat)
    requires WellFormed(p) && Members(p, component) && count <= limit && SameNear(p, component, a, b)
    ensures var oa := Jacobi(p, limits, component, a, count, limit); var ob := Jacobi(p, limits, component, b, count, limit);
            && oa.converged == ob.converged && oa.iterations == ob.iterations
            && SameChange(component, a, oa.cur, b, ob.cur)
    decreases limit - count
  {
    hide WellFormed, Jacobi, SameNear, SameChange, TransferFacts, Stable;
    RoundLocal(p, limits, component, a, b);
    JacobiUnfold(p, limits, component, a, count, limit);
    JacobiUnfold(p, limits, component, b, count, limit);
    var next := Round(p, limits, component, a);
    StableLocal(p, component, a, b, next);
    MergeChange(component, a, b, next);
    if !(Stable(component, a, next) || count == limit) {
      JacobiLocal(p, limits, component, a + next, b + next, count + 1, limit);
      var a' := Jacobi(p, limits, component, a + next, count + 1, limit).cur;
      var b' := Jacobi(p, limits, component, b + next, count + 1, limit).cur;
      ChangeTwice(component, a, a + next, a', b, b + next, b');
    }
  }

  lemma MergeChange(component: seq<nat>, a: Current, b: Current, next: Current)
    requires forall s :: s in component <==> s in next
    ensures SameChange(component, a, a + next, b, b + next)
  {
  }

  lemma ChangeTwice(component: seq<nat>, a: Current, a1: Current, a2: Current, b: Current, b1: Current, b2: Current)
    requires SameChange(component, a, a1, b, b1) && SameChange(component, a1, a2, b1, b2)
    ensures SameChange(component, a, a2, b, b2)
  {
  }

  lemma StableLocal(p: Program, component: seq<nat>, a: Current, b: Current, next: Current)
    requires Members(p, component) && SameNear(p, component, a, b) && forall s :: s in component ==> s in next
    ensures Stable(component, a, next) <==> Stable(component, b, next)
  {
    hide CallEdges, AgreeOn;
  }

  lemma AddReasonLocal(component: seq<nat>, a: Current, a': Current, b: Current, b': Current, reason: Reason)
    requires SameChange(component, a, a', b, b')
    ensures SameChange(component, a, AddReason(a', component, reason), b, AddReason(b', component, reason))
  {
  }

  lemma SolveLocal(p: Program, limits: Limits, component: seq<nat>, a: Current, b: Current)
    requires WellFormed(p) && limits.Valid() && Members(p, component) && SameNear(p, component, a, b)
    requires forall s :: s in component ==> s in a && s in b
    ensures var oa := SolveComponent(p, limits, component, a); var ob := SolveComponent(p, limits, component, b);
            oa.iterations == ob.iterations && SameChange(component, a, oa.cur, b, ob.cur)
  {
    hide WellFormed, Jacobi, SameNear, CallGraph, SameChange, Shortcut, AddReason;
    if Solitary(p, component) {
      assert component == [component[0]];
      ShortcutIsExact(p, limits, component[0], a);
      ShortcutIsExact(p, limits, component[0], b);
    }
    var limit := IterationLimit(limits, component);
    JacobiLocal(p, limits, component, a, b, 1, limit);
    AddReasonLocal(component, a, Jacobi(p, limits, component, a, 1, limit).cur,
                   b, Jacobi(p, limits, component, b, 1, limit).cur, SccIterationCap);
  }

  // Callers still to come ------------------------------------------------------------

  // A call edge between components: caller, callee.
  type Pairs = set<(nat, nat)>

  ghost function CallersIn(pairs: Pairs, s: nat): set<nat> {
    set q | q in pairs && q.1 == s :: q.0
  }

  // Edges from the components at or after k into other components.
  ghost function CrossPairs(p: Program, where: map<nat, nat>, k: nat): Pairs {
    set c, s | c in p.summaries && s in Successors(CallGraph(p), c) && c in where && s in where
               && where[c] >= k && where[c] != where[s] :: (c, s)
  }

  // The component index of every summary.
  ghost predicate Locates(components: seq<seq<nat>>, where: map<nat, nat>) {
    && (forall s :: s in where <==> Tarjan.Emitted(components, s))
    && (forall s :: s in where ==> where[s] < |components| && s in components[where[s]])
  }

  ghost predicate Counted(pairs: Pairs, remaining: map<nat, nat>) {
    forall s :: CountOf(remaining, s) == |CallersIn(pairs, s)|
  }

  function CountOf(remaining: map<nat, nat>, s: nat): nat {
    if s in remaining then remaining[s] else 0
  }

  lemma AddPair(pairs: Pairs, c: nat, s: nat)
    requires (c, s) !in pairs
    ensures |CallersIn(pairs + {(c, s)}, s)| == |CallersIn(pairs, s)| + 1
    ensures forall x :: x != s ==> CallersIn(pairs + {(c, s)}, x) == CallersIn(pairs, x)
  {
    assert c !in CallersIn(pairs, s);
    assert CallersIn(pairs + {(c, s)}, s) == CallersIn(pairs, s) + {c};
    forall x | x != s
      ensures CallersIn(pairs + {(c, s)}, x) == CallersIn(pairs, x)
    {
    }
  }

  lemma RemovePair(pairs: Pairs, c: nat, s: nat)
    requires (c, s) in pairs
    ensures |CallersIn(pairs, s)| == |CallersIn(pairs - {(c, s)}, s)| + 1
    ensures forall x :: x != s ==> CallersIn(pairs - {(c, s)}, x) == CallersIn(pairs, x)
  {
    assert pairs - {(c, s)} + {(c, s)} == pairs;
    AddPair(pairs - {(c, s)}, c, s);
  }

  method LocateMembers(components: seq<seq<nat>>) returns (where: map<nat, nat>)
    requires Tarjan.Disjoint(components)
    ensures Locates(components, where)
  {
    where := map[];
    for k := 0 to |components|
      invariant forall s :: s in where <==> Tarjan.Emitted(components[..k], s)
      invariant forall s :: s in where ==> where[s] < k && s in components[where[s]]
    {
      ghost var before := where;
      for j := 0 to |components[k]|
        invariant forall s :: s in where <==> s in before || s in components[k][..j]
        invariant forall s :: s in where ==> where[s] <= k && s in components[where[s]]
      {
        assert components[k][..j + 1] == components[k][..j] + [components[k][j]];
        where := where[components[k][j] := k];
      }
      assert components[k][..|components[k]|] == components[k];
      assert components[..k + 1] == components[..k] + [components[k]];
      forall s
        ensures s in where <==> Tarjan.Emitted(components[..k + 1], s)
      {
        Tarjan.EmittedSnoc(components[..k], components[k], s);
      }
    }
    assert components[..|components|] == components;
  }

  // The cross-component edges of one caller, over the first n of its callees.
  ghost function PairsFrom(where: map<nat, nat>, caller: nat, callees: seq<nat>): Pairs
    requires caller in where && forall s :: s in callees ==> s in where
  {
    set s | s in callees && where[s] != where[caller] :: (caller, s)
  }

  lemma PairsFromStep(where: map<nat, nat>, caller: nat, callees: seq<nat>, j: nat)
    requires caller in where && (forall s :: s in callees ==> s in where) && j < |callees| && StrictlyAscending(callees)
    ensures PairsFrom(where, caller, callees[..j + 1])
            == PairsFrom(where, caller, callees[..j]) + if where[callees[j]] != where[caller] then {(caller, callees[j])} else {}
    ensures (caller, callees[j]) !in PairsFrom(where, caller, callees[..j])
  {
    assert callees[..j + 1] == callees[..j] + [callees[j]];
  }

  method CountFrom(where: map<nat, nat>, caller: nat, callees: seq<nat>, remaining: map<nat, nat>, ghost pairs: Pairs)
    returns (remaining': map<nat, nat>)
    requires caller in where && (forall s :: s in callees ==> s in where) && StrictlyAscending(callees)
    requires Counted(pairs, remaining) && forall s :: (caller, s) !in pairs
    ensures Counted(pairs + PairsFrom(where, caller, callees), remaining')
  {
    hide PairsFrom, CallersIn, StrictlyAscending;
    remaining' := remaining;
    ghost var now := pairs;
    NoPairs(where, caller, callees, pairs);
    for j := 0 to |callees|
      invariant now == pairs + PairsFrom(where, caller, callees[..j])
      invariant Counted(now, remaining')
    {
      var callee := callees[j];
      PairsFromStep(where, caller, callees, j);
      if where[caller] != where[callee] {
        AddPair(now, caller, callee);
        remaining' := remaining'[callee := CountOf(remaining', callee) + 1];
        now := now + {(caller, callee)};
      }
    }
    assert callees[..|callees|] == callees;
  }

  lemma NoPairs(where: map<nat, nat>, caller: nat, callees: seq<nat>, pairs: Pairs)
    requires caller in where && forall s :: s in callees ==> s in where
    ensures pairs + PairsFrom(where, caller, callees[..0]) == pairs
  {
  }

  // Edges out of the first i callers.
  ghost function PairsOfCallers(p: Program, where: map<nat, nat>, callers: seq<nat>): Pairs
    requires (forall c :: c in callers ==> c in where) && Closed(CallGraph(p), where.Keys)
  {
    set c, s | c in callers && s in Successors(CallGraph(p), c) && where[s] != where[c] :: (c, s)
  }

  lemma CallersStep(p: Program, where: map<nat, nat>, callers: seq<nat>, caller: nat, callees: seq<nat>)
    requires (forall c :: c in callers ==> c in where) && caller in where && Closed(CallGraph(p), where.Keys)
    requires caller !in callers && forall s :: s in callees <==> s in Successors(CallGraph(p), caller)
    ensures forall s :: s in callees ==> s in where
    ensures PairsOfCallers(p, where, callers + [caller])
            == PairsOfCallers(p, where, callers) + PairsFrom(where, caller, callees)
    ensures forall s :: (caller, s) !in PairsOfCallers(p, where, callers)
  {
    hide CallGraph;
  }

  // Counts, for every summary, its callers in other components.
  method CountCallers(p: Program, where: map<nat, nat>) returns (remaining: map<nat, nat>)
    requires WellFormed(p) && where.Keys == p.summaries.Keys && Closed(CallGraph(p), where.Keys)
    ensures Counted(CrossPairs(p, where, 0), remaining)
  {
    hide WellFormed, CallGraph, Counted, PairsOfCallers, CrossPairs, PairsFrom, Closed;
    remaining := map[];
    var callers := Sorted(p.summaries.Keys);
    CountedNone(p, where, callers);
    for i := 0 to |callers|
      invariant Counted(PairsOfCallers(p, where, callers[..i]), remaining)
    {
      var callees := Sorted(Successors(CallGraph(p), callers[i]));
      assert callers[..i + 1] == callers[..i] + [callers[i]];
      assert callers[i] in where;
      CallersStep(p, where, callers[..i], callers[i], callees);
      remaining := CountFrom(where, callers[i], callees, remaining, PairsOfCallers(p, where, callers[..i]));
    }
    assert callers[..|callers|] == callers;
    AllCallersCounted(p, where, callers);
  }

  lemma CountedNone(p: Program, where: map<nat, nat>, callers: seq<nat>)
    requires (forall c :: c in callers ==> c in where) && Closed(CallGraph(p), where.Keys)
    ensures Counted(PairsOfCallers(p, where, callers[..0]), map[])
  {
    var pairs := PairsOfCallers(p, where, callers[..0]);
    assert pairs == {};
    assert forall s :: CallersIn(pairs, s) == {};
  }

  lemma AllCallersCounted(p: Program, where: map<nat, nat>, callers: seq<nat>)
    requires where.Keys == p.summaries.Keys && Closed(CallGraph(p), where.Keys)
    requires forall c :: c in callers <==> c in p.summaries
    ensures PairsOfCallers(p, where, callers) == CrossPairs(p, where, 0)
  {
    hide CallGraph;
  }

  // Release ----------------------------------------------------------------------------

  // Facts left once the callers in `pairs` but not in `pairs'` are done: an entry goes
  // exactly when its last remaining caller does.
  ghost function AfterRelease(cur: Current, pairs: Pairs, pairs': Pairs): Current {
    map s | s in cur && !(CallersIn(pairs, s) != {} && CallersIn(pairs', s) == {}) :: cur[s]
  }

  lemma ReleaseOne(cur: Current, pairs: Pairs, now: Pairs, c: nat, s: nat, cur': Current)
    requires now <= pairs && (c, s) in now && cur' == AfterRelease(cur, pairs, now)
    ensures AfterRelease(cur, pairs, now - {(c, s)})
            == if CallersIn(now - {(c, s)}, s) == {} then cur' - {s} else cur'
  {
    RemovePair(now, c, s);
    assert (c, s) in pairs && c in CallersIn(pairs, s) && c in CallersIn(now, s);
    var result := if CallersIn(now - {(c, s)}, s) == {} then cur' - {s} else cur';
    var expected := AfterRelease(cur, pairs, now - {(c, s)});
    forall x
      ensures x in expected <==> x in result
      ensures x in expected && x in result ==> expected[x] == result[x]
    {
      if x != s {
        assert CallersIn(now - {(c, s)}, x) == CallersIn(now, x);
      }
    }
  }

  method ReleaseCaller(where: map<nat, nat>, caller: nat, callees: seq<nat>, remaining: map<nat, nat>, cur: Current,
                       ghost pairs: Pairs, ghost before: Pairs, ghost start: Current)
    returns (remaining': map<nat, nat>, cur': Current)
    requires caller in where && (forall s :: s in callees ==> s in where) && StrictlyAscending(callees)
    requires Counted(before, remaining) && before <= pairs && PairsFrom(where, caller, callees) <= before
    requires cur == AfterRelease(start, pairs, before)
    ensures Counted(before - PairsFrom(where, caller, callees), remaining')
    ensures cur' == AfterRelease(start, pairs, before - PairsFrom(where, caller, callees))
  {
    hide PairsFrom, CallersIn, StrictlyAscending, AfterRelease;
    remaining', cur' := remaining, cur;
    ghost var now := before;
    NoPairs(where, caller, callees, {});
    assert before - PairsFrom(where, caller, callees[..0]) == before;
    for j := 0 to |callees|
      invariant now == before - PairsFrom(where, caller, callees[..j])
      invariant Counted(now, remaining') && cur' == AfterRelease(start, pairs, now)
    {
      var callee := callees[j];
      PairsFromStep(where, caller, callees, j);
      if where[callee] != where[caller] {
        PairsFromPart(where, caller, callees, j);
        RemovePair(now, caller, callee);
        ReleaseOne(start, pairs, now, caller, callee, cur');
        remaining' := remaining'[callee := CountOf(remaining', callee) - 1];
        now := now - {(caller, callee)};
        EmptyCount(CallersIn(now, callee));
        if CountOf(remaining', callee) == 0 {
          cur' := cur' - {callee};
        }
      }
    }
    assert callees[..|callees|] == callees;
  }

  lemma EmptyCount(s: set<nat>)
    ensures |s| == 0 <==> s == {}
  {
  }

  lemma PairsFromPart(where: map<nat, nat>, caller: nat, callees: seq<nat>, j: nat)
    requires caller in where && (forall s :: s in callees ==> s in where) && j < |callees|
    requires where[callees[j]] != where[caller]
    ensures (caller, callees[j]) in PairsFrom(where, caller, callees)
  {
  }

  // The entries of the component itself that nobody outside calls.
  method ReleaseMembers(component: seq<nat>, remaining: map<nat, nat>, cur: Current, ghost pairs: Pairs)
    returns (cur': Current)
    requires Counted(pairs, remaining)
    ensures cur' == map s | s in cur && !(s in component && CallersIn(pairs, s) == {}) :: cur[s]
  {
    hide CallersIn;
    cur' := cur;
    for j := 0 to |component|
      invariant cur' == map s | s in cur && !(s in component[..j] && CallersIn(pairs, s) == {}) :: cur[s]
    {
      assert component[..j + 1] == component[..j] + [component[j]];
      EmptyCount(CallersIn(pairs, component[j]));
      if CountOf(remaining, component[j]) == 0 {
        cur' := cur' - {component[j]};
      }
    }
    assert component[..|component|] == component;
  }

  // Everything a component's end releases.
  ghost function Released(component: seq<nat>, cur: Current, pairs: Pairs, pairs': Pairs): Current {
    var left := AfterRelease(cur, pairs, pairs');
    map s | s in left && !(s in component && CallersIn(pairs', s) == {}) :: left[s]
  }

  lemma CrossPairsOfCaller(p: Program, where: map<nat, nat>, k: nat, caller: nat, callees: seq<nat>)
    requires where.Keys == p.summaries.Keys && caller in where && where[caller] == k
    requires forall s :: s in callees <==> s in Successors(CallGraph(p), caller)
    requires forall s :: s in callees ==> s in where
    ensures PairsFrom(where, caller, callees) <= CrossPairs(p, where, k)
    ensures PairsFrom(where, caller, callees) == set q | q in CrossPairs(p, where, k) && q.0 == caller
  {
    hide CallGraph;
  }

  // Pairs left after the first j members of component k.
  ghost function PairsAfter(p: Program, where: map<nat, nat>, k: nat, component: seq<nat>): Pairs {
    set q | q in CrossPairs(p, where, k) && q.0 !in component
  }

  lemma PairsAfterStep(p: Program, where: map<nat, nat>, k: nat, component: seq<nat>, j: nat, callees: seq<nat>)
    requires where.Keys == p.summaries.Keys && j < |component| && StrictlyAscending(component)
    requires component[j] in where && where[component[j]] == k
    requires forall s :: s in callees <==> s in Successors(CallGraph(p), component[j])
    requires forall s :: s in callees ==> s in where
    ensures PairsFrom(where, component[j], callees) <= PairsAfter(p, where, k, component[..j])
    ensures PairsAfter(p, where, k, component[..j + 1])
            == PairsAfter(p, where, k, component[..j]) - PairsFrom(where, component[j], callees)
  {
    CrossPairsOfCaller(p, where, k, component[j], callees);
    hide CrossPairs, PairsFrom, CallGraph, Successors;
    var pairs := CrossPairs(p, where, k);
    forall q | q in pairs
      ensures q.0 in component[..j + 1] <==> q.0 in component[..j] || q.0 == component[j]
      ensures q.0 == component[j] ==> q.0 !in component[..j]
    {
      AscendingNew(component, j, q.0);
    }
    hide StrictlyAscending;
  }

  lemma AscendingNew(s: seq<nat>, j: nat, x: nat)
    requires StrictlyAscending(s) && j < |s|
    ensures x in s[..j + 1] <==> x in s[..j] || x == s[j]
    ensures s[j] !in s[..j]
  {
    assert s[..j + 1] == s[..j] + [s[j]];
  }

  lemma PairsAfterAll(p: Program, components: seq<seq<nat>>, where: map<nat, nat>, k: nat)
    requires Locates(components, where) && Tarjan.Disjoint(components) && k < |components|
    ensures PairsAfter(p, where, k, components[k]) == CrossPairs(p, where, k + 1)
    ensures forall s :: s in components[k] ==> s in where && where[s] == k
  {
    hide CallGraph;
    forall s | s in components[k]
      ensures s in where && where[s] == k
    {
      LocatedOnce(components, where, k, s);
    }
  }

  method ReleaseComponent(p: Program, components: seq<seq<nat>>, where: map<nat, nat>, k: nat, remaining: map<nat, nat>, cur: Current)
    returns (remaining': map<nat, nat>, cur': Current)
    requires WellFormed(p) && where.Keys == p.summaries.Keys && Closed(CallGraph(p), where.Keys)
    requires Locates(components, where) && Tarjan.Disjoint(components) && k < |components| && StrictlyAscending(components[k])
    requires Counted(CrossPairs(p, where, k), remaining)
    ensures Counted(CrossPairs(p, where, k + 1), remaining')
    ensures cur' == Released(components[k], cur, CrossPairs(p, where, k), CrossPairs(p, where, k + 1))
  {
    hide WellFormed, CallGraph, Counted, PairsAfter, CrossPairs, PairsFrom, AfterRelease, CallersIn, Locates, Tarjan.Disjoint;
    var component := components[k];
    ghost var pairs := CrossPairs(p, where, k);
    remaining', cur' := remaining, cur;
    PairsAfterAll(p, components, where, k);
    PairsAfterNone(p, where, k, component, cur);
    for j := 0 to |component|
      invariant Counted(PairsAfter(p, where, k, component[..j]), remaining')
      invariant cur' == AfterRelease(cur, pairs, PairsAfter(p, where, k, component[..j]))
    {
      var callees := Sorted(Successors(CallGraph(p), component[j]));
      assert component[j] in where;
      PairsAfterStep(p, where, k, component, j, callees);
      PairsAfterWithin(p, where, k, component[..j]);
      remaining', cur' := ReleaseCaller(where, component[j], callees, remaining', cur', pairs,
                                        PairsAfter(p, where, k, component[..j]), cur);
    }
    assert component[..|component|] == component;
    cur' := ReleaseMembers(component, remaining', cur', CrossPairs(p, where, k + 1));
  }

  lemma PairsAfterWithin(p: Program, where: map<nat, nat>, k: nat, component: seq<nat>)
    ensures PairsAfter(p, where, k, component) <= CrossPairs(p, where, k)
  {
    hide CrossPairs;
  }

  lemma PairsAfterNone(p: Program, where: map<nat, nat>, k: nat, component: seq<nat>, cur: Current)
    ensures PairsAfter(p, where, k, component[..0]) == CrossPairs(p, where, k)
    ensures AfterRelease(cur, CrossPairs(p, where, k), PairsAfter(p, where, k, component[..0])) == cur
  {
    hide CrossPairs;
    assert PairsAfter(p, where, k, component[..0]) == CrossPairs(p, where, k);
  }

  // The run ------------------------------------------------------------------------------

  function MemberFlows(p: Program, component: seq<nat>, n: nat, cur: Current, flows: FlowMap): FlowMap
    requires WellFormed(p) && Members(p, component) && n <= |component|
  {
    if n == 0 then flows
    else SummaryFlows(p, CallEdges(p, p.summaries[component[n - 1]]), cur, MemberFlows(p, component, n - 1, cur, flows))
  }

  // Flows of the first k components, with every summary's facts kept.
  function FlowsTo(p: Program, limits: Limits, components: seq<seq<nat>>, k: nat): FlowMap
    requires WellFormed(p) && limits.Valid() && AllMembers(p, components) && k <= |components|
  {
    if k == 0 then map[]
    else
      MemberFlows(p, components[k - 1], |components[k - 1]|, RunTo(p, limits, components, k).cur,
                  FlowsTo(p, limits, components, k - 1))
  }

  // Which facts are still held before component k: those of unsolved components and
  // those some unsolved component still calls.
  ghost predicate Held(p: Program, where: map<nat, nat>, k: nat, s: nat)
    requires s in where
  {
    where[s] >= k || CallersIn(CrossPairs(p, where, k), s) != {}
  }

  ghost predicate Releasing(p: Program, where: map<nat, nat>, k: nat, cur: Current, full: Current)
    requires where.Keys == p.summaries.Keys
  {
    && (forall s :: s in cur <==> s in where && Held(p, where, k, s))
    && (forall s :: s in cur ==> s in full && cur[s] == full[s])
  }

  ghost predicate Placed(p: Program, components: seq<seq<nat>>, where: map<nat, nat>) {
    && Ordered(p, components) && Locates(components, where) && where.Keys == p.summaries.Keys
  }

  lemma CalleeWhere(p: Program, components: seq<seq<nat>>, where: map<nat, nat>, c: nat, s: nat)
    requires WellFormed(p) && Placed(p, components, where) && c in p.summaries && s in Successors(CallGraph(p), c)
    ensures c in where && s in where && where[s] <= where[c]
  {
    hide WellFormed, CallEdges, Ordered;
    var e := EdgeTo(p, c, s);
    assert c in components[where[c]];
    CalleeEarlier(p, components, where[c], c, e);
    var j := EmittedAt(components, where[c] + 1, s);
    MemberWhere(p, components, where, j, s);
  }

  lemma EdgeTo(p: Program, c: nat, s: nat) returns (e: Edge)
    requires c in p.summaries && s in Successors(CallGraph(p), c)
    ensures e in CallEdges(p, p.summaries[c]) && e.callee.id == s
  {
    hide CallEdges;
    e :| e in CallEdges(p, p.summaries[c]) && e.callee.id == s;
  }

  lemma EmittedAt(components: seq<seq<nat>>, n: nat, s: nat) returns (j: nat)
    requires n <= |components| && Tarjan.Emitted(components[..n], s)
    ensures j < n && s in components[j]
  {
    j :| 0 <= j < n && s in components[..n][j];
  }

  // Members of component k and their callees are all still held.
  lemma HeldNear(p: Program, components: seq<seq<nat>>, where: map<nat, nat>, k: nat, cur: Current, full: Current)
    requires WellFormed(p) && Placed(p, components, where) && k < |components| && Members(p, components[k])
    requires Releasing(p, where, k, cur, full)
    ensures SameNear(p, components[k], cur, full)
    ensures forall s :: s in components[k] ==> s in cur
  {
    hide WellFormed, CallEdges, CrossPairs, Ordered;
    forall s | s in components[k]
      ensures s in cur && FactsOf(cur, s) == FactsOf(full, s) && AgreeOn(cur, full, CallEdges(p, p.summaries[s]))
    {
      MemberWhere(p, components, where, k, s);
      forall e | e in CallEdges(p, p.summaries[s])
        ensures FactsOf(cur, e.callee.id) == FactsOf(full, e.callee.id)
      {
        CalleeHeld(p, components, where, k, s, e);
      }
    }
  }

  lemma MemberWhere(p: Program, components: seq<seq<nat>>, where: map<nat, nat>, k: nat, s: nat)
    requires Placed(p, components, where) && k < |components| && s in components[k]
    ensures s in where && where[s] == k
  {
    hide Locates, Tarjan.Disjoint, CallGraph;
    ComponentShapes(p, components);
    hide Ordered;
    LocatedOnce(components, where, k, s);
  }

  lemma LocatedOnce(components: seq<seq<nat>>, where: map<nat, nat>, k: nat, s: nat)
    requires Locates(components, where) && Tarjan.Disjoint(components) && k < |components| && s in components[k]
    ensures s in where && where[s] == k
  {
    assert Tarjan.Emitted(components, s);
  }

  lemma CalleeHeld(p: Program, components: seq<seq<nat>>, where: map<nat, nat>, k: nat, s: nat, e: Edge)
    requires WellFormed(p) && Placed(p, components, where) && k < |components| && s in components[k]
    requires s in p.summaries && e in CallEdges(p, p.summaries[s])
    ensures e.callee.id in where && Held(p, where, k, e.callee.id)
  {
    hide WellFormed, CallEdges, Ordered;
    MemberWhere(p, components, where, k, s);
    assert e.callee.id in CalleeIds(CallEdges(p, p.summaries[s]));
    CalleeWhere(p, components, where, s, e.callee.id);
    if where[e.callee.id] != k {
      assert (s, e.callee.id) in CrossPairs(p, where, k);
      assert s in CallersIn(CrossPairs(p, where, k), e.callee.id);
    }
  }

  // After component k, exactly the facts still needed later are held.
  lemma ReleasingStep(p: Program, components: seq<seq<nat>>, where: map<nat, nat>, k: nat,
                      cur: Current, mid: Current, full: Current, full': Current)
    requires WellFormed(p) && Placed(p, components, where) && k < |components|
    requires Releasing(p, where, k, cur, full)
    requires mid.Keys == cur.Keys && forall s :: s in mid ==> s in full' && mid[s] == full'[s]
    ensures Releasing(p, where, k + 1, Released(components[k], mid, CrossPairs(p, where, k), CrossPairs(p, where, k + 1)), full')
  {
    hide WellFormed, Ordered, CrossPairs, CallersIn, Locates;
    var pairs, pairs' := CrossPairs(p, where, k), CrossPairs(p, where, k + 1);
    var left := Released(components[k], mid, pairs, pairs');
    forall s
      ensures s in left <==> s in where && Held(p, where, k + 1, s)
    {
      if s in where {
        LaterCallersSame(p, components, where, k, s);
      }
    }
  }

  lemma LaterCallersSame(p: Program, components: seq<seq<nat>>, where: map<nat, nat>, k: nat, s: nat)
    requires WellFormed(p) && Placed(p, components, where) && k < |components| && s in where
    ensures where[s] > k ==> CallersIn(CrossPairs(p, where, k), s) == CallersIn(CrossPairs(p, where, k + 1), s)
    ensures CallersIn(CrossPairs(p, where, k + 1), s) <= CallersIn(CrossPairs(p, where, k), s)
    ensures s in components[k] <==> where[s] == k
  {
    hide WellFormed, Ordered, CallGraph;
    if s in components[k] {
      MemberWhere(p, components, where, k, s);
    }
    if where[s] > k {
      forall c | (c, s) in CrossPairs(p, where, k)
        ensures (c, s) in CrossPairs(p, where, k + 1)
      {
        CalleeWhere(p, components, where, c, s);
      }
    }
  }

  // What the solver holds before component k.
  ghost predicate State(p: Program, where: map<nat, nat>, k: nat, retain: bool, cur: Current, full: Current)
    requires where.Keys == p.summaries.Keys
  {
    if retain then cur == full else Releasing(p, where, k, cur, full)
  }

  lemma StepAgrees(p: Program, limits: Limits, components: seq<seq<nat>>, where: map<nat, nat>, k: nat, retain: bool, cur: Current, full: Current)
    requires WellFormed(p) && limits.Valid() && Placed(p, components, where) && k < |components| && Members(p, components[k])
    requires State(p, where, k, retain, cur, full) && full.Keys == p.summaries.Keys
    ensures var o := SolveComponent(p, limits, components[k], cur); var f := SolveComponent(p, limits, components[k], full);
            && o.iterations == f.iterations
            && o.cur.Keys == cur.Keys
            && (forall s :: s in o.cur ==> s in f.cur && o.cur[s] == f.cur[s])
            && SameNear(p, components[k], o.cur, f.cur)
            && (retain ==> o.cur == f.cur)
  {
    hide WellFormed, Ordered, Locates, CallEdges, SolveComponent, Held, AgreeOn;
    if retain {
      NearRefl(p, components[k], SolveComponent(p, limits, components[k], cur).cur);
      ComponentSettles(p, limits, components[k], cur);
    } else {
      HeldNear(p, components, where, k, cur, full);
      SolveLocal(p, limits, components[k], cur, full);
      var o, f := SolveComponent(p, limits, components[k], cur).cur, SolveComponent(p, limits, components[k], full).cur;
      forall s | s in o
        ensures s in f && o[s] == f[s]
      {
        assert s in components[k] || s in cur;
        assert FactsOf(o, s) == FactsOf(f, s);
      }
      NearAfter(p, components[k], cur, o, full, f);
    }
  }

  lemma NearRefl(p: Program, component: seq<nat>, a: Current)
    requires Members(p, component)
    ensures SameNear(p, component, a, a)
  {
  }

  lemma NearAfter(p: Program, component: seq<nat>, a: Current, a': Current, b: Current, b': Current)
    requires Members(p, component) && SameNear(p, component, a, b) && SameChange(component, a, a', b, b')
    ensures SameNear(p, component, a', b')
  {
    hide CallEdges;
    forall s | s in component
      ensures AgreeOn(a', b', CallEdges(p, p.summaries[s]))
    {
      assert AgreeOn(a, b, CallEdges(p, p.summaries[s]));
      forall e | e in CallEdges(p, p.summaries[s])
        ensures FactsOf(a', e.callee.id) == FactsOf(b', e.callee.id)
      {
        assert FactsOf(a, e.callee.id) == FactsOf(b, e.callee.id);
      }
    }
  }

  // Emits the members of a solved component and records their flows.
  method Publish(p: Program, component: seq<nat>, o: Outcome, flows: FlowMap, ghost full: Outcome)
    returns (emitted: seq<Solved>, flows': FlowMap)
    requires WellFormed(p) && Members(p, component)
    requires o.iterations == full.iterations && SameNear(p, component, o.cur, full.cur)
    ensures emitted == SolvedMembers(p, component, full, |component|)
    ensures flows' == MemberFlows(p, component, |component|, full.cur, flows)
  {
    hide WellFormed, CallEdges, CallGraph, FactsOf, AgreeOn, Tarjan.FlaggedRecursive;
    emitted, flows' := [], flows;
    for j := 0 to |component|
      invariant emitted == SolvedMembers(p, component, full, j)
      invariant flows' == MemberFlows(p, component, j, full.cur, flows)
    {
      var s := component[j];
      assert s in component;
      var c := p.summaries[s];
      FlowsDependOnCallees(p, CallEdges(p, c), o.cur, full.cur, flows');
      flows' := RecordFlows(p, c, o.cur, flows');
      assert SolvedSummary(p, component, s, o) == SolvedSummary(p, component, s, full);
      emitted := emitted + [SolvedSummary(p, component, s, o)];
    }
  }

  lemma InitialHeld(p: Program, where: map<nat, nat>, retain: bool)
    requires where.Keys == p.summaries.Keys
    ensures State(p, where, 0, retain, Initial(p), Initial(p))
  {
    hide CrossPairs, LocalEffects, LocalOrigins;
  }

  lemma NothingHeldAtEnd(p: Program, components: seq<seq<nat>>, where: map<nat, nat>, cur: Current, full: Current)
    requires where.Keys == p.summaries.Keys && Locates(components, where)
    requires Releasing(p, where, |components|, cur, full)
    ensures cur == map[]
  {
    hide CallGraph;
    assert CrossPairs(p, where, |components|) == {};
  }

  // The components solved in the given order. Emission, flows and final summaries are those
  // of the run that keeps every fact, whichever way `retain` is set; without it nothing is
  // held at the end.
  method SolveInOrder(p: Program, limits: Limits, retain: bool, components: seq<seq<nat>>)
    returns (emitted: seq<Solved>, flows: FlowMap, kept: Current)
    requires WellFormed(p) && limits.Valid() && Ordered(p, components) && AllMembers(p, components)
    ensures emitted == RunTo(p, limits, components, |components|).emitted
    ensures flows == FlowsTo(p, limits, components, |components|)
    ensures kept == if retain then RunTo(p, limits, components, |components|).cur else map[]
  {
    hide WellFormed, Tarjan.Correct, CallGraph, SolveComponent, State, Initial, Locates, MemberFlows, SolvedMembers, Counted, CrossPairs, SameNear;
    OrderedMembers(p, components);
    CalleesAreSummaries(p);
    ComponentShapes(p, components);
    var where := LocateMembers(components);
    WhereKeys(p, components, where);
    var remaining := CountCallers(p, where);
    kept, emitted, flows := Initial(p), [], map[];
    InitialHeld(p, where, retain);
    for k := 0 to |components|
      invariant State(p, where, k, retain, kept, RunTo(p, limits, components, k).cur)
      invariant !retain ==> Counted(CrossPairs(p, where, k), remaining)
      invariant emitted == RunTo(p, limits, components, k).emitted
      invariant flows == FlowsTo(p, limits, components, k)
    {
      ghost var full := RunTo(p, limits, components, k);
      RunKeys(p, limits, components, k);
      assert Members(p, components[k]);
      StepAgrees(p, limits, components, where, k, retain, kept, full.cur);
      var o := Solve(p, limits, components[k], kept);
      ghost var f := SolveComponent(p, limits, components[k], full.cur);
      var batch;
      batch, flows := Publish(p, components[k], o, flows, f);
      emitted := emitted + batch;
      ghost var before := kept;
      kept := o.cur;
      if !retain {
        remaining, kept := ReleaseComponent(p, components, where, k, remaining, kept);
      }
      StateStep(p, components, where, k, retain, before, o.cur, full.cur, f.cur, kept);
    }
    FinalState(p, components, where, retain, kept, RunTo(p, limits, components, |components|).cur);
  }

  // The whole solver, in the order in which the component search emits.
  method SolveVariant(p: Program, limits: Limits, retain: bool)
    returns (components: seq<seq<nat>>, emitted: seq<Solved>, flows: FlowMap, kept: Current)
    requires WellFormed(p) && limits.Valid()
    ensures Ordered(p, components) && AllMembers(p, components)
    ensures emitted == RunTo(p, limits, components, |components|).emitted
    ensures flows == FlowsTo(p, limits, components, |components|)
    ensures kept == if retain then RunTo(p, limits, components, |components|).cur else map[]
  {
    hide WellFormed, Tarjan.Correct, CallGraph, RunTo, FlowsTo, AllMembers;
    components := Tarjan.StronglyConnected(p.summaries.Keys, CallGraph(p));
    OrderedMembers(p, components);
    emitted, flows, kept := SolveInOrder(p, limits, retain, components);
  }

  lemma ComponentShapes(p: Program, components: seq<seq<nat>>)
    requires Ordered(p, components)
    ensures Tarjan.Disjoint(components)
    ensures forall k :: 0 <= k < |components| ==> StrictlyAscending(components[k])
  {
    hide CallGraph;
  }

  lemma WhereKeys(p: Program, components: seq<seq<nat>>, where: map<nat, nat>)
    requires Locates(components, where) && forall s :: s in p.summaries <==> Tarjan.Emitted(components, s)
    ensures where.Keys == p.summaries.Keys
  {
  }

  lemma StateStep(p: Program, components: seq<seq<nat>>, where: map<nat, nat>, k: nat, retain: bool,
                  cur: Current, mid: Current, full: Current, full': Current, cur': Current)
    requires WellFormed(p) && Placed(p, components, where) && k < |components|
    requires State(p, where, k, retain, cur, full)
    requires mid.Keys == cur.Keys && (forall s :: s in mid ==> s in full' && mid[s] == full'[s])
    requires retain ==> mid == full' && cur' == mid
    requires !retain ==> cur' == Released(components[k], mid, CrossPairs(p, where, k), CrossPairs(p, where, k + 1))
    ensures State(p, where, k + 1, retain, cur', full')
  {
    hide WellFormed, Placed, CrossPairs, Released, Releasing;
    if !retain {
      ReleasingStep(p, components, where, k, cur, mid, full, full');
    }
  }

  lemma FinalState(p: Program, components: seq<seq<nat>>, where: map<nat, nat>, retain: bool, cur: Current, full: Current)
    requires where.Keys == p.summaries.Keys && Locates(components, where)
    requires State(p, where, |components|, retain, cur, full)
    ensures cur == if retain then full else map[]
  {
    hide CrossPairs, Locates, Releasing;
    if !retain {
      NothingHeldAtEnd(p, components, where, cur, full);
    }
  }
}
