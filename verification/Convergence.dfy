// Within one component, identities and reasons only grow from iteration to
// iteration and live in a finite universe, so they reach a fixpoint. (Values need
// not: certainty is not part of an identity and the last writer wins.)
module Convergence {
  import opened Graphs
  import opened Options
  import opened Summaries
  import opened Transfer
  import opened TransferMeaning
  import opened Chains
  import opened Solver

  // The n-th Jacobi iterate of a component.
  function Iterate(p: Program, limits: Limits, component: seq<nat>, cur: Current, n: nat): Current
    requires WellFormed(p) && Members(p, component)
  {
    if n == 0 then cur
    else
      var before := Iterate(p, limits, component, cur, n - 1);
      before + Round(p, limits, component, before)
  }

  // Shapes ---------------------------------------------------------------------------

  ghost predicate OriginShaped(p: Program, c: Summary, i: FactId, x: Origin) {
    && x.id == i
    && match i
       case LocalFact(_) => i in LocalOrigins(p, c.id) && x == LocalOrigins(p, c.id)[i]
       case PropagatedOrigin(caller, _, _, locationKind, parameter, path, location) =>
         caller == c.id && x.locationKind == locationKind && x.parameter == parameter
         && x.path == path && x.location == location
       case PropagatedEffect(_, _, _, _, _, _, _, _) => false
  }

  ghost predicate FactsShaped(p: Program, c: Summary, f: Facts) {
    && (forall i :: i in f.effects ==> Shaped(p, c, i, f.effects[i]))
    && (forall i :: i in f.origins ==> OriginShaped(p, c, i, f.origins[i]))
  }

  ghost predicate AllShaped(p: Program, cur: Current) {
    forall s :: s in cur ==> s in p.summaries && FactsShaped(p, p.summaries[s], cur[s])
  }

  lemma TransferShaped(p: Program, limits: Limits, oversized: bool, s: nat, cur: Current)
    requires WellFormed(p) && s in p.summaries
    ensures FactsShaped(p, p.summaries[s], TransferFacts(p, limits, oversized, p.summaries[s], cur))
  {
    hide WellFormed, CallEdges, EffectFold, OriginFold, EdgesReasons, Sends, SendsOrigin, PropagateEffect, PropagateOrigin,
         LocalEffects, LocalOrigins, Shaped, OriginShaped;
    var c := p.summaries[s];
    var f := TransferFacts(p, limits, oversized, c, cur);
    IdMatches(p, s);
    forall i | i in f.effects
      ensures Shaped(p, c, i, f.effects[i])
    {
      TransferHolds(p, limits, oversized, c, cur, i);
      FoldValue(p, CallEdges(p, c), cur, LocalEffects(p, c.id), i);
      EffectShapedStep(p, c, cur, i, f.effects[i]);
    }
    LocalOriginIds(p, c.id);
    OriginFoldSourced(p, CallEdges(p, c), cur, LocalOrigins(p, c.id));
    forall i | i in f.origins
      ensures OriginShaped(p, c, i, f.origins[i])
    {
      OriginShapedStep(p, c, cur, i, f.origins[i]);
    }
  }

  lemma LocalOriginIds(p: Program, s: nat)
    requires WellFormed(p)
    ensures LocalIds(LocalOrigins(p, s))
    ensures forall i :: i in LocalOrigins(p, s) ==> LocalOrigins(p, s)[i].id == i
  {
  }

  lemma EffectShapedStep(p: Program, c: Summary, cur: Current, i: FactId, x: Effect)
    requires WellFormed(p) && c.id in p.summaries && p.summaries[c.id] == c
    requires (i in LocalEffects(p, c.id) && x == LocalEffects(p, c.id)[i])
             || (x.id == i && exists e :: e in CallEdges(p, c) && Sends(p, e, cur, x))
    ensures Shaped(p, c, i, x)
  {
    hide WellFormed, CallEdges, PropagateEffect, Shaped;
    if i in LocalEffects(p, c.id) && x == LocalEffects(p, c.id)[i] {
      LocalShaped(p, c, i);
    } else {
      var e :| e in CallEdges(p, c) && Sends(p, e, cur, x);
      EdgeCaller(p, c, e);
      var j :| j in FactsOf(cur, e.callee.id).effects
               && PropagateEffect(p, e, FactsOf(cur, e.callee.id).effects[j]) == Some(x);
      ImageShaped(p, c, e, FactsOf(cur, e.callee.id).effects[j], x);
    }
  }

  lemma OriginShapedStep(p: Program, c: Summary, cur: Current, i: FactId, x: Origin)
    requires WellFormed(p)
    requires OriginSourced(p, CallEdges(p, c), cur, LocalOrigins(p, c.id), i, x)
    ensures OriginShaped(p, c, i, x)
  {
    hide WellFormed, CallEdges;
    LocalOriginIds(p, c.id);
    if !(i in LocalOrigins(p, c.id) && x == LocalOrigins(p, c.id)[i]) {
      var e :| e in CallEdges(p, c) && SendsOrigin(p, e, cur, x);
      EdgeCaller(p, c, e);
      var y := SentOrigin(p, e, cur, x);
      OriginImageShaped(p, c, e, y);
    }
  }

  lemma SentOrigin(p: Program, e: Edge, cur: Current, x: Origin) returns (y: Origin)
    requires SendsOrigin(p, e, cur, x)
    ensures PropagateOrigin(p, e, y) == x
  {
    var j :| j in FactsOf(cur, e.callee.id).origins && PropagateOrigin(p, e, FactsOf(cur, e.callee.id).origins[j]) == x;
    y := FactsOf(cur, e.callee.id).origins[j];
  }

  lemma OriginImageShaped(p: Program, c: Summary, e: Edge, y: Origin)
    requires e.caller == c
    ensures OriginShaped(p, c, PropagateOrigin(p, e, y).id, PropagateOrigin(p, e, y))
  {
  }

  lemma {:induction false} IterateShaped(p: Program, limits: Limits, component: seq<nat>, cur: Current, n: nat)
    requires WellFormed(p) && Members(p, component) && AllShaped(p, cur)
    ensures AllShaped(p, Iterate(p, limits, component, cur, n))
  {
    hide WellFormed, TransferFacts, FactsShaped;
    if n > 0 {
      IterateShaped(p, limits, component, cur, n - 1);
      var before := Iterate(p, limits, component, cur, n - 1);
      forall s | s in component
        ensures FactsShaped(p, p.summaries[s], Round(p, limits, component, before)[s])
      {
        TransferShaped(p, limits, Oversized(limits, component), s, before);
      }
    }
  }

  // Monotonicity ----------------------------------------------------------------------

  ghost predicate FactsBelow(a: Facts, b: Facts) {
    a.effects.Keys <= b.effects.Keys && a.origins.Keys <= b.origins.Keys && a.reasons <= b.reasons
  }

  ghost predicate Below(a: Current, b: Current) {
    forall s :: FactsBelow(FactsOf(a, s), FactsOf(b, s))
  }

  lemma EffectsGrow(p: Program, c: Summary, a: Current, b: Current)
    requires WellFormed(p) && AllShaped(p, a) && AllShaped(p, b) && Below(a, b)
    ensures AllEffects(p, c, a).Keys <= AllEffects(p, c, b).Keys
  {
    hide WellFormed, CallEdges, EffectFold, LocalEffects, Sends, AllShaped, Below;
    FoldKeeps(p, CallEdges(p, c), b, LocalEffects(p, c.id));
    forall i | i in AllEffects(p, c, a)
      ensures i in AllEffects(p, c, b)
    {
      FoldValue(p, CallEdges(p, c), a, LocalEffects(p, c.id), i);
      if i !in LocalEffects(p, c.id) {
        var x := AllEffects(p, c, a)[i];
        var e :| e in CallEdges(p, c) && Sends(p, e, a, x);
        var x' := SentAgain(p, c, e, a, b, x);
      }
    }
  }

  lemma SentAgain(p: Program, c: Summary, e: Edge, a: Current, b: Current, x: Effect) returns (x': Effect)
    requires WellFormed(p) && AllShaped(p, a) && AllShaped(p, b) && Below(a, b)
    requires e in CallEdges(p, c) && Sends(p, e, a, x)
    ensures Sends(p, e, b, x') && x'.id == x.id
  {
    hide WellFormed, CallEdges, PropagateEffect, Shaped, OriginShaped;
    EdgesStayInUnit(p, c, e);
    var s := e.callee.id;
    var j :| j in FactsOf(a, s).effects && PropagateEffect(p, e, FactsOf(a, s).effects[j]) == Some(x);
    var y := FactsOf(a, s).effects[j];
    assert FactsBelow(FactsOf(a, s), FactsOf(b, s));
    var y' := FactsOf(b, s).effects[j];
    assert Shaped(p, e.callee, j, y) && Shaped(p, e.callee, j, y');
    ShapedSame(p, e.callee, e, j, y, y');
    x' := PropagateEffect(p, e, y').value;
  }

  lemma ShapedSame(p: Program, c: Summary, e: Edge, j: FactId, y: Effect, y': Effect)
    requires Shaped(p, c, j, y) && Shaped(p, c, j, y')
    ensures PropagateEffect(p, e, y).Some? <==> PropagateEffect(p, e, y').Some?
    ensures PropagateEffect(p, e, y).Some? ==> PropagateEffect(p, e, y).value.id == PropagateEffect(p, e, y').value.id
  {
    SameIdentityTravelsAlike(p, c, e, y, y');
  }

  lemma OriginsGrow(p: Program, c: Summary, a: Current, b: Current)
    requires WellFormed(p) && AllShaped(p, a) && AllShaped(p, b) && Below(a, b)
    ensures AllOrigins(p, c, a).Keys <= AllOrigins(p, c, b).Keys
  {
    hide WellFormed, CallEdges, OriginFold, LocalOrigins, SendsOrigin, AllShaped, Below, ReturnsCall, LocalIds;
    var m := LocalOrigins(p, c.id);
    LocalOriginIds(p, c.id);
    OriginFoldSourced(p, CallEdges(p, c), a, m);
    OriginFoldSourced(p, CallEdges(p, c), b, m);
    forall i | i in AllOrigins(p, c, a)
      ensures i in AllOrigins(p, c, b)
    {
      var x := AllOrigins(p, c, a)[i];
      assert OriginSourced(p, CallEdges(p, c), a, m, i, x);
      if i !in m {
        var e :| e in CallEdges(p, c) && ReturnsCall(m, e.site.id) && SendsOrigin(p, e, a, x);
        var x' := OriginSentAgain(p, c, e, a, b, x);
      }
    }
  }

  lemma OriginSentAgain(p: Program, c: Summary, e: Edge, a: Current, b: Current, x: Origin) returns (x': Origin)
    requires WellFormed(p) && AllShaped(p, a) && AllShaped(p, b) && Below(a, b)
    requires e in CallEdges(p, c) && SendsOrigin(p, e, a, x)
    ensures SendsOrigin(p, e, b, x') && x'.id == x.id
  {
    hide WellFormed, CallEdges, Shaped, OriginShaped, PropagateOrigin;
    EdgesStayInUnit(p, c, e);
    var s := e.callee.id;
    var j :| j in FactsOf(a, s).origins && PropagateOrigin(p, e, FactsOf(a, s).origins[j]) == x;
    assert FactsBelow(FactsOf(a, s), FactsOf(b, s));
    var y, y' := FactsOf(a, s).origins[j], FactsOf(b, s).origins[j];
    assert OriginShaped(p, e.callee, j, y) && OriginShaped(p, e.callee, j, y');
    OriginSameIdentity(p, e.callee, e, j, y, y');
    x' := PropagateOrigin(p, e, y');
  }

  lemma OriginSameIdentity(p: Program, c: Summary, e: Edge, j: FactId, y: Origin, y': Origin)
    requires OriginShaped(p, c, j, y) && OriginShaped(p, c, j, y')
    ensures PropagateOrigin(p, e, y).id == PropagateOrigin(p, e, y').id
  {
  }

  lemma {:induction false} ReasonsGrow(p: Program, edges: seq<Edge>, a: Current, b: Current)
    requires Below(a, b)
    ensures EdgesReasons(p, edges, a) <= EdgesReasons(p, edges, b)
  {
    hide BindingReasons;
    if edges != [] {
      var n := |edges| - 1;
      ReasonsGrow(p, edges[..n], a, b);
      assert FactsBelow(FactsOf(a, edges[n].callee.id), FactsOf(b, edges[n].callee.id));
    }
  }

  // The transfer is monotone in identities and reasons while the effect cap is silent.
  lemma TransferMonotone(p: Program, limits: Limits, oversized: bool, c: Summary, a: Current, b: Current)
    requires WellFormed(p) && AllShaped(p, a) && AllShaped(p, b) && Below(a, b)
    requires |AllEffects(p, c, b)| <= limits.maxEffects
    ensures FactsBelow(TransferFacts(p, limits, oversized, c, a), TransferFacts(p, limits, oversized, c, b))
  {
    hide WellFormed, AllEffects, AllOrigins, SitesReasons, EdgesReasons, AllShaped, Below, CallEdges;
    EffectsGrow(p, c, a, b);
    OriginsGrow(p, c, a, b);
    ReasonsGrow(p, CallEdges(p, c), a, b);
    KeysCount(AllEffects(p, c, a), AllEffects(p, c, b));
  }

  lemma KeysCount(a: map<FactId, Effect>, b: map<FactId, Effect>)
    requires a.Keys <= b.Keys
    ensures |a| <= |b|
  {
    SubsetSize(a.Keys, b.Keys);
    assert |a| == |a.Keys| && |b| == |b.Keys|;
  }

  // The effect cap is silent in the next round.
  ghost predicate CapSilent(p: Program, limits: Limits, component: seq<nat>, cur: Current)
    requires WellFormed(p) && Members(p, component)
  {
    forall s :: s in component ==> |AllEffects(p, p.summaries[s], cur)| <= limits.maxEffects
  }

  // A component about to be iterated: members hold their local facts.
  ghost predicate Starting(p: Program, component: seq<nat>, cur: Current)
    requires Members(p, component)
  {
    && AllShaped(p, cur)
    && (forall s :: s in component ==> s in cur && cur[s] == Facts(LocalEffects(p, s), LocalOrigins(p, s), p.summaries[s].localReasons))
  }

  lemma LocalBelow(p: Program, limits: Limits, oversized: bool, c: Summary, cur: Current)
    requires WellFormed(p) && |AllEffects(p, c, cur)| <= limits.maxEffects
    ensures FactsBelow(Facts(LocalEffects(p, c.id), LocalOrigins(p, c.id), c.localReasons),
                       TransferFacts(p, limits, oversized, c, cur))
  {
    hide WellFormed, CallEdges, EffectFold, OriginFold, SitesReasons, EdgesReasons, Sends;
    LocalOriginIds(p, c.id);
    FoldKeeps(p, CallEdges(p, c), cur, LocalEffects(p, c.id));
    OriginFoldSourced(p, CallEdges(p, c), cur, LocalOrigins(p, c.id));
  }

  lemma MemberGrows(p: Program, limits: Limits, component: seq<nat>, earlier: Current, before: Current, s: nat)
    requires WellFormed(p) && Members(p, component) && s in component
    requires AllShaped(p, earlier) && AllShaped(p, before) && Below(earlier, before)
    requires before == earlier + Round(p, limits, component, earlier)
    requires CapSilent(p, limits, component, before)
    ensures FactsBelow(FactsOf(before, s), FactsOf(before + Round(p, limits, component, before), s))
  {
    hide WellFormed, TransferFacts, AllEffects, AllShaped, FactsBelow, Below;
    TransferMonotone(p, limits, Oversized(limits, component), p.summaries[s], earlier, before);
  }

  lemma FirstGrows(p: Program, limits: Limits, component: seq<nat>, cur: Current, s: nat)
    requires WellFormed(p) && Members(p, component) && Starting(p, component, cur) && s in component
    requires CapSilent(p, limits, component, cur)
    ensures FactsBelow(FactsOf(cur, s), FactsOf(cur + Round(p, limits, component, cur), s))
  {
    hide WellFormed, TransferFacts, AllEffects, AllShaped, FactsBelow, Below, LocalEffects, LocalOrigins;
    IdMatches(p, s);
    LocalBelow(p, limits, Oversized(limits, component), p.summaries[s], cur);
  }

  lemma BelowRefl(f: Facts)
    ensures FactsBelow(f, f)
  {
  }

  // Where every member grows, the round does.
  lemma RoundGrows(p: Program, limits: Limits, component: seq<nat>, before: Current)
    requires WellFormed(p) && Members(p, component)
    requires forall s :: s in component ==> FactsBelow(FactsOf(before, s), FactsOf(before + Round(p, limits, component, before), s))
    ensures Below(before, before + Round(p, limits, component, before))
  {
    hide WellFormed, TransferFacts, FactsBelow;
    forall s | s !in component
      ensures FactsBelow(FactsOf(before, s), FactsOf(before + Round(p, limits, component, before), s))
    {
      BelowRefl(FactsOf(before, s));
    }
  }

  // Identities and reasons only grow from each iterate to the next.
  lemma {:induction false} IteratesGrow(p: Program, limits: Limits, component: seq<nat>, cur: Current, n: nat)
    requires WellFormed(p) && Members(p, component) && Starting(p, component, cur)
    requires forall m :: 0 <= m <= n ==> CapSilent(p, limits, component, Iterate(p, limits, component, cur, m))
    ensures Below(Iterate(p, limits, component, cur, n), Iterate(p, limits, component, cur, n + 1))
  {
    hide WellFormed, Round, AllShaped, FactsBelow, Below, CapSilent, FactsOf;
    assert AllShaped(p, cur);
    hide Starting;
    var before := Iterate(p, limits, component, cur, n);
    if n > 0 {
      IteratesGrow(p, limits, component, cur, n - 1);
      IterateShaped(p, limits, component, cur, n - 1);
      IterateShaped(p, limits, component, cur, n);
    }
    forall s | s in component
      ensures FactsBelow(FactsOf(before, s), FactsOf(before + Round(p, limits, component, before), s))
    {
      if n == 0 {
        FirstGrows(p, limits, component, cur, s);
      } else {
        MemberGrows(p, limits, component, Iterate(p, limits, component, cur, n - 1), before, s);
      }
    }
    RoundGrows(p, limits, component, before);
  }
}
