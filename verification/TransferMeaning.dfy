// What a transfer computes, independently of the order in which it loops: which
// facts it holds, where each came from, and what an empty reason set rules out.
module TransferMeaning {
  import opened Graphs
  import opened Options
  import opened Summaries
  import opened Transfer

  // Some current effect of e's callee crosses e as x.
  ghost predicate Sends(p: Program, e: Edge, cur: Current, x: Effect) {
    exists j :: j in FactsOf(cur, e.callee.id).effects
                && PropagateEffect(p, e, FactsOf(cur, e.callee.id).effects[j]) == Some(x)
  }

  lemma {:induction false} AbsorbValue(p: Program, e: Edge, ys: seq<Effect>, m: map<FactId, Effect>, i: FactId)
    requires i in AbsorbEffects(p, e, ys, m)
    ensures (i in m && AbsorbEffects(p, e, ys, m)[i] == m[i])
            || exists y :: y in ys && PropagateEffect(p, e, y) == Some(AbsorbEffects(p, e, ys, m)[i])
                           && AbsorbEffects(p, e, ys, m)[i].id == i
  {
    hide PropagateEffect;
    if ys != [] {
      var n := |ys| - 1;
      assert ys[n] in ys && forall y :: y in ys[..n] ==> y in ys;
      if i in AbsorbEffects(p, e, ys[..n], m) {
        AbsorbValue(p, e, ys[..n], m, i);
      }
    }
  }

  lemma {:induction false} AbsorbKeeps(p: Program, e: Edge, ys: seq<Effect>, m: map<FactId, Effect>)
    ensures m.Keys <= AbsorbEffects(p, e, ys, m).Keys
    ensures forall y :: y in ys && PropagateEffect(p, e, y).Some? ==>
                          PropagateEffect(p, e, y).value.id in AbsorbEffects(p, e, ys, m)
  {
    hide PropagateEffect;
    if ys != [] {
      var n := |ys| - 1;
      AbsorbKeeps(p, e, ys[..n], m);
      assert ys == ys[..n] + [ys[n]];
    }
  }

  lemma {:induction false} FoldValue(p: Program, edges: seq<Edge>, cur: Current, m: map<FactId, Effect>, i: FactId)
    requires WellFormed(p) && i in EffectFold(p, edges, cur, m)
    ensures (i in m && EffectFold(p, edges, cur, m)[i] == m[i])
            || (EffectFold(p, edges, cur, m)[i].id == i
                && exists e :: e in edges && Sends(p, e, cur, EffectFold(p, edges, cur, m)[i]))
  {
    hide WellFormed, PropagateEffect, Sends, AbsorbEffects;
    if edges != [] {
      var n := |edges| - 1;
      var e := edges[n];
      var before := EffectFold(p, edges[..n], cur, m);
      var ys := Effects(p, FactsOf(cur, e.callee.id).effects);
      AbsorbValue(p, e, ys, before, i);
      if y :| y in ys && PropagateEffect(p, e, y) == Some(EffectFold(p, edges, cur, m)[i])
              && EffectFold(p, edges, cur, m)[i].id == i {
        SendsIntro(p, e, cur, y, EffectFold(p, edges, cur, m)[i]);
        assert e in edges;
      } else {
        FoldValue(p, edges[..n], cur, m, i);
      }
    }
  }

  lemma SendsIntro(p: Program, e: Edge, cur: Current, y: Effect, x: Effect)
    requires WellFormed(p)
    requires y in Effects(p, FactsOf(cur, e.callee.id).effects) && PropagateEffect(p, e, y) == Some(x)
    ensures Sends(p, e, cur, x)
  {
  }

  lemma {:induction false} FoldKeeps(p: Program, edges: seq<Edge>, cur: Current, m: map<FactId, Effect>)
    requires WellFormed(p)
    ensures m.Keys <= EffectFold(p, edges, cur, m).Keys
    ensures forall e, x :: e in edges && Sends(p, e, cur, x) ==> x.id in EffectFold(p, edges, cur, m)
  {
    hide WellFormed, PropagateEffect, Sends, AbsorbEffects;
    if edges != [] {
      var n := |edges| - 1;
      var last := edges[n];
      var before := EffectFold(p, edges[..n], cur, m);
      var ys := Effects(p, FactsOf(cur, last.callee.id).effects);
      FoldKeeps(p, edges[..n], cur, m);
      AbsorbKeeps(p, last, ys, before);
      assert edges == edges[..n] + [last];
      forall e, x | e in edges && Sends(p, e, cur, x)
        ensures x.id in EffectFold(p, edges, cur, m)
      {
        if e == last {
          var y := SendsElim(p, e, cur, x);
        }
      }
    }
  }

  lemma SendsElim(p: Program, e: Edge, cur: Current, x: Effect) returns (y: Effect)
    requires WellFormed(p) && Sends(p, e, cur, x)
    ensures y in Effects(p, FactsOf(cur, e.callee.id).effects) && PropagateEffect(p, e, y) == Some(x)
  {
    var j :| j in FactsOf(cur, e.callee.id).effects
             && PropagateEffect(p, e, FactsOf(cur, e.callee.id).effects[j]) == Some(x);
    y := FactsOf(cur, e.callee.id).effects[j];
  }

  // Origins ---------------------------------------------------------------------

  ghost predicate SendsOrigin(p: Program, e: Edge, cur: Current, x: Origin) {
    exists j :: j in FactsOf(cur, e.callee.id).origins
                && PropagateOrigin(p, e, FactsOf(cur, e.callee.id).origins[j]) == x
  }

  lemma {:induction false} AbsorbOriginsValue(p: Program, e: Edge, ys: seq<Origin>, m: map<FactId, Origin>, i: FactId)
    requires i in AbsorbOrigins(p, e, ys, m)
    ensures (i in m && AbsorbOrigins(p, e, ys, m)[i] == m[i])
            || exists y :: y in ys && PropagateOrigin(p, e, y) == AbsorbOrigins(p, e, ys, m)[i]
                           && AbsorbOrigins(p, e, ys, m)[i].id == i
  {
    hide PropagateOrigin;
    if ys != [] {
      var n := |ys| - 1;
      assert ys[n] in ys && forall y :: y in ys[..n] ==> y in ys;
      if i in AbsorbOrigins(p, e, ys[..n], m) {
        AbsorbOriginsValue(p, e, ys[..n], m, i);
      }
    }
  }

  lemma {:induction false} AbsorbOriginsKeeps(p: Program, e: Edge, ys: seq<Origin>, m: map<FactId, Origin>)
    ensures m.Keys <= AbsorbOrigins(p, e, ys, m).Keys
    ensures forall y :: y in ys ==> PropagateOrigin(p, e, y).id in AbsorbOrigins(p, e, ys, m)
  {
    hide PropagateOrigin;
    if ys != [] {
      var n := |ys| - 1;
      AbsorbOriginsKeeps(p, e, ys[..n], m);
      assert ys == ys[..n] + [ys[n]];
    }
  }

  // Every origin held is a local one or the image of a callee origin; images are
  // never call results, so what a summary returns is fixed by its local origins.
  ghost predicate OriginSourced(p: Program, edges: seq<Edge>, cur: Current, m: map<FactId, Origin>, i: FactId, x: Origin) {
    (i in m && x == m[i]) || (x.id == i && exists e :: e in edges && ReturnsCall(m, e.site.id) && SendsOrigin(p, e, cur, x))
  }

  ghost predicate LocalIds(m: map<FactId, Origin>) {
    forall i :: i in m ==> i.LocalFact?
  }

  lemma MarkerIsLocal(p: Program, edges: seq<Edge>, cur: Current, m: map<FactId, Origin>, r: map<FactId, Origin>, site: nat)
    requires LocalIds(m) && m.Keys <= r.Keys
    requires forall i :: i in r ==> OriginSourced(p, edges, cur, m, i, r[i])
    ensures ReturnsCall(r, site) <==> ReturnsCall(m, site)
  {
    forall i | i in r
      ensures (i in m && r[i] == m[i]) || !r[i].kind.CallResult?
      ensures i in m ==> r[i] == m[i]
    {
      assert OriginSourced(p, edges, cur, m, i, r[i]);
      if !(i in m && r[i] == m[i]) {
        var e :| e in edges && SendsOrigin(p, e, cur, r[i]);
        assert r[i].id.PropagatedOrigin?;
      }
    }
    if ReturnsCall(m, site) {
      var i :| i in m && m[i].kind.CallResult? && m[i].callsite == Some(site);
      assert r[i] == m[i];
    }
  }

  lemma {:induction false} OriginFoldSourced(p: Program, edges: seq<Edge>, cur: Current, m: map<FactId, Origin>)
    requires WellFormed(p) && LocalIds(m)
    ensures m.Keys <= OriginFold(p, edges, cur, m).Keys
    ensures forall i :: i in OriginFold(p, edges, cur, m) ==>
                          OriginSourced(p, edges, cur, m, i, OriginFold(p, edges, cur, m)[i])
    ensures forall e, x :: e in edges && ReturnsCall(m, e.site.id) && SendsOrigin(p, e, cur, x) ==>
                             x.id in OriginFold(p, edges, cur, m)
  {
    hide WellFormed, PropagateOrigin, SendsOrigin, AbsorbOrigins, ReturnsCall, OriginSourced, LocalIds;
    if edges == [] {
      SourcedLocally(p, cur, m);
    } else {
      var n := |edges| - 1;
      var last := edges[n];
      assert edges == edges[..n] + [last];
      var before := OriginFold(p, edges[..n], cur, m);
      OriginFoldSourced(p, edges[..n], cur, m);
      MarkerIsLocal(p, edges[..n], cur, m, before, last.site.id);
      OriginStep(p, edges[..n], last, cur, m, before);
    }
  }

  lemma SourcedLocally(p: Program, cur: Current, m: map<FactId, Origin>)
    ensures forall i :: i in m ==> OriginSourced(p, [], cur, m, i, m[i])
  {
  }

  lemma OriginStep(p: Program, edges: seq<Edge>, last: Edge, cur: Current, m: map<FactId, Origin>, before: map<FactId, Origin>)
    requires WellFormed(p)
    requires m.Keys <= before.Keys
    requires forall i :: i in before ==> OriginSourced(p, edges, cur, m, i, before[i])
    requires forall e, x :: e in edges && ReturnsCall(m, e.site.id) && SendsOrigin(p, e, cur, x) ==> x.id in before
    requires ReturnsCall(before, last.site.id) <==> ReturnsCall(m, last.site.id)
    ensures var after := if ReturnsCall(before, last.site.id) then
                           AbsorbOrigins(p, last, Origins(p, FactsOf(cur, last.callee.id).origins), before)
                         else before;
            && m.Keys <= after.Keys
            && (forall i :: i in after ==> OriginSourced(p, edges + [last], cur, m, i, after[i]))
            && (forall e, x :: e in edges + [last] && ReturnsCall(m, e.site.id) && SendsOrigin(p, e, cur, x) ==> x.id in after)
  {
    hide WellFormed, PropagateOrigin, AbsorbOrigins, ReturnsCall;
    var ys := Origins(p, FactsOf(cur, last.callee.id).origins);
    var after := if ReturnsCall(before, last.site.id) then AbsorbOrigins(p, last, ys, before) else before;
    AbsorbOriginsKeeps(p, last, ys, before);
    assert forall e :: e in edges ==> e in edges + [last];
    assert last in edges + [last];
    forall i | i in after
      ensures OriginSourced(p, edges + [last], cur, m, i, after[i])
    {
      if i in before && after[i] == before[i] {
        assert OriginSourced(p, edges, cur, m, i, before[i]);
      } else {
        AbsorbOriginsValue(p, last, ys, before, i);
        var y :| y in ys && PropagateOrigin(p, last, y) == after[i] && after[i].id == i;
        assert SendsOrigin(p, last, cur, after[i]);
      }
    }
  }

  // Reasons ---------------------------------------------------------------------

  lemma {:induction false} NoBindingReasons(p: Program, e: Edge, n: nat)
    ensures BindingReasons(p, e, n) == {} <==> forall i :: 0 <= i < n ==> ArgumentOf(p, e, i).Some? && ArgumentOf(p, e, i).value.complete
  {
    if n > 0 {
      NoBindingReasons(p, e, n - 1);
      var last := ArgumentOf(p, e, n - 1);
      assert BindingReasons(p, e, n) == {} <==> BindingReasons(p, e, n - 1) == {} && last.Some? && last.value.complete;
    }
  }

  // Every parameter of the callee is bound completely, and the callee is complete.
  ghost predicate EdgeComplete(p: Program, e: Edge, cur: Current) {
    && (forall i :: 0 <= i < |e.callee.parameters| ==> ArgumentOf(p, e, i).Some? && ArgumentOf(p, e, i).value.complete)
    && FactsOf(cur, e.callee.id).reasons == {}
  }

  lemma {:induction false} NoEdgesReasons(p: Program, edges: seq<Edge>, cur: Current)
    ensures EdgesReasons(p, edges, cur) == {} <==> forall e :: e in edges ==> EdgeComplete(p, e, cur)
  {
    if edges != [] {
      var n := |edges| - 1;
      NoEdgesReasons(p, edges[..n], cur);
      NoBindingReasons(p, edges[n], |edges[n].callee.parameters|);
      assert edges == edges[..n] + [edges[n]];
      assert EdgeReasons(p, edges[n], cur) == {} <==> EdgeComplete(p, edges[n], cur);
    }
  }

  lemma {:induction false} NoTargetsReasons(p: Program, c: Summary, targets: seq<Target>)
    ensures TargetsReasons(p, c, targets) == {} <==> forall t :: t in targets ==> |Bodies(p, c, t)| == 1
  {
    hide Bodies;
    if targets != [] {
      var n := |targets| - 1;
      NoTargetsReasons(p, c, targets[..n]);
      assert targets == targets[..n] + [targets[n]];
      assert TargetReasons(p, c, targets[n]) == {} <==> |Bodies(p, c, targets[n])| == 1;
    }
  }

  ghost predicate SiteResolved(p: Program, c: Summary, site: Site) {
    && site.targetSetComplete && TargetsOf(p, site) != []
    && (forall t :: t in TargetsOf(p, site) ==> |Bodies(p, c, t)| == 1)
  }

  lemma {:induction false} NoSitesReasons(p: Program, c: Summary, sites: seq<Site>)
    ensures SitesReasons(p, c, sites) == {} <==> forall s :: s in sites ==> SiteResolved(p, c, s)
  {
    hide Bodies, TargetsOf;
    if sites != [] {
      var n := |sites| - 1;
      NoSitesReasons(p, c, sites[..n]);
      NoTargetsReasons(p, c, TargetsOf(p, sites[n]));
      assert sites == sites[..n] + [sites[n]];
      assert SiteReason(p, sites[n]) + TargetsReasons(p, c, TargetsOf(p, sites[n])) == {} <==> SiteResolved(p, c, sites[n]);
    }
  }

  // The call may enter one body and no other.
  ghost predicate OneBody(p: Program, c: Summary, symbol: nat) {
    (exists s :: Enters(p, c, symbol, s)) && forall s, t :: Enters(p, c, symbol, s) && Enters(p, c, symbol, t) ==> s == t
  }

  // The site's targets are all known, there is one, and each has exactly one body.
  ghost predicate SiteComplete(p: Program, c: Summary, site: Site) {
    && site.targetSetComplete && (exists t :: TargetAt(p, site, t))
    && (forall t :: TargetAt(p, site, t) ==> OneBody(p, c, t.symbol))
  }

  lemma SiteResolvedIff(p: Program, c: Summary, site: Site)
    ensures SiteResolved(p, c, site) <==> SiteComplete(p, c, site)
  {
    hide Bodies, Enters;
    assert forall t :: t in TargetsOf(p, site) <==> TargetAt(p, site, t);
    assert TargetsOf(p, site) != [] ==> TargetsOf(p, site)[0] in TargetsOf(p, site);
    hide TargetsOf, TargetAt;
    forall t | t in TargetsOf(p, site)
      ensures |Bodies(p, c, t)| == 1 <==> OneBody(p, c, t.symbol)
    {
      BodiesExact(p, c, t);
      assert |Bodies(p, c, t)| > 0 ==> Bodies(p, c, t)[0] in Bodies(p, c, t);
    }
  }

  lemma OwnSitesAre(p: Program, c: Summary, site: Site)
    ensures site in OwnerSites(p, c) <==> OwnSite(p, c, site)
  {
  }

  // Everything that must hold for a transfer to report no reason at all.
  ghost predicate LocallyComplete(p: Program, limits: Limits, oversized: bool, c: Summary, cur: Current)
    requires WellFormed(p)
  {
    && c.localReasons == {} && !oversized
    && (forall site :: OwnSite(p, c, site) ==> SiteComplete(p, c, site))
    && (forall e :: e in CallEdges(p, c) ==> EdgeComplete(p, e, cur))
    && |AllEffects(p, c, cur)| <= limits.maxEffects
  }

  // A transfer reports complete exactly when nothing was omitted for any listed cause.
  lemma CompleteTransferIff(p: Program, limits: Limits, oversized: bool, c: Summary, cur: Current)
    requires WellFormed(p)
    ensures TransferFacts(p, limits, oversized, c, cur).reasons == {} <==> LocallyComplete(p, limits, oversized, c, cur)
  {
    hide WellFormed, OwnerSites, OwnSite, CallEdges, SiteComplete, SiteResolved, EdgeComplete, AllEffects, AllOrigins, Truncate,
         SitesReasons, EdgesReasons;
    NoSitesReasons(p, c, OwnerSites(p, c));
    NoEdgesReasons(p, CallEdges(p, c), cur);
    forall site
      ensures site in OwnerSites(p, c) <==> OwnSite(p, c, site)
      ensures SiteResolved(p, c, site) <==> SiteComplete(p, c, site)
    {
      OwnSitesAre(p, c, site);
      SiteResolvedIff(p, c, site);
    }
    var r := UncappedReasons(p, oversized, c, cur);
    assert StartReasons(c, oversized) == {} <==> c.localReasons == {} && !oversized;
    assert r + {SummaryEffectCap} != {};
  }

  // Why a summary is incomplete -----------------------------------------------------

  lemma {:induction false} BindingReasonsAre(p: Program, e: Edge, n: nat)
    ensures MissingArgumentBinding in BindingReasons(p, e, n) <==> exists i: nat :: i < n && ArgumentOf(p, e, i).None?
    ensures IncompleteArgumentBinding in BindingReasons(p, e, n)
            <==> exists i: nat :: i < n && ArgumentOf(p, e, i).Some? && !ArgumentOf(p, e, i).value.complete
    ensures BindingReasons(p, e, n) <= {MissingArgumentBinding, IncompleteArgumentBinding}
  {
    if n > 0 {
      BindingReasonsAre(p, e, n - 1);
      var last := ArgumentOf(p, e, n - 1);
      assert last.None? <==> KeyOf(e, n - 1) !in p.bindings;
      assert last.Some? ==> last.value == p.bindings[KeyOf(e, n - 1)];
    }
  }

  lemma {:induction false} EdgesReasonsAre(p: Program, edges: seq<Edge>, cur: Current, r: Reason)
    ensures r in EdgesReasons(p, edges, cur) <==> exists e :: e in edges && r in EdgeReasons(p, e, cur)
  {
    hide EdgeReasons;
    if edges != [] {
      var n := |edges| - 1;
      EdgesReasonsAre(p, edges[..n], cur, r);
      assert edges == edges[..n] + [edges[n]];
    }
  }

  lemma {:induction false} TargetsReasonsAre(p: Program, c: Summary, targets: seq<Target>, r: Reason)
    ensures r in TargetsReasons(p, c, targets) <==> exists t :: t in targets && r in TargetReasons(p, c, t)
  {
    hide TargetReasons;
    if targets != [] {
      var n := |targets| - 1;
      TargetsReasonsAre(p, c, targets[..n], r);
      assert targets == targets[..n] + [targets[n]];
    }
  }

  lemma {:induction false} SitesReasonsAre(p: Program, c: Summary, sites: seq<Site>, r: Reason)
    ensures r in SitesReasons(p, c, sites)
            <==> exists s :: s in sites && (r in SiteReason(p, s) || r in TargetsReasons(p, c, TargetsOf(p, s)))
  {
    hide SiteReason, TargetsReasons, TargetsOf;
    if sites != [] {
      var n := |sites| - 1;
      SitesReasonsAre(p, c, sites[..n], r);
      assert sites == sites[..n] + [sites[n]];
    }
  }

  // What a call site gives cause for.
  ghost predicate SiteCause(p: Program, c: Summary, site: Site, r: Reason) {
    match r
    case UnknownCallTarget =>
      || !site.targetSetComplete || (forall t :: !TargetAt(p, site, t))
      || exists t :: TargetAt(p, site, t) && forall s :: !Enters(p, c, t.symbol, s)
    case ExternalCalleeBody => exists t :: TargetAt(p, site, t) && forall s :: !Enters(p, c, t.symbol, s)
    case MultipleCalleeBodies =>
      exists t :: TargetAt(p, site, t) && exists s, u :: Enters(p, c, t.symbol, s) && Enters(p, c, t.symbol, u) && s != u
    case _ => false
  }

  // What a call edge gives cause for.
  ghost predicate EdgeCause(p: Program, e: Edge, cur: Current, r: Reason) {
    match r
    case MissingArgumentBinding => exists i: nat :: i < |e.callee.parameters| && ArgumentOf(p, e, i).None?
    case IncompleteArgumentBinding =>
      exists i: nat :: i < |e.callee.parameters| && ArgumentOf(p, e, i).Some? && !ArgumentOf(p, e, i).value.complete
    case CalleeIncomplete => FactsOf(cur, e.callee.id).reasons != {}
    case _ => false
  }

  lemma EdgeCauses(p: Program, e: Edge, cur: Current, r: Reason)
    ensures r in EdgeReasons(p, e, cur) <==> EdgeCause(p, e, cur, r)
  {
    hide FactsOf, ArgumentOf, BindingReasons;
    BindingReasonsAre(p, e, |e.callee.parameters|);
  }

  lemma TargetCauses(p: Program, c: Summary, t: Target, r: Reason)
    ensures r in TargetReasons(p, c, t)
            <==> match r
                 case UnknownCallTarget => forall s :: !Enters(p, c, t.symbol, s)
                 case ExternalCalleeBody => forall s :: !Enters(p, c, t.symbol, s)
                 case MultipleCalleeBodies => exists s, u :: Enters(p, c, t.symbol, s) && Enters(p, c, t.symbol, u) && s != u
                 case _ => false
  {
    hide Bodies, Enters;
    BodiesExact(p, c, t);
    assert |Bodies(p, c, t)| > 0 ==> Bodies(p, c, t)[0] in Bodies(p, c, t);
  }

  lemma SiteCauses(p: Program, c: Summary, site: Site, r: Reason)
    ensures r in SiteReason(p, site) || r in TargetsReasons(p, c, TargetsOf(p, site)) <==> SiteCause(p, c, site, r)
  {
    hide Enters, TargetsReasons, TargetReasons;
    var targets := TargetsOf(p, site);
    assert forall t :: t in targets <==> TargetAt(p, site, t);
    assert targets != [] ==> targets[0] in targets;
    hide TargetsOf, TargetAt;
    TargetsReasonsAre(p, c, targets, r);
    forall t: Target
      ensures r in TargetReasons(p, c, t)
              <==> match r
                   case UnknownCallTarget => forall s :: !Enters(p, c, t.symbol, s)
                   case ExternalCalleeBody => forall s :: !Enters(p, c, t.symbol, s)
                   case MultipleCalleeBodies => exists s, u :: Enters(p, c, t.symbol, s) && Enters(p, c, t.symbol, u) && s != u
                   case _ => false
    {
      TargetCauses(p, c, t, r);
    }
  }

  // A transfer reports a reason exactly when there is cause for it: the analyzer gave it, the
  // component is too large, a site or an edge of the function gives cause, or there are more effects
  // than the cap allows.
  lemma ReasonsHaveCauses(p: Program, limits: Limits, oversized: bool, c: Summary, cur: Current, r: Reason)
    requires WellFormed(p)
    ensures r in TransferFacts(p, limits, oversized, c, cur).reasons
            <==> || r in c.localReasons
                 || (r == SccSizeCap && oversized)
                 || (exists site :: OwnSite(p, c, site) && SiteCause(p, c, site, r))
                 || (exists e :: IsEdge(p, c, e) && EdgeCause(p, e, cur, r))
                 || (r == SummaryEffectCap && |AllEffects(p, c, cur)| > limits.maxEffects)
  {
    hide WellFormed, OwnerSites, OwnSite, CallEdges, IsEdge, AllEffects, AllOrigins, Truncate, SitesReasons, EdgesReasons,
         SiteReason, TargetsReasons, EdgeReasons, SiteCause, EdgeCause, TargetsOf;
    SitesReasonsAre(p, c, OwnerSites(p, c), r);
    EdgesReasonsAre(p, CallEdges(p, c), cur, r);
    forall site
      ensures site in OwnerSites(p, c) <==> OwnSite(p, c, site)
      ensures r in SiteReason(p, site) || r in TargetsReasons(p, c, TargetsOf(p, site)) <==> SiteCause(p, c, site, r)
    {
      OwnSitesAre(p, c, site);
      SiteCauses(p, c, site, r);
    }
    forall e
      ensures e in CallEdges(p, c) <==> IsEdge(p, c, e)
      ensures r in EdgeReasons(p, e, cur) <==> EdgeCause(p, e, cur, r)
    {
      EdgesAreEdges(p, c, e);
      EdgeCauses(p, e, cur, r);
    }
  }

  // Dependence -------------------------------------------------------------------

  ghost predicate AgreeOn(cur: Current, cur': Current, edges: seq<Edge>) {
    forall e :: e in edges ==> FactsOf(cur, e.callee.id) == FactsOf(cur', e.callee.id)
  }

  lemma {:induction false} FoldsDependOnCallees(p: Program, edges: seq<Edge>, cur: Current, cur': Current,
                                                m: map<FactId, Effect>, o: map<FactId, Origin>)
    requires WellFormed(p) && AgreeOn(cur, cur', edges)
    ensures EffectFold(p, edges, cur, m) == EffectFold(p, edges, cur', m)
    ensures OriginFold(p, edges, cur, o) == OriginFold(p, edges, cur', o)
    ensures EdgesReasons(p, edges, cur) == EdgesReasons(p, edges, cur')
  {
    hide WellFormed, FactsOf, AbsorbEffects, AbsorbOrigins, ReturnsCall, BindingReasons, AgreeOn, Effects, Origins;
    if edges != [] {
      var n := |edges| - 1;
      AgreeSplit(cur, cur', edges, n);
      FoldsDependOnCallees(p, edges[..n], cur, cur', m, o);
    }
  }

  lemma AgreeSplit(cur: Current, cur': Current, edges: seq<Edge>, n: nat)
    requires AgreeOn(cur, cur', edges) && n < |edges|
    ensures AgreeOn(cur, cur', edges[..n])
    ensures FactsOf(cur, edges[n].callee.id) == FactsOf(cur', edges[n].callee.id)
  {
  }

  // A transfer reads nothing but the facts of the caller's direct callees.
  lemma TransferDependsOnCallees(p: Program, limits: Limits, oversized: bool, c: Summary, cur: Current, cur': Current)
    requires WellFormed(p) && AgreeOn(cur, cur', CallEdges(p, c))
    ensures TransferFacts(p, limits, oversized, c, cur) == TransferFacts(p, limits, oversized, c, cur')
  {
    hide WellFormed, EffectFold, OriginFold, EdgesReasons, AgreeOn, CallEdges, LocalEffects, LocalOrigins;
    FoldsDependOnCallees(p, CallEdges(p, c), cur, cur', LocalEffects(p, c.id), LocalOrigins(p, c.id));
  }
}
