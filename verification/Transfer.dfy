// One transfer of the summary solver: the facts of a caller recomputed from the
// current facts of its callees.
module Transfer {
  import opened Graphs
  import opened Options
  import opened Summaries

  // Current facts of one summary: tuples sorted by identity are kept as maps,
  // whose order of traversal is the digest order of their keys.
  datatype Facts = Facts(effects: map<FactId, Effect>, origins: map<FactId, Origin>, reasons: set<Reason>)

  type Current = map<nat, Facts>

  function FactsOf(cur: Current, s: nat): Facts {
    if s in cur then cur[s] else Facts(map[], map[], {})
  }

  // Traversal order -----------------------------------------------------------

  ghost predicate Injective(rank: FactId -> nat) {
    forall a, b :: rank(a) == rank(b) ==> a == b
  }

  lemma FirstExists(ids: set<FactId>, rank: FactId -> nat)
    requires ids != {}
    ensures exists m :: m in ids && forall x :: x in ids ==> rank(m) <= rank(x)
  {
    var ranks := set i | i in ids :: rank(i);
    var a :| a in ids;
    assert rank(a) in ranks;
    var least := Min(ranks);
    var m :| m in ids && rank(m) == least;
    forall x | x in ids
      ensures rank(m) <= rank(x)
    {
      assert rank(x) in ranks;
    }
  }

  function First(ids: set<FactId>, rank: FactId -> nat): (m: FactId)
    requires ids != {} && Injective(rank)
    ensures m in ids && forall x :: x in ids ==> rank(m) <= rank(x)
  {
    FirstExists(ids, rank);
    var m :| m in ids && forall x :: x in ids ==> rank(m) <= rank(x);
    m
  }

  function InOrder(ids: set<FactId>, rank: FactId -> nat): (r: seq<FactId>)
    requires Injective(rank)
    ensures |r| == |ids|
    ensures forall x :: x in r <==> x in ids
    decreases |ids|
  {
    if ids == {} then []
    else
      var m := First(ids, rank);
      [m] + InOrder(ids - {m}, rank)
  }

  // The effects of one callee in traversal order.
  function Effects(p: Program, m: map<FactId, Effect>): (r: seq<Effect>)
    requires WellFormed(p)
    ensures |r| == |m|
    ensures forall y :: y in r <==> exists i :: i in m && m[i] == y
  {
    var ids := InOrder(m.Keys, p.rank);
    var r := seq(|ids|, k requires 0 <= k < |ids| => assert ids[k] in ids; m[ids[k]]);
    assert forall k :: 0 <= k < |ids| ==> ids[k] in m && r[k] == m[ids[k]];
    assert forall i :: i in m ==> i in ids;
    r
  }

  function Origins(p: Program, m: map<FactId, Origin>): (r: seq<Origin>)
    requires WellFormed(p)
    ensures |r| == |m|
    ensures forall y :: y in r <==> exists i :: i in m && m[i] == y
  {
    var ids := InOrder(m.Keys, p.rank);
    var r := seq(|ids|, k requires 0 <= k < |ids| => assert ids[k] in ids; m[ids[k]]);
    assert forall k :: 0 <= k < |ids| ==> ids[k] in m && r[k] == m[ids[k]];
    assert forall i :: i in m ==> i in ids;
    r
  }

  // The facts of smallest rank, at most `cap` of them.
  function Truncate(p: Program, m: map<FactId, Effect>, cap: nat): (r: map<FactId, Effect>)
    requires WellFormed(p)
    ensures r.Keys <= m.Keys && forall i :: i in r ==> r[i] == m[i]
    ensures |m| <= cap ==> r == m
  {
    if |m| <= cap then m
    else
      var kept := InOrder(m.Keys, p.rank)[..cap];
      map i | i in m && i in kept :: m[i]
  }

  // Folds over callee facts and call edges ------------------------------------

  function AbsorbEffects(p: Program, e: Edge, ys: seq<Effect>, m: map<FactId, Effect>): map<FactId, Effect> {
    if ys == [] then m
    else
      var before := AbsorbEffects(p, e, ys[..|ys| - 1], m);
      match PropagateEffect(p, e, ys[|ys| - 1])
      case None => before
      case Some(x) => before[x.id := x]
  }

  function EffectFold(p: Program, edges: seq<Edge>, cur: Current, m: map<FactId, Effect>): map<FactId, Effect>
    requires WellFormed(p)
  {
    if edges == [] then m
    else
      var e := edges[|edges| - 1];
      AbsorbEffects(p, e, Effects(p, FactsOf(cur, e.callee.id).effects), EffectFold(p, edges[..|edges| - 1], cur, m))
  }

  function AbsorbOrigins(p: Program, e: Edge, ys: seq<Origin>, m: map<FactId, Origin>): map<FactId, Origin> {
    if ys == [] then m
    else
      var x := PropagateOrigin(p, e, ys[|ys| - 1]);
      AbsorbOrigins(p, e, ys[..|ys| - 1], m)[x.id := x]
  }

  // Return origins cross an edge only when the caller returns that call's result.
  predicate ReturnsCall(m: map<FactId, Origin>, site: nat) {
    exists i :: i in m && m[i].kind.CallResult? && m[i].callsite == Some(site)
  }

  function OriginFold(p: Program, edges: seq<Edge>, cur: Current, m: map<FactId, Origin>): map<FactId, Origin>
    requires WellFormed(p)
  {
    if edges == [] then m
    else
      var e := edges[|edges| - 1];
      var before := OriginFold(p, edges[..|edges| - 1], cur, m);
      if ReturnsCall(before, e.site.id) then
        AbsorbOrigins(p, e, Origins(p, FactsOf(cur, e.callee.id).origins), before)
      else
        before
  }

  // Reasons -------------------------------------------------------------------

  function BindingReasons(p: Program, e: Edge, n: nat): set<Reason> {
    if n == 0 then {}
    else
      BindingReasons(p, e, n - 1) +
      if KeyOf(e, n - 1) !in p.bindings then {MissingArgumentBinding}
      else if !p.bindings[KeyOf(e, n - 1)].complete then {IncompleteArgumentBinding}
      else {}
  }

  function EdgeReasons(p: Program, e: Edge, cur: Current): set<Reason> {
    BindingReasons(p, e, |e.callee.parameters|) +
    if FactsOf(cur, e.callee.id).reasons != {} then {CalleeIncomplete} else {}
  }

  function EdgesReasons(p: Program, edges: seq<Edge>, cur: Current): set<Reason> {
    if edges == [] then {}
    else EdgesReasons(p, edges[..|edges| - 1], cur) + EdgeReasons(p, edges[|edges| - 1], cur)
  }

  function TargetReasons(p: Program, c: Summary, target: Target): set<Reason> {
    var n := |Bodies(p, c, target)|;
    if n == 0 then {ExternalCalleeBody, UnknownCallTarget}
    else if n > 1 then {MultipleCalleeBodies}
    else {}
  }

  function TargetsReasons(p: Program, c: Summary, targets: seq<Target>): set<Reason> {
    if targets == [] then {}
    else TargetsReasons(p, c, targets[..|targets| - 1]) + TargetReasons(p, c, targets[|targets| - 1])
  }

  function SiteReason(p: Program, site: Site): set<Reason> {
    if !site.targetSetComplete || TargetsOf(p, site) == [] then {UnknownCallTarget} else {}
  }

  function SitesReasons(p: Program, c: Summary, sites: seq<Site>): set<Reason> {
    if sites == [] then {}
    else
      var last := sites[|sites| - 1];
      SitesReasons(p, c, sites[..|sites| - 1]) + SiteReason(p, last) + TargetsReasons(p, c, TargetsOf(p, last))
  }

  function StartReasons(c: Summary, oversized: bool): set<Reason> {
    c.localReasons + if oversized then {SccSizeCap} else {}
  }

  function UncappedReasons(p: Program, oversized: bool, c: Summary, cur: Current): set<Reason> {
    StartReasons(c, oversized) + SitesReasons(p, c, OwnerSites(p, c)) + EdgesReasons(p, CallEdges(p, c), cur)
  }

  function AllEffects(p: Program, c: Summary, cur: Current): map<FactId, Effect>
    requires WellFormed(p)
  {
    EffectFold(p, CallEdges(p, c), cur, LocalEffects(p, c.id))
  }

  function AllOrigins(p: Program, c: Summary, cur: Current): map<FactId, Origin>
    requires WellFormed(p)
  {
    OriginFold(p, CallEdges(p, c), cur, LocalOrigins(p, c.id))
  }

  function Capped(p: Program, limits: Limits, effects: map<FactId, Effect>, origins: map<FactId, Origin>,
                  reasons: set<Reason>): Facts
    requires WellFormed(p)
  {
    if |effects| > limits.maxEffects then
      Facts(Truncate(p, effects, limits.maxEffects), origins, reasons + {SummaryEffectCap})
    else
      Facts(effects, origins, reasons)
  }

  // The specification of one transfer.
  function TransferFacts(p: Program, limits: Limits, oversized: bool, c: Summary, cur: Current): Facts
    requires WellFormed(p)
  {
    Capped(p, limits, AllEffects(p, c, cur), AllOrigins(p, c, cur), UncappedReasons(p, oversized, c, cur))
  }

  // The transfer as the solver runs it ----------------------------------------

  // What the solver's dictionaries hold after the given call edges.
  ghost predicate Absorbed(p: Program, c: Summary, edges: seq<Edge>, cur: Current, base: set<Reason>,
                           effects: map<FactId, Effect>, origins: map<FactId, Origin>, reasons: set<Reason>)
    requires WellFormed(p)
  {
    && effects == EffectFold(p, edges, cur, LocalEffects(p, c.id))
    && origins == OriginFold(p, edges, cur, LocalOrigins(p, c.id))
    && reasons == base + EdgesReasons(p, edges, cur)
  }

  lemma FoldSnoc(p: Program, edges: seq<Edge>, e: Edge, cur: Current,
                 effects: map<FactId, Effect>, origins: map<FactId, Origin>)
    requires WellFormed(p)
    ensures EffectFold(p, edges + [e], cur, effects)
            == AbsorbEffects(p, e, Effects(p, FactsOf(cur, e.callee.id).effects), EffectFold(p, edges, cur, effects))
    ensures OriginFold(p, edges + [e], cur, origins)
            == var before := OriginFold(p, edges, cur, origins);
               if ReturnsCall(before, e.site.id) then
                 AbsorbOrigins(p, e, Origins(p, FactsOf(cur, e.callee.id).origins), before)
               else before
    ensures EdgesReasons(p, edges + [e], cur) == EdgesReasons(p, edges, cur) + EdgeReasons(p, e, cur)
  {
    hide WellFormed, AbsorbEffects, AbsorbOrigins, ReturnsCall, EdgeReasons, Effects, Origins, FactsOf;
    var next := edges + [e];
    assert next[..|next| - 1] == edges && next[|next| - 1] == e;
  }

  lemma AbsorbedStep(p: Program, c: Summary, edges: seq<Edge>, e: Edge, cur: Current, base: set<Reason>,
                     effects: map<FactId, Effect>, origins: map<FactId, Origin>, reasons: set<Reason>)
    requires WellFormed(p) && Absorbed(p, c, edges, cur, base, effects, origins, reasons)
    ensures Absorbed(p, c, edges + [e], cur, base,
                     AbsorbEffects(p, e, Effects(p, FactsOf(cur, e.callee.id).effects), effects),
                     if ReturnsCall(origins, e.site.id) then
                       AbsorbOrigins(p, e, Origins(p, FactsOf(cur, e.callee.id).origins), origins)
                     else origins,
                     reasons + EdgeReasons(p, e, cur))
  {
    hide WellFormed, EffectFold, OriginFold, EdgesReasons, AbsorbEffects, AbsorbOrigins, ReturnsCall, EdgeReasons,
         Effects, Origins, LocalEffects, LocalOrigins, FactsOf;
    FoldSnoc(p, edges, e, cur, LocalEffects(p, c.id), LocalOrigins(p, c.id));
  }

  lemma AbsorbedMore(p: Program, c: Summary, edges: seq<Edge>, cur: Current, base: set<Reason>, more: set<Reason>,
                     effects: map<FactId, Effect>, origins: map<FactId, Origin>, reasons: set<Reason>)
    requires WellFormed(p) && Absorbed(p, c, edges, cur, base, effects, origins, reasons)
    ensures Absorbed(p, c, edges, cur, base + more, effects, origins, reasons + more)
  {
  }

  method AbsorbCallee(p: Program, e: Edge, cur: Current,
                      effects: map<FactId, Effect>, origins: map<FactId, Origin>, reasons: set<Reason>)
    returns (effects': map<FactId, Effect>, origins': map<FactId, Origin>, reasons': set<Reason>)
    requires WellFormed(p)
    ensures effects' == AbsorbEffects(p, e, Effects(p, FactsOf(cur, e.callee.id).effects), effects)
    ensures origins' == if ReturnsCall(origins, e.site.id) then
                          AbsorbOrigins(p, e, Origins(p, FactsOf(cur, e.callee.id).origins), origins)
                        else origins
    ensures reasons' == reasons + EdgeReasons(p, e, cur)
  {
    hide WellFormed, Effects, Origins, PropagateEffect, PropagateOrigin, ReturnsCall;
    effects', origins', reasons' := effects, origins, reasons;
    for parameter := 0 to |e.callee.parameters|
      invariant reasons' == reasons + BindingReasons(p, e, parameter)
    {
      if KeyOf(e, parameter) !in p.bindings {
        reasons' := reasons' + {MissingArgumentBinding};
      } else if !p.bindings[KeyOf(e, parameter)].complete {
        reasons' := reasons' + {IncompleteArgumentBinding};
      }
    }
    var facts := FactsOf(cur, e.callee.id);
    if facts.reasons != {} {
      reasons' := reasons' + {CalleeIncomplete};
    }
    effects' := AbsorbCalleeEffects(p, e, Effects(p, facts.effects), effects);
    if ReturnsCall(origins, e.site.id) {
      origins' := AbsorbCalleeOrigins(p, e, Origins(p, facts.origins), origins);
    }
  }

  method AbsorbCalleeEffects(p: Program, e: Edge, ys: seq<Effect>, effects: map<FactId, Effect>)
    returns (effects': map<FactId, Effect>)
    ensures effects' == AbsorbEffects(p, e, ys, effects)
  {
    hide PropagateEffect;
    effects' := effects;
    for k := 0 to |ys|
      invariant effects' == AbsorbEffects(p, e, ys[..k], effects)
    {
      assert ys[..k + 1][..k] == ys[..k];
      var propagated := PropagateEffect(p, e, ys[k]);
      if propagated.Some? {
        effects' := effects'[propagated.value.id := propagated.value];
      }
    }
    assert ys[..|ys|] == ys;
  }

  method AbsorbCalleeOrigins(p: Program, e: Edge, ys: seq<Origin>, origins: map<FactId, Origin>)
    returns (origins': map<FactId, Origin>)
    ensures origins' == AbsorbOrigins(p, e, ys, origins)
  {
    hide PropagateOrigin;
    origins' := origins;
    for k := 0 to |ys|
      invariant origins' == AbsorbOrigins(p, e, ys[..k], origins)
    {
      assert ys[..k + 1][..k] == ys[..k];
      var propagated := PropagateOrigin(p, e, ys[k]);
      origins' := origins'[propagated.id := propagated];
    }
    assert ys[..|ys|] == ys;
  }

  method AbsorbBodies(p: Program, edges: seq<Edge>, cur: Current,
                      effects: map<FactId, Effect>, origins: map<FactId, Origin>, reasons: set<Reason>,
                      ghost c: Summary, ghost before: seq<Edge>, ghost base: set<Reason>)
    returns (effects': map<FactId, Effect>, origins': map<FactId, Origin>, reasons': set<Reason>)
    requires WellFormed(p) && Absorbed(p, c, before, cur, base, effects, origins, reasons)
    ensures Absorbed(p, c, before + edges, cur, base, effects', origins', reasons')
  {
    hide WellFormed, Absorbed, AbsorbEffects, AbsorbOrigins, ReturnsCall, EdgeReasons, Effects, Origins, FactsOf;
    effects', origins', reasons' := effects, origins, reasons;
    assert before + edges[..0] == before;
    for k := 0 to |edges|
      invariant Absorbed(p, c, before + edges[..k], cur, base, effects', origins', reasons')
    {
      AbsorbedStep(p, c, before + edges[..k], edges[k], cur, base, effects', origins', reasons');
      assert before + edges[..k] + [edges[k]] == before + edges[..k + 1];
      effects', origins', reasons' := AbsorbCallee(p, edges[k], cur, effects', origins', reasons');
    }
    assert edges[..|edges|] == edges;
  }

  lemma SiteEdgesStep(p: Program, c: Summary, site: Site, targets: seq<Target>, k: nat, before: seq<Edge>)
    requires k < |targets|
    ensures before + SiteEdges(p, c, site, targets[..k + 1])
            == before + SiteEdges(p, c, site, targets[..k]) + TargetEdges(p, c, site, targets[k])
    ensures TargetsReasons(p, c, targets[..k + 1]) == TargetsReasons(p, c, targets[..k]) + TargetReasons(p, c, targets[k])
  {
    hide TargetEdges, TargetReasons;
    assert targets[..k + 1][..k] == targets[..k];
  }

  method AbsorbTargets(p: Program, c: Summary, site: Site, cur: Current,
                       effects: map<FactId, Effect>, origins: map<FactId, Origin>, reasons: set<Reason>,
                       ghost before: seq<Edge>, ghost base: set<Reason>)
    returns (effects': map<FactId, Effect>, origins': map<FactId, Origin>, reasons': set<Reason>)
    requires WellFormed(p) && Absorbed(p, c, before, cur, base, effects, origins, reasons)
    ensures Absorbed(p, c, before + SiteEdges(p, c, site, TargetsOf(p, site)), cur,
                     base + TargetsReasons(p, c, TargetsOf(p, site)), effects', origins', reasons')
  {
    hide WellFormed, Absorbed, Bodies, TargetsOf;
    effects', origins', reasons' := effects, origins, reasons;
    var targets := TargetsOf(p, site);
    assert before + SiteEdges(p, c, site, targets[..0]) == before;
    assert base + TargetsReasons(p, c, targets[..0]) == base;
    for k := 0 to |targets|
      invariant Absorbed(p, c, before + SiteEdges(p, c, site, targets[..k]), cur,
                         base + TargetsReasons(p, c, targets[..k]), effects', origins', reasons')
    {
      var bodies := Bodies(p, c, targets[k]);
      ghost var sofar := before + SiteEdges(p, c, site, targets[..k]);
      ghost var known := base + TargetsReasons(p, c, targets[..k]);
      SiteEdgesStep(p, c, site, targets, k, before);
      AbsorbedMore(p, c, sofar, cur, known, TargetReasons(p, c, targets[k]), effects', origins', reasons');
      assert known + TargetReasons(p, c, targets[k]) == base + TargetsReasons(p, c, targets[..k + 1]);
      if bodies == [] {
        reasons' := reasons' + {ExternalCalleeBody, UnknownCallTarget};
      } else if |bodies| > 1 {
        reasons' := reasons' + {MultipleCalleeBodies};
      } else {
        assert reasons' + TargetReasons(p, c, targets[k]) == reasons';
      }
      effects', origins', reasons' := AbsorbBodies(
        p, BodyEdges(p, c, site, targets[k], bodies, |bodies| > 1), cur, effects', origins', reasons',
        c, sofar, known + TargetReasons(p, c, targets[k]));
    }
    assert targets[..|targets|] == targets;
  }

  lemma SitesEdgesStep(p: Program, c: Summary, sites: seq<Site>, k: nat)
    requires k < |sites|
    ensures SitesEdges(p, c, sites[..k + 1])
            == SitesEdges(p, c, sites[..k]) + SiteEdges(p, c, sites[k], TargetsOf(p, sites[k]))
    ensures SitesReasons(p, c, sites[..k + 1])
            == SitesReasons(p, c, sites[..k]) + SiteReason(p, sites[k]) + TargetsReasons(p, c, TargetsOf(p, sites[k]))
  {
    hide SiteEdges, SiteReason, TargetsReasons, TargetsOf;
    assert sites[..k + 1][..k] == sites[..k];
  }

  lemma Regroup(a: set<Reason>, b: set<Reason>, c: set<Reason>, d: set<Reason>)
    ensures a + b + c + d == a + (b + c + d)
  {
  }

  method AbsorbSites(p: Program, c: Summary, cur: Current, start: set<Reason>)
    returns (effects: map<FactId, Effect>, origins: map<FactId, Origin>, reasons: set<Reason>)
    requires WellFormed(p)
    ensures Absorbed(p, c, SitesEdges(p, c, OwnerSites(p, c)), cur, start + SitesReasons(p, c, OwnerSites(p, c)),
                     effects, origins, reasons)
  {
    hide WellFormed, Absorbed, OwnerSites, TargetsOf, SitesEdges, SiteEdges, SitesReasons, TargetsReasons, LocalEffects, LocalOrigins;
    reasons := start;
    effects, origins := LocalEffects(p, c.id), LocalOrigins(p, c.id);
    var sites := OwnerSites(p, c);
    AbsorbedStart(p, c, sites, cur, start, reasons);
    for k := 0 to |sites|
      invariant Absorbed(p, c, SitesEdges(p, c, sites[..k]), cur, start + SitesReasons(p, c, sites[..k]),
                         effects, origins, reasons)
    {
      var site := sites[k];
      ghost var known := start + SitesReasons(p, c, sites[..k]);
      SitesEdgesStep(p, c, sites, k);
      AbsorbedMore(p, c, SitesEdges(p, c, sites[..k]), cur, known, SiteReason(p, site), effects, origins, reasons);
      if !site.targetSetComplete || TargetsOf(p, site) == [] {
        reasons := reasons + {UnknownCallTarget};
      } else {
        assert reasons + SiteReason(p, site) == reasons;
      }
      Regroup(start, SitesReasons(p, c, sites[..k]), SiteReason(p, site), TargetsReasons(p, c, TargetsOf(p, site)));
      effects, origins, reasons := AbsorbTargets(
        p, c, site, cur, effects, origins, reasons, SitesEdges(p, c, sites[..k]), known + SiteReason(p, site));
    }
    assert sites[..|sites|] == sites;
  }

  method Transfer(p: Program, limits: Limits, oversized: bool, c: Summary, cur: Current) returns (facts: Facts)
    requires WellFormed(p)
    ensures facts == TransferFacts(p, limits, oversized, c, cur)
  {
    hide WellFormed, Absorbed, AllEffects, AllOrigins, UncappedReasons, Capped, OwnerSites, SitesEdges, SitesReasons;
    var start := c.localReasons;
    if oversized {
      start := start + {SccSizeCap};
    }
    assert start == StartReasons(c, oversized);
    var effects, origins, reasons := AbsorbSites(p, c, cur, start);
    AbsorbedAll(p, oversized, c, cur, effects, origins, reasons);
    facts := Capped(p, limits, effects, origins, reasons);
  }

  lemma AbsorbedStart(p: Program, c: Summary, sites: seq<Site>, cur: Current, start: set<Reason>, reasons: set<Reason>)
    requires WellFormed(p) && reasons == start
    ensures Absorbed(p, c, SitesEdges(p, c, sites[..0]), cur, start + SitesReasons(p, c, sites[..0]),
                     LocalEffects(p, c.id), LocalOrigins(p, c.id), reasons)
  {
    hide WellFormed;
  }

  lemma AbsorbedAll(p: Program, oversized: bool, c: Summary, cur: Current,
                    effects: map<FactId, Effect>, origins: map<FactId, Origin>, reasons: set<Reason>)
    requires WellFormed(p)
    requires Absorbed(p, c, SitesEdges(p, c, OwnerSites(p, c)), cur,
                      StartReasons(c, oversized) + SitesReasons(p, c, OwnerSites(p, c)), effects, origins, reasons)
    ensures effects == AllEffects(p, c, cur) && origins == AllOrigins(p, c, cur)
    ensures reasons == UncappedReasons(p, oversized, c, cur)
  {
    hide WellFormed, EffectFold, OriginFold, SitesEdges, SitesReasons;
  }
}
