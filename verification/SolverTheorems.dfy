// What a solved variant guarantees.
module SolverTheorems {
  import opened Graphs
  import opened Options
  import opened Summaries
  import opened Transfer
  import opened TransferMeaning
  import opened Chains
  import opened Solver
  import Tarjan

  // A solver input together with its component order.
  ghost predicate Solvable(p: Program, limits: Limits, components: seq<seq<nat>>) {
    WellFormed(p) && limits.Valid() && AllMembers(p, components) && Ordered(p, components)
  }

  ghost function Final(p: Program, limits: Limits, components: seq<seq<nat>>): Current
    requires Solvable(p, limits, components)
  {
    RunTo(p, limits, components, |components|).cur
  }

  ghost predicate Complete(p: Program, cur: Current, s: nat) {
    s in p.summaries && FactsOf(cur, s).reasons == {}
  }

  // No invented effects -------------------------------------------------------------

  lemma InitialSourced(p: Program)
    requires WellFormed(p)
    ensures Sourced(p, Initial(p))
  {
    hide Shaped, Justified, LocalEffects;
    forall s, i | s in p.summaries && i in LocalEffects(p, s)
      ensures Shaped(p, p.summaries[s], i, LocalEffects(p, s)[i]) && Justified(p, p.summaries[s], LocalEffects(p, s)[i])
    {
      IdMatches(p, s);
      LocalShaped(p, p.summaries[s], i);
    }
  }

  lemma RoundSourced(p: Program, limits: Limits, component: seq<nat>, cur: Current)
    requires WellFormed(p) && Members(p, component) && Sourced(p, cur)
    ensures Sourced(p, cur + Round(p, limits, component, cur))
  {
    hide WellFormed, TransferFacts, Shaped, Justified;
    var next := cur + Round(p, limits, component, cur);
    forall s, i | s in next && i in next[s].effects
      ensures s in p.summaries && Shaped(p, p.summaries[s], i, next[s].effects[i])
              && Justified(p, p.summaries[s], next[s].effects[i])
    {
      if s in component {
        hide Sourced;
        TransferSourced(p, limits, Oversized(limits, component), s, cur, i);
      }
    }
  }

  // Every iterate of a component, not only the last, holds sourced effects only.
  lemma {:induction false} JacobiSourced(p: Program, limits: Limits, component: seq<nat>, cur: Current, count: nat, limit: nat)
    requires WellFormed(p) && Members(p, component) && Sourced(p, cur) && count <= limit
    ensures Sourced(p, Jacobi(p, limits, component, cur, count, limit).cur)
    decreases limit - count
  {
    hide WellFormed, TransferFacts, Sourced;
    RoundSourced(p, limits, component, cur);
    var next := Round(p, limits, component, cur);
    if !(Stable(component, cur, next) || count == limit) {
      JacobiSourced(p, limits, component, cur + next, count + 1, limit);
    }
  }

  lemma AddReasonSourced(p: Program, component: seq<nat>, cur: Current, reason: Reason)
    requires Sourced(p, cur)
    ensures Sourced(p, AddReason(cur, component, reason))
  {
    hide Shaped, Justified;
    var cur' := AddReason(cur, component, reason);
    assert forall s :: s in cur' ==> s in cur && cur'[s].effects == cur[s].effects;
  }

  lemma ComponentSourced(p: Program, limits: Limits, component: seq<nat>, cur: Current)
    requires WellFormed(p) && limits.Valid() && Members(p, component) && Sourced(p, cur)
    requires forall s :: s in component ==> s in cur
    ensures Sourced(p, SolveComponent(p, limits, component, cur).cur)
  {
    hide WellFormed, CallGraph, Jacobi, Sourced, Shortcut;
    if Solitary(p, component) {
      assert component == [component[0]];
      ShortcutIsExact(p, limits, component[0], cur);
    }
    var limit := IterationLimit(limits, component);
    JacobiSourced(p, limits, component, cur, 1, limit);
    AddReasonSourced(p, component, Jacobi(p, limits, component, cur, 1, limit).cur, SccIterationCap);
  }

  // At every point of a run each effect held is the image of a local effect along
  // a chain of real call edges.
  lemma {:induction false} NoInventedEffects(p: Program, limits: Limits, components: seq<seq<nat>>, k: nat)
    requires WellFormed(p) && limits.Valid() && AllMembers(p, components) && k <= |components|
    ensures Sourced(p, RunTo(p, limits, components, k).cur)
  {
    hide WellFormed, SolveComponent, Sourced, Initial;
    if k == 0 {
      InitialSourced(p);
    } else {
      NoInventedEffects(p, limits, components, k - 1);
      RunKeys(p, limits, components, k - 1);
      assert Members(p, components[k - 1]);
      ComponentSourced(p, limits, components[k - 1], RunTo(p, limits, components, k - 1).cur);
    }
  }

  // Completeness ----------------------------------------------------------------------

  lemma CompleteIsFixpoint(p: Program, limits: Limits, components: seq<seq<nat>>, s: nat)
    requires Solvable(p, limits, components) && Complete(p, Final(p, limits, components), s)
    ensures exists oversized ::
              && FactsOf(Final(p, limits, components), s)
                 == TransferFacts(p, limits, oversized, p.summaries[s], Final(p, limits, components))
              && LocallyComplete(p, limits, oversized, p.summaries[s], Final(p, limits, components))
  {
    hide WellFormed, TransferFacts, LocallyComplete, RunTo, Ordered, AllMembers;
    OrderedMembers(p, components);
    assert Tarjan.Emitted(components, s);
    var j :| 0 <= j < |components| && s in components[j];
    RunSettles(p, limits, components, |components|, j, s);
    var cur := Final(p, limits, components);
    CompleteTransferIff(p, limits, Oversized(limits, components[j]), p.summaries[s], cur);
  }

  // What a complete summary asserts about its own calls.
  lemma CompleteCalls(p: Program, limits: Limits, components: seq<seq<nat>>, s: nat)
    requires Solvable(p, limits, components) && Complete(p, Final(p, limits, components), s)
    ensures var cur := Final(p, limits, components); var c := p.summaries[s];
            && c.localReasons == {}
            && (forall site :: OwnSite(p, c, site) ==> SiteComplete(p, c, site))
            && (forall e :: e in CallEdges(p, c) ==> EdgeComplete(p, e, cur) && Complete(p, cur, e.callee.id)
                                                      && p.summaries[e.callee.id] == e.callee)
            && FactsOf(cur, s).effects == AllEffects(p, c, cur)
  {
    hide TransferFacts, RunTo, Ordered, AllMembers, SiteComplete, CallEdges, OwnSite, AllEffects, AllOrigins, UncappedReasons;
    CompleteIsFixpoint(p, limits, components, s);
    var cur := Final(p, limits, components);
    var c := p.summaries[s];
    var oversized :| FactsOf(cur, s) == TransferFacts(p, limits, oversized, c, cur) && LocallyComplete(p, limits, oversized, c, cur);
    Uncapped(p, limits, oversized, c, cur);
    forall e | e in CallEdges(p, c)
      ensures Complete(p, cur, e.callee.id) && p.summaries[e.callee.id] == e.callee
    {
      EdgesStayInUnit(p, c, e);
      assert EdgeComplete(p, e, cur);
    }
  }

  lemma Uncapped(p: Program, limits: Limits, oversized: bool, c: Summary, cur: Current)
    requires WellFormed(p) && |AllEffects(p, c, cur)| <= limits.maxEffects
    ensures TransferFacts(p, limits, oversized, c, cur).effects == AllEffects(p, c, cur)
  {
    hide WellFormed, AllEffects, AllOrigins, UncappedReasons;
  }

  // Completeness is sound: whatever a complete summary can reach through calls is
  // itself complete, with every call resolved, unambiguous and fully bound.
  lemma CompletenessIsSound(p: Program, limits: Limits, components: seq<seq<nat>>, s: nat, t: nat)
    requires Solvable(p, limits, components) && Complete(p, Final(p, limits, components), s)
    requires Reach(CallGraph(p), s, t)
    ensures var cur := Final(p, limits, components);
            && Complete(p, cur, t)
            && p.summaries[t].localReasons == {}
            && (forall site :: OwnSite(p, p.summaries[t], site) ==> SiteComplete(p, p.summaries[t], site))
            && (forall e :: e in CallEdges(p, p.summaries[t]) ==> EdgeComplete(p, e, cur))
  {
    hide WellFormed, RunTo, Ordered, AllMembers, CallEdges, OwnSite, AllEffects, Reach;
    var cur := Final(p, limits, components);
    var complete := set x | x in p.summaries && Complete(p, cur, x);
    forall x, y | x in complete && y in Successors(CallGraph(p), x)
      ensures y in complete
    {
      CompleteCalls(p, limits, components, x);
      var e :| e in CallEdges(p, p.summaries[x]) && e.callee.id == y;
    }
    ReachStaysClosed(CallGraph(p), complete, s, t);
    CompleteCalls(p, limits, components, t);
  }

  // A callee effect reaches a complete caller exactly when it is rooted in a
  // parameter or lies in global or field storage. Any other effect is dropped
  // without a reason being recorded.
  lemma CalleeEffectArrivesIff(p: Program, limits: Limits, components: seq<seq<nat>>, s: nat, e: Edge, i: FactId)
    requires Solvable(p, limits, components) && Complete(p, Final(p, limits, components), s)
    requires e in CallEdges(p, p.summaries[s])
    requires i in FactsOf(Final(p, limits, components), e.callee.id).effects
    ensures var cur := Final(p, limits, components); var y := FactsOf(cur, e.callee.id).effects[i];
            (y.parameter.Some? || y.locationKind.GlobalStorage? || y.locationKind.FieldStorage?)
            <==> PlaceAlong(p, [e], PlaceOf(y)).Some? && IdAlong(p, [e], y) in FactsOf(cur, s).effects
  {
    hide WellFormed, RunTo, Ordered, AllMembers, CallEdges, OwnSite, EffectFold, PropagateEffect, LocalEffects, Justified, PlaceAlong, IdAlong;
    var cur := Final(p, limits, components);
    var c := p.summaries[s];
    var y := FactsOf(cur, e.callee.id).effects[i];
    CompleteCalls(p, limits, components, s);
    NoInventedEffects(p, limits, components, |components|);
    assert Shaped(p, e.callee, i, y);
    CarriedIff(p, e, cur, y);
    ChainImageMeaning(p, [e], y);
    OneEdgeImage(p, e, y);
    if Carried(y) {
      var x := PropagateEffect(p, e, y).value;
      assert Sends(p, e, cur, x);
      FoldKeeps(p, CallEdges(p, c), cur, LocalEffects(p, c.id));
    }
  }

  lemma OneEdgeImage(p: Program, e: Edge, y: Effect)
    ensures ChainImage(p, [e], y) == PropagateEffect(p, e, y)
  {
    assert [e][1..] == [];
    assert ChainImage(p, [], y) == Some(y);
  }

  // The image of a local effect along any chain is held by a complete chain head.
  lemma {:induction false} ChainArrives(p: Program, limits: Limits, components: seq<seq<nat>>, s: nat, chain: Chain, t: Summary, i: FactId, x: Effect)
    requires Solvable(p, limits, components) && Complete(p, Final(p, limits, components), s)
    requires ChainProves(p, p.summaries[s], x, chain, t, i)
    ensures x.id in FactsOf(Final(p, limits, components), s).effects
    decreases |chain|
  {
    hide WellFormed, RunTo, Ordered, AllMembers, CallEdges, OwnSite, EffectFold, PropagateEffect, LocalEffects, Justified, Shaped;
    var cur := Final(p, limits, components);
    var c := p.summaries[s];
    CompleteCalls(p, limits, components, s);
    FoldKeeps(p, CallEdges(p, c), cur, LocalEffects(p, c.id));
    IdMatches(p, s);
    if chain == [] {
      LocalShaped(p, c, i);
      assert x.id == i by { ShapedId(p, c, i, x); }
    } else {
      var e := chain[0];
      var l := LocalEffects(p, t.id)[i];
      var z := ChainImage(p, chain[1..], l).value;
      assert ChainProves(p, e.callee, z, chain[1..], t, i);
      ChainArrives(p, limits, components, e.callee.id, chain[1..], t, i, z);
      NoInventedEffects(p, limits, components, |components|);
      var y := FactsOf(cur, e.callee.id).effects[z.id];
      ChainShaped(p, e.callee, chain[1..], t, i, z);
      ShapedId(p, e.callee, z.id, y);
      SameIdentityTravelsAlike(p, e.callee, e, z, y);
      assert Sends(p, e, cur, PropagateEffect(p, e, y).value);
    }
  }

  lemma ShapedId(p: Program, c: Summary, i: FactId, x: Effect)
    requires Shaped(p, c, i, x)
    ensures x.id == i
  {
  }

  lemma ChainShaped(p: Program, c: Summary, chain: Chain, t: Summary, i: FactId, x: Effect)
    requires WellFormed(p) && c.id in p.summaries && p.summaries[c.id] == c
    requires ChainProves(p, c, x, chain, t, i)
    ensures Shaped(p, c, x.id, x)
  {
    hide WellFormed, CallEdges, PropagateEffect, Shaped, LocalEffects;
    if chain == [] {
      LocalShaped(p, c, i);
      ShapedId(p, c, i, x);
    } else {
      EdgeCaller(p, c, chain[0]);
      ImageShaped(p, c, chain[0], ChainImage(p, chain[1..], LocalEffects(p, t.id)[i]).value, x);
    }
  }

  // A chain from the body of s to a local effect of another whose storage can be named at s, where
  // the effect is filed under this identity.
  ghost predicate FiledAlong(p: Program, s: Summary, chain: Chain, t: Summary, l: Effect, id: FactId) {
    && ChainFrom(p, s, chain, t) && OwnEffect(p, t.id, l)
    && PlaceAlong(p, chain, PlaceOf(l)).Some? && id == IdAlong(p, chain, l)
  }

  // The effects of a complete summary are exactly the local effects at the ends of call chains
  // whose storage can be named at its head: nothing is missing and nothing is invented.
  lemma CompleteEffectsAreChainImages(p: Program, limits: Limits, components: seq<seq<nat>>, s: nat, id: FactId)
    requires Solvable(p, limits, components) && Complete(p, Final(p, limits, components), s)
    ensures id in FactsOf(Final(p, limits, components), s).effects
            <==> exists chain, t, l :: FiledAlong(p, p.summaries[s], chain, t, l, id)
  {
    hide WellFormed, RunTo, Ordered, AllMembers, CallEdges, LocalEffects, ChainImage, PlaceAlong, IdAlong, PathAlong, Shaped;
    var cur := Final(p, limits, components);
    if id in FactsOf(cur, s).effects {
      NoInventedEffects(p, limits, components, |components|);
      ShapedId(p, p.summaries[s], id, FactsOf(cur, s).effects[id]);
      var x := FactsOf(cur, s).effects[id];
      var chain, t, i :| ChainProves(p, p.summaries[s], x, chain, t, i);
      LocalIdentity(p, t.id, i);
      OwnFacts(p, t.id);
      ChainImageMeaning(p, chain, LocalEffects(p, t.id)[i]);
      assert FiledAlong(p, p.summaries[s], chain, t, LocalEffects(p, t.id)[i], id);
    }
    if chain, t, l :| FiledAlong(p, p.summaries[s], chain, t, l, id) {
      ChainImageMeaning(p, chain, l);
      OwnFacts(p, t.id);
      ChainArrives(p, limits, components, s, chain, t, l.id, ChainImage(p, chain, l).value);
    }
  }

  // The storage, path, kind, access and certainty of any effect held at any point of a run, read
  // off the chain behind it.
  lemma EffectProvenance(p: Program, limits: Limits, components: seq<seq<nat>>, k: nat, s: nat, i: FactId)
    returns (chain: Chain, t: Summary, l: Effect)
    requires WellFormed(p) && limits.Valid() && AllMembers(p, components) && k <= |components|
    requires s in RunTo(p, limits, components, k).cur && i in RunTo(p, limits, components, k).cur[s].effects
    ensures s in p.summaries && FiledAlong(p, p.summaries[s], chain, t, l, i)
    ensures var x := RunTo(p, limits, components, k).cur[s].effects[i];
            && Some(Place(x.locationKind, x.parameter, x.location)) == PlaceAlong(p, chain, PlaceOf(l))
            && x.path == PathAlong(p, chain, PlaceOf(l), l.path)
            && x.id == i && x.kind == l.kind && x.access == l.access
            && (x.certainty.Certain? <==> CertainChain(chain) && l.certainty.Certain?)
  {
    hide RunTo, CallEdges, PropagateEffect, Shaped, PlaceAlong, IdAlong, PathAlong, ChainImage;
    NoInventedEffects(p, limits, components, k);
    var x := RunTo(p, limits, components, k).cur[s].effects[i];
    ShapedId(p, p.summaries[s], i, x);
    assert Justified(p, p.summaries[s], x);
    var j;
    chain, t, j :| ChainProves(p, p.summaries[s], x, chain, t, j);
    l := LocalEffects(p, t.id)[j];
    LocalIdentity(p, t.id, j);
    OwnFacts(p, t.id);
    ChainImageMeaning(p, chain, l);
  }

  lemma LocalIdentity(p: Program, s: nat, i: FactId)
    requires WellFormed(p) && i in LocalEffects(p, s)
    ensures LocalEffects(p, s)[i].id == i
  {
    assert s in p.localEffects && EffectsWell(p, s, p.localEffects[s]);
  }
}
