// Where return origins come from: chains of calls each of which returns the next one's
// result. The reference meaning of a propagated origin, its provenance over every run, and
// its exactness for complete summaries.
module ReturnOrigins {
  import opened Graphs
  import opened Options
  import opened Summaries
  import opened Transfer
  import opened TransferMeaning
  import opened Chains
  import opened Solver
  import opened SolverTheorems
  import opened Convergence
  import opened Fixpoint

  // The body of c itself returns the result of the call at edge e.
  ghost predicate Returns(p: Program, c: Summary, e: Edge) {
    && e in CallEdges(p, c)
    && c.id in p.localOrigins
    && exists i :: && i in p.localOrigins[c.id] && p.localOrigins[c.id][i].kind.CallResult?
                   && p.localOrigins[c.id][i].callsite == Some(e.site.id)
  }

  lemma ReturnsIff(p: Program, c: Summary, e: Edge)
    ensures Returns(p, c, e) <==> e in CallEdges(p, c) && ReturnsCall(LocalOrigins(p, c.id), e.site.id)
  {
    hide CallEdges;
  }

  // A chain from c to t of calls whose results are handed back.
  ghost predicate ReturnChain(p: Program, c: Summary, chain: Chain, t: Summary)
    decreases |chain|
  {
    if chain == [] then c == t
    else Returns(p, c, chain[0]) && ReturnChain(p, chain[0].callee, chain[1..], t)
  }

  function OriginImage(p: Program, chain: Chain, l: Origin): Origin {
    if chain == [] then l else PropagateOrigin(p, chain[0], OriginImage(p, chain[1..], l))
  }

  ghost predicate OriginProves(p: Program, c: Summary, x: Origin, chain: Chain, t: Summary, i: FactId) {
    ReturnChain(p, c, chain, t) && i in LocalOrigins(p, t.id) && OriginImage(p, chain, LocalOrigins(p, t.id)[i]) == x
  }

  // x is the image of a local origin at the end of such a chain.
  ghost predicate OriginJustified(p: Program, c: Summary, x: Origin) {
    exists chain, t, i :: OriginProves(p, c, x, chain, t, i)
  }

  ghost predicate FactsJustified(p: Program, c: Summary, f: Facts) {
    forall i :: i in f.origins ==> OriginJustified(p, c, f.origins[i])
  }

  ghost predicate OriginsJustified(p: Program, cur: Current) {
    forall s :: s in cur ==> s in p.summaries && FactsJustified(p, p.summaries[s], cur[s])
  }

  // No invented origins ----------------------------------------------------------------

  lemma LocalJustified(p: Program, c: Summary, i: FactId)
    requires i in LocalOrigins(p, c.id)
    ensures OriginJustified(p, c, LocalOrigins(p, c.id)[i])
  {
    assert OriginProves(p, c, LocalOrigins(p, c.id)[i], [], c, i);
  }

  lemma LongerJustified(p: Program, c: Summary, e: Edge, y: Origin)
    requires Returns(p, c, e) && OriginJustified(p, e.callee, y)
    ensures OriginJustified(p, c, PropagateOrigin(p, e, y))
  {
    hide Returns, PropagateOrigin, LocalOrigins;
    var chain, t, i :| OriginProves(p, e.callee, y, chain, t, i);
    var longer := [e] + chain;
    assert longer[1..] == chain;
    assert OriginProves(p, c, PropagateOrigin(p, e, y), longer, t, i);
  }

  lemma SentJustified(p: Program, c: Summary, e: Edge, cur: Current, x: Origin)
    requires WellFormed(p) && OriginsJustified(p, cur) && Returns(p, c, e) && SendsOrigin(p, e, cur, x)
    ensures OriginJustified(p, c, x)
  {
    hide WellFormed, CallEdges, OriginJustified, PropagateOrigin, LocalOrigins;
    EdgesStayInUnit(p, c, e);
    var j :| j in FactsOf(cur, e.callee.id).origins && PropagateOrigin(p, e, FactsOf(cur, e.callee.id).origins[j]) == x;
    LongerJustified(p, c, e, FactsOf(cur, e.callee.id).origins[j]);
  }

  lemma TransferJustified(p: Program, limits: Limits, oversized: bool, s: nat, cur: Current)
    requires WellFormed(p) && s in p.summaries && OriginsJustified(p, cur)
    ensures FactsJustified(p, p.summaries[s], TransferFacts(p, limits, oversized, p.summaries[s], cur))
  {
    hide WellFormed, CallEdges, OriginFold, LocalOrigins, OriginsJustified, OriginJustified, AllEffects, UncappedReasons, SendsOrigin;
    var c := p.summaries[s];
    var m := LocalOrigins(p, c.id);
    LocalOriginIds(p, c.id);
    OriginFoldSourced(p, CallEdges(p, c), cur, m);
    var all := AllOrigins(p, c, cur);
    forall i | i in all
      ensures OriginJustified(p, c, all[i])
    {
      assert OriginSourced(p, CallEdges(p, c), cur, m, i, all[i]);
      if i in m && all[i] == m[i] {
        LocalJustified(p, c, i);
      } else {
        var e :| e in CallEdges(p, c) && ReturnsCall(m, e.site.id) && SendsOrigin(p, e, cur, all[i]);
        ReturnsIff(p, c, e);
        SentJustified(p, c, e, cur, all[i]);
      }
    }
  }

  lemma {:induction false} IterateJustified(p: Program, limits: Limits, component: seq<nat>, cur: Current, n: nat)
    requires WellFormed(p) && Members(p, component) && OriginsJustified(p, cur)
    ensures OriginsJustified(p, Iterate(p, limits, component, cur, n))
  {
    hide WellFormed, TransferFacts, FactsJustified;
    if n > 0 {
      IterateJustified(p, limits, component, cur, n - 1);
      var before := Iterate(p, limits, component, cur, n - 1);
      forall s | s in component
        ensures FactsJustified(p, p.summaries[s], Round(p, limits, component, before)[s])
      {
        TransferJustified(p, limits, Oversized(limits, component), s, before);
      }
    }
  }

  lemma AddReasonJustified(p: Program, component: seq<nat>, cur: Current)
    requires OriginsJustified(p, cur)
    ensures OriginsJustified(p, AddReason(cur, component, SccIterationCap))
  {
    hide OriginJustified;
    var cur' := AddReason(cur, component, SccIterationCap);
    assert forall s :: s in cur' ==> s in cur && cur'[s].origins == cur[s].origins;
  }

  lemma ComponentJustified(p: Program, limits: Limits, component: seq<nat>, cur: Current)
    requires WellFormed(p) && limits.Valid() && Members(p, component) && OriginsJustified(p, cur)
    requires forall s :: s in component ==> s in cur
    ensures OriginsJustified(p, SolveComponent(p, limits, component, cur).cur)
  {
    hide WellFormed, CallGraph, Jacobi, OriginsJustified, Shortcut, TransferFacts;
    if Solitary(p, component) {
      assert component == [component[0]];
      ShortcutIsExact(p, limits, component[0], cur);
    }
    var limit := IterationLimit(limits, component);
    JacobiIsIterate(p, limits, component, cur, 0, 1, limit);
    var o := Jacobi(p, limits, component, cur, 1, limit);
    IterateJustified(p, limits, component, cur, o.iterations);
    AddReasonJustified(p, component, o.cur);
  }

  lemma InitialJustified(p: Program)
    requires WellFormed(p)
    ensures OriginsJustified(p, Initial(p))
  {
    hide WellFormed, LocalOrigins, OriginJustified;
    forall s, i | s in p.summaries && i in LocalOrigins(p, s)
      ensures OriginJustified(p, p.summaries[s], LocalOrigins(p, s)[i])
    {
      IdMatches(p, s);
      LocalJustified(p, p.summaries[s], i);
    }
  }

  // At every point of a run each return origin held is the image of a local origin along
  // calls whose results are handed back.
  lemma {:induction false} NoInventedOrigins(p: Program, limits: Limits, components: seq<seq<nat>>, k: nat)
    requires WellFormed(p) && limits.Valid() && AllMembers(p, components) && k <= |components|
    ensures OriginsJustified(p, RunTo(p, limits, components, k).cur)
  {
    hide WellFormed, SolveComponent, OriginsJustified, Initial;
    if k == 0 {
      InitialJustified(p);
    } else {
      NoInventedOrigins(p, limits, components, k - 1);
      RunKeys(p, limits, components, k - 1);
      assert Members(p, components[k - 1]);
      ComponentJustified(p, limits, components[k - 1], RunTo(p, limits, components, k - 1).cur);
    }
  }

  // What an origin names: storage, if it names any, and the whole access path to it.
  datatype Source = Source(locationKind: Option<LocationKind>, parameter: Option<nat>, location: Option<nat>, path: seq<nat>, substituted: bool)

  function SourceOf(l: Origin): Source {
    Source(l.locationKind, l.parameter, l.location, l.path, false)
  }

  // The same origin seen from the head of a chain: a parameter stands for the argument bound to it,
  // or for unknown storage where none is bound; anything else stays as it is.
  function SourceAlong(p: Program, chain: Chain, l: Origin): Source {
    if chain == [] then SourceOf(l)
    else
      var inner := SourceAlong(p, chain[1..], l);
      match inner.parameter
      case None => inner
      case Some(i) =>
        match ArgumentOf(p, chain[0], i)
        case Some(b) => Source(Some(b.locationKind), b.parameter, b.location, b.path + inner.path, true)
        case None => Source(Some(UnknownStorage), None, None, [], true)
  }

  // At most eight components of the path are kept once an argument has been substituted.
  function KeptPath(from: Source): seq<nat> {
    if from.substituted && |from.path| > 8 then from.path[..8] else from.path
  }

  // The identity under which a local origin is filed at the head of a chain.
  function OriginIdAlong(p: Program, chain: Chain, l: Origin): FactId {
    if chain == [] then l.id
    else
      var from := SourceAlong(p, chain, l);
      PropagatedOrigin(chain[0].caller.id, chain[0].site.id, chain[0].target.symbol, from.locationKind, from.parameter,
                       KeptPath(from), from.location)
  }

  // What a chain does to an origin: at the head it names the same storage, seen from there, with the
  // access path cut once however often it was cut on the way. It is certain exactly when every call
  // and the origin are, and a handed-back value is a location or unknown, never again a call result
  // or a constant.
  lemma {:induction false} OriginImageMeaning(p: Program, chain: Chain, l: Origin)
    ensures var x := OriginImage(p, chain, l); var from := SourceAlong(p, chain, l);
            && x.id == OriginIdAlong(p, chain, l)
            && x.locationKind == from.locationKind && x.parameter == from.parameter && x.location == from.location
            && x.path == KeptPath(from)
            && (x.certainty.Certain? <==> CertainChain(chain) && l.certainty.Certain?)
            && (chain != [] ==> x.callsite.None? && x.kind == if x.locationKind.Some? then LocationOrigin else UnknownOrigin)
  {
    hide CertainChain;
    CertainStep(chain);
    if chain != [] {
      OriginImageMeaning(p, chain[1..], l);
      var inner := SourceAlong(p, chain[1..], l);
      if inner.parameter.Some? && ArgumentOf(p, chain[0], inner.parameter.value).Some? {
        CutTwice(ArgumentOf(p, chain[0], inner.parameter.value).value.path, inner.path);
      }
    }
  }

  // A chain of calls whose results are handed back, from the body of s to a local origin of another,
  // under this identity.
  ghost predicate HandedAlong(p: Program, s: Summary, chain: Chain, t: Summary, l: Origin, id: FactId) {
    && ReturnChain(p, s, chain, t) && OwnOrigin(p, t.id, l)
    && id == OriginIdAlong(p, chain, l)
  }

  lemma LocalOriginFiled(p: Program, s: nat, i: FactId)
    requires WellFormed(p) && i in LocalOrigins(p, s)
    ensures LocalOrigins(p, s)[i].id == i
  {
    assert s in p.localOrigins && OriginsWell(p.localOrigins[s]);
  }

  lemma JustifiedHanded(p: Program, c: Summary, x: Origin) returns (chain: Chain, t: Summary, l: Origin)
    requires WellFormed(p) && OriginJustified(p, c, x)
    ensures HandedAlong(p, c, chain, t, l, x.id) && OriginImage(p, chain, l) == x
  {
    hide WellFormed, ReturnChain, OriginImage, LocalOrigins, OriginIdAlong, SourceAlong, CertainChain;
    var i;
    chain, t, i :| OriginProves(p, c, x, chain, t, i);
    l := LocalOrigins(p, t.id)[i];
    LocalOriginFiled(p, t.id, i);
    OwnFacts(p, t.id);
    OriginImageMeaning(p, chain, l);
  }

  // The storage, path, certainty and kind of any origin held at any point of a run, read off the
  // chain behind it.
  lemma OriginProvenance(p: Program, limits: Limits, components: seq<seq<nat>>, k: nat, s: nat, i: FactId)
    returns (chain: Chain, t: Summary, l: Origin)
    requires WellFormed(p) && limits.Valid() && AllMembers(p, components) && k <= |components|
    requires s in RunTo(p, limits, components, k).cur && i in RunTo(p, limits, components, k).cur[s].origins
    ensures var x := RunTo(p, limits, components, k).cur[s].origins[i]; var from := SourceAlong(p, chain, l);
            && s in p.summaries && HandedAlong(p, p.summaries[s], chain, t, l, x.id)
            && x.locationKind == from.locationKind && x.parameter == from.parameter && x.location == from.location
            && x.path == KeptPath(from)
            && (x.certainty.Certain? <==> CertainChain(chain) && l.certainty.Certain?)
            && (chain != [] ==> x.callsite.None? && x.kind == if x.locationKind.Some? then LocationOrigin else UnknownOrigin)
  {
    hide WellFormed, RunTo, HandedAlong, OriginJustified, OriginImage, SourceAlong, KeptPath, CertainChain;
    NoInventedOrigins(p, limits, components, k);
    var x := RunTo(p, limits, components, k).cur[s].origins[i];
    chain, t, l := JustifiedHanded(p, p.summaries[s], x);
    OriginImageMeaning(p, chain, l);
  }

  // Exactness -----------------------------------------------------------------------------

  lemma ImageShapedOrigin(p: Program, c: Summary, chain: Chain, t: Summary, i: FactId)
    requires WellFormed(p) && ReturnChain(p, c, chain, t) && i in LocalOrigins(p, t.id)
    ensures var x := OriginImage(p, chain, LocalOrigins(p, t.id)[i]); OriginShaped(p, c, x.id, x)
  {
    hide WellFormed, CallEdges, PropagateOrigin, LocalOrigins, OriginShaped;
    var l := LocalOrigins(p, t.id)[i];
    if chain == [] {
      LocalOriginShaped(p, c, i);
      OriginShapedId(p, c, i, l);
    } else {
      EdgeCaller(p, c, chain[0]);
      OriginImageShaped(p, c, chain[0], OriginImage(p, chain[1..], l));
    }
  }

  lemma OriginShapedId(p: Program, c: Summary, i: FactId, x: Origin)
    requires OriginShaped(p, c, i, x)
    ensures x.id == i
  {
  }

  // What a complete summary's origins are: its own and all that its returning calls send.
  lemma CompleteOrigins(p: Program, limits: Limits, components: seq<seq<nat>>, s: nat)
    requires Solvable(p, limits, components) && Complete(p, Final(p, limits, components), s)
    ensures FactsOf(Final(p, limits, components), s).origins == AllOrigins(p, p.summaries[s], Final(p, limits, components))
  {
    hide WellFormed, RunTo, Ordered, AllMembers, AllEffects, AllOrigins, UncappedReasons, LocallyComplete;
    CompleteIsFixpoint(p, limits, components, s);
  }

  lemma FinalShaped(p: Program, limits: Limits, components: seq<seq<nat>>, s: nat, i: FactId)
    requires Solvable(p, limits, components) && s in p.summaries
    requires i in FactsOf(Final(p, limits, components), s).origins
    ensures OriginShaped(p, p.summaries[s], i, FactsOf(Final(p, limits, components), s).origins[i])
  {
    hide WellFormed, RunTo, Ordered, AllMembers, OriginShaped, Shaped;
    RunKeeps(p, limits, components, |components|);
  }

  // The image of a local origin along any such chain is held by a complete chain head.
  lemma {:induction false} OriginArrives(p: Program, limits: Limits, components: seq<seq<nat>>, s: nat, chain: Chain, t: Summary, i: FactId)
    requires Solvable(p, limits, components) && Complete(p, Final(p, limits, components), s)
    requires ReturnChain(p, p.summaries[s], chain, t) && i in LocalOrigins(p, t.id)
    ensures OriginImage(p, chain, LocalOrigins(p, t.id)[i]).id in FactsOf(Final(p, limits, components), s).origins
    decreases |chain|
  {
    hide WellFormed, RunTo, Ordered, AllMembers, CallEdges, OwnSite, OriginFold, PropagateOrigin, LocalOrigins, OriginShaped,
         SendsOrigin, ReturnsCall;
    var cur := Final(p, limits, components);
    var c := p.summaries[s];
    var l := LocalOrigins(p, t.id)[i];
    CompleteOrigins(p, limits, components, s);
    LocalOriginIds(p, c.id);
    OriginFoldSourced(p, CallEdges(p, c), cur, LocalOrigins(p, c.id));
    SolvableId(p, limits, components, s);
    if chain == [] {
      LocalOriginShaped(p, c, i);
      OriginShapedId(p, c, i, l);
    } else {
      var e := chain[0];
      CompleteCallee(p, limits, components, s, e);
      OriginArrives(p, limits, components, e.callee.id, chain[1..], t, i);
      var z := OriginImage(p, chain[1..], l);
      ImageShapedOrigin(p, e.callee, chain[1..], t, i);
      FinalShaped(p, limits, components, e.callee.id, z.id);
      var y := FactsOf(cur, e.callee.id).origins[z.id];
      OriginSameIdentity(p, e.callee, e, z.id, z, y);
      ReturnsIff(p, c, e);
      SendsHeld(p, e, cur, z.id);
    }
  }

  lemma SolvableId(p: Program, limits: Limits, components: seq<seq<nat>>, s: nat)
    requires Solvable(p, limits, components) && s in p.summaries
    ensures p.summaries[s].id == s
  {
  }

  lemma SendsHeld(p: Program, e: Edge, cur: Current, i: FactId)
    requires i in FactsOf(cur, e.callee.id).origins
    ensures SendsOrigin(p, e, cur, PropagateOrigin(p, e, FactsOf(cur, e.callee.id).origins[i]))
  {
  }

  lemma CompleteCallee(p: Program, limits: Limits, components: seq<seq<nat>>, s: nat, e: Edge)
    requires Solvable(p, limits, components) && Complete(p, Final(p, limits, components), s)
    requires e in CallEdges(p, p.summaries[s])
    ensures Complete(p, Final(p, limits, components), e.callee.id) && p.summaries[e.callee.id] == e.callee
  {
    hide WellFormed, RunTo, Ordered, AllMembers, CallEdges, OwnSite, AllEffects, SiteComplete, EdgeComplete;
    CompleteCalls(p, limits, components, s);
  }

  // The return origins of a complete summary are exactly the local origins at the ends of chains of
  // calls whose results are handed back, each under its identity there.
  lemma CompleteOriginsAreChainImages(p: Program, limits: Limits, components: seq<seq<nat>>, s: nat, id: FactId)
    requires Solvable(p, limits, components) && Complete(p, Final(p, limits, components), s)
    ensures id in FactsOf(Final(p, limits, components), s).origins
            <==> exists chain, t, l :: HandedAlong(p, p.summaries[s], chain, t, l, id)
  {
    hide WellFormed, RunTo, Ordered, AllMembers, CallEdges, ReturnChain, OriginImage, OriginIdAlong, SourceAlong, CertainChain,
         LocalOrigins, OriginShaped;
    var cur := Final(p, limits, components);
    if id in FactsOf(cur, s).origins {
      NoInventedOrigins(p, limits, components, |components|);
      FinalShaped(p, limits, components, s, id);
      OriginShapedId(p, p.summaries[s], id, FactsOf(cur, s).origins[id]);
      var chain, t, l := JustifiedHanded(p, p.summaries[s], FactsOf(cur, s).origins[id]);
    }
    if chain, t, l :| HandedAlong(p, p.summaries[s], chain, t, l, id) {
      OriginImageMeaning(p, chain, l);
      OwnFacts(p, t.id);
      OriginArrives(p, limits, components, s, chain, t, l.id);
    }
  }
}
