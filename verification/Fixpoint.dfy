// The identities a component can ever hold form a finite universe, because access
// paths are cut at eight components; growing sets inside it reach a fixpoint.
module Fixpoint {
  import opened Graphs
  import opened Options
  import opened Summaries
  import opened Transfer
  import opened TransferMeaning
  import opened Chains
  import opened Solver
  import opened Convergence
  import Tarjan

  // Paths over a finite alphabet ----------------------------------------------------

  ghost function PathsUpTo(alphabet: set<nat>, n: nat): set<seq<nat>> {
    if n == 0 then {[]}
    else {[]} + set a, r | a in alphabet && r in PathsUpTo(alphabet, n - 1) :: [a] + r
  }

  ghost predicate Over(alphabet: set<nat>, path: seq<nat>) {
    forall k :: 0 <= k < |path| ==> path[k] in alphabet
  }

  lemma {:induction false} ShortPathsCovered(alphabet: set<nat>, n: nat, path: seq<nat>)
    requires Over(alphabet, path) && |path| <= n
    ensures path in PathsUpTo(alphabet, n)
  {
    if path != [] {
      ShortPathsCovered(alphabet, n - 1, path[1..]);
      assert path == [path[0]] + path[1..];
    }
  }

  // The vocabulary of a program -------------------------------------------------------

  ghost function Alphabet(p: Program): set<nat> {
    (set k, j | k in p.bindings && 0 <= j < |p.bindings[k].path| :: p.bindings[k].path[j])
    + (set s, i, j | s in p.localEffects && i in p.localEffects[s] && 0 <= j < |p.localEffects[s][i].path| :: p.localEffects[s][i].path[j])
    + (set s, i, j | s in p.localOrigins && i in p.localOrigins[s] && 0 <= j < |p.localOrigins[s][i].path| :: p.localOrigins[s][i].path[j])
  }

  ghost function Paths(p: Program): set<seq<nat>> {
    PathsUpTo(Alphabet(p), MAX_PATH)
    + (set s, i | s in p.localEffects && i in p.localEffects[s] :: p.localEffects[s][i].path)
    + (set s, i | s in p.localOrigins && i in p.localOrigins[s] :: p.localOrigins[s][i].path)
  }

  ghost predicate KnownPath(p: Program, path: seq<nat>) {
    Over(Alphabet(p), path) && path in Paths(p)
  }

  ghost function Parameters(p: Program): set<Option<nat>> {
    {None}
    + (set k | k in p.bindings :: p.bindings[k].parameter)
    + (set s, i | s in p.localEffects && i in p.localEffects[s] :: p.localEffects[s][i].parameter)
    + (set s, i | s in p.localOrigins && i in p.localOrigins[s] :: p.localOrigins[s][i].parameter)
  }

  ghost function Accesses(p: Program): set<Option<nat>> {
    set s, i | s in p.localEffects && i in p.localEffects[s] :: p.localEffects[s][i].access
  }

  ghost function Locations(p: Program): set<Option<nat>> {
    {None}
    + (set k | k in p.bindings :: p.bindings[k].location)
    + (set s, i | s in p.localOrigins && i in p.localOrigins[s] :: p.localOrigins[s][i].location)
  }

  const LOCATION_KINDS: set<LocationKind> :=
    {LocalStorage, ParameterStorage, GlobalStorage, ReturnSlot, DereferenceStorage, FieldStorage, UnknownStorage}

  ghost function SiteIds(p: Program): set<nat> {
    set s | s in p.sites :: s.id
  }

  ghost function TargetSymbols(p: Program): set<nat> {
    set t | t in p.targets :: t.symbol
  }

  ghost function LocalIdsOf(p: Program): set<FactId> {
    (set s, i | s in p.localEffects && i in p.localEffects[s] :: i)
    + (set s, i | s in p.localOrigins && i in p.localOrigins[s] :: i)
  }

  ghost function EffectUniverse(p: Program): set<FactId> {
    LocalIdsOf(p)
    + set caller, kind, locationKind, parameter, path, site, target, access |
        caller in p.summaries && kind in {Read, Write, Escape} && locationKind in LOCATION_KINDS
        && parameter in Parameters(p) && path in Paths(p) && site in SiteIds(p) && target in TargetSymbols(p)
        && access in Accesses(p)
      :: PropagatedEffect(caller, kind, locationKind, parameter, path, site, target, access)
  }

  ghost function LocatedOrigins(p: Program): set<FactId> {
    set caller, site, target, locationKind, parameter, path, location |
      caller in p.summaries && site in SiteIds(p) && target in TargetSymbols(p) && locationKind in LOCATION_KINDS
      && parameter in Parameters(p) && path in Paths(p) && location in Locations(p)
    :: PropagatedOrigin(caller, site, target, Some(locationKind), parameter, path, location)
  }

  ghost function UnlocatedOrigins(p: Program): set<FactId> {
    set caller, site, target, parameter, path, location |
      caller in p.summaries && site in SiteIds(p) && target in TargetSymbols(p)
      && parameter in Parameters(p) && path in Paths(p) && location in Locations(p)
    :: PropagatedOrigin(caller, site, target, None, parameter, path, location)
  }

  ghost function OriginUniverse(p: Program): set<FactId> {
    LocalIdsOf(p) + LocatedOrigins(p) + UnlocatedOrigins(p)
  }

  ghost function ReasonUniverse(p: Program): set<Reason> {
    (set s, r | s in p.summaries && r in p.summaries[s].localReasons :: r)
    + {SccSizeCap, UnknownCallTarget, ExternalCalleeBody, MultipleCalleeBodies, MissingArgumentBinding,
       IncompleteArgumentBinding, CalleeIncomplete, SummaryEffectCap, SccIterationCap}
  }

  // Facts within the vocabulary ---------------------------------------------------------

  ghost predicate EffectKnown(p: Program, i: FactId, x: Effect) {
    i in EffectUniverse(p) && KnownPath(p, x.path) && x.parameter in Parameters(p) && x.access in Accesses(p)
  }

  ghost predicate OriginKnown(p: Program, i: FactId, x: Origin) {
    i in OriginUniverse(p) && KnownPath(p, x.path) && x.parameter in Parameters(p) && x.location in Locations(p)
  }

  ghost predicate FactsKnown(p: Program, f: Facts) {
    && (forall i :: i in f.effects ==> EffectKnown(p, i, f.effects[i]))
    && (forall i :: i in f.origins ==> OriginKnown(p, i, f.origins[i]))
    && f.reasons <= ReasonUniverse(p)
  }

  ghost predicate AllKnown(p: Program, cur: Current) {
    forall s :: s in cur ==> FactsKnown(p, cur[s])
  }

  lemma BoundPathKnown(p: Program, key: BindingKey, path: seq<nat>)
    requires key in p.bindings && KnownPath(p, path)
    ensures KnownPath(p, Cut(p.bindings[key].path + path))
  {
    hide Paths;
    var b := p.bindings[key];
    forall k | 0 <= k < |b.path|
      ensures b.path[k] in Alphabet(p)
    {
    }
    var joined := b.path + path;
    var cut := Cut(joined);
    assert Over(Alphabet(p), cut) by { hide Alphabet; }
    ShortPathsCovered(Alphabet(p), MAX_PATH, cut);
    ShortIsKnown(p, cut);
  }

  lemma ShortIsKnown(p: Program, path: seq<nat>)
    requires path in PathsUpTo(Alphabet(p), MAX_PATH)
    ensures path in Paths(p)
  {
  }

  lemma EdgeInVocabulary(p: Program, c: Summary, e: Edge)
    requires WellFormed(p) && c.id in p.summaries && e in CallEdges(p, c)
    ensures e.caller == c && e.site.id in SiteIds(p) && e.target.symbol in TargetSymbols(p)
  {
    EdgesAreEdges(p, c, e);
  }

  lemma EffectStaysKnown(p: Program, c: Summary, e: Edge, j: FactId, y: Effect, x: Effect)
    requires WellFormed(p) && c.id in p.summaries && e in CallEdges(p, c)
    requires EffectKnown(p, j, y) && PropagateEffect(p, e, y) == Some(x)
    ensures EffectKnown(p, x.id, x)
  {
    hide WellFormed, CallEdges, KnownPath, Paths, Accesses, SiteIds, TargetSymbols;
    EdgeInVocabulary(p, c, e);
    if y.parameter.Some? {
      var key := KeyOf(e, y.parameter.value);
      BoundPathKnown(p, key, y.path);
      assert p.bindings[key].parameter in Parameters(p);
    }
    PathKnown(p, x.path);
    UniverseEffect(p, x.id);
  }

  lemma PathKnown(p: Program, path: seq<nat>)
    requires KnownPath(p, path)
    ensures path in Paths(p)
  {
  }

  lemma UniverseEffect(p: Program, i: FactId)
    requires i.PropagatedEffect? && i.caller in p.summaries
    requires i.parameter in Parameters(p) && i.path in Paths(p) && i.site in SiteIds(p) && i.target in TargetSymbols(p)
    requires i.access in Accesses(p)
    ensures i in EffectUniverse(p)
  {
    hide Parameters, Paths, SiteIds, TargetSymbols, Accesses, LocalIdsOf;
    EveryKind(i.locationKind);
    match i.kind
    case Read =>
    case Write =>
    case Escape =>
  }

  lemma EveryKind(k: LocationKind)
    ensures k in LOCATION_KINDS
  {
    match k
    case LocalStorage =>
    case ParameterStorage =>
    case GlobalStorage =>
    case ReturnSlot =>
    case DereferenceStorage =>
    case FieldStorage =>
    case UnknownStorage =>
  }

  ghost predicate OriginIdKnown(p: Program, i: FactId) {
    && i.PropagatedOrigin? && i.caller in p.summaries && i.parameter in Parameters(p) && i.path in Paths(p)
    && i.site in SiteIds(p) && i.target in TargetSymbols(p) && i.location in Locations(p)
  }

  lemma UniverseLocated(p: Program, i: FactId)
    requires OriginIdKnown(p, i) && i.originLocation.Some?
    ensures i in LocatedOrigins(p)
  {
    hide Parameters, Paths, SiteIds, TargetSymbols, Locations;
    EveryKind(i.originLocation.value);
    assert i == PropagatedOrigin(i.caller, i.site, i.target, Some(i.originLocation.value), i.parameter, i.path, i.location);
  }

  lemma UniverseUnlocated(p: Program, i: FactId)
    requires OriginIdKnown(p, i) && i.originLocation.None?
    ensures i in UnlocatedOrigins(p)
  {
    hide Parameters, Paths, SiteIds, TargetSymbols, Locations;
    assert i == PropagatedOrigin(i.caller, i.site, i.target, None, i.parameter, i.path, i.location);
  }

  lemma UniverseOrigin(p: Program, i: FactId)
    requires OriginIdKnown(p, i)
    ensures i in OriginUniverse(p)
  {
    hide LocatedOrigins, UnlocatedOrigins, LocalIdsOf, Parameters, Paths, SiteIds, TargetSymbols, Locations;
    if i.originLocation.Some? {
      UniverseLocated(p, i);
    } else {
      UniverseUnlocated(p, i);
    }
  }

  lemma EmptyPathKnown(p: Program)
    ensures KnownPath(p, [])
  {
    ShortPathsCovered(Alphabet(p), MAX_PATH, []);
  }

  lemma BindingKnown(p: Program, key: BindingKey)
    requires key in p.bindings
    ensures p.bindings[key].parameter in Parameters(p) && p.bindings[key].location in Locations(p)
  {
  }

  lemma NoneKnown(p: Program)
    ensures None in Parameters(p) && None in Locations(p)
  {
  }

  lemma OriginStaysKnown(p: Program, c: Summary, e: Edge, j: FactId, y: Origin)
    requires WellFormed(p) && c.id in p.summaries && e in CallEdges(p, c)
    requires OriginKnown(p, j, y)
    ensures OriginKnown(p, PropagateOrigin(p, e, y).id, PropagateOrigin(p, e, y))
  {
    hide WellFormed, CallEdges, KnownPath, Paths, SiteIds, TargetSymbols, Parameters, Locations, OriginUniverse;
    var x := PropagateOrigin(p, e, y);
    EdgeInVocabulary(p, c, e);
    NoneKnown(p);
    if y.parameter.Some? {
      var key := KeyOf(e, y.parameter.value);
      if key in p.bindings {
        BoundPathKnown(p, key, y.path);
        BindingKnown(p, key);
      } else {
        EmptyPathKnown(p);
      }
    }
    PathKnown(p, x.path);
    UniverseOrigin(p, x.id);
  }

  lemma LocalEffectKnown(p: Program, s: nat, i: FactId)
    requires i in LocalEffects(p, s)
    ensures EffectKnown(p, i, LocalEffects(p, s)[i])
  {
    hide PathsUpTo;
    assert p.localEffects[s][i].path in Paths(p);
    LocalPathOver(p, s, i);
    assert i in LocalIdsOf(p);
  }

  lemma LocalPathOver(p: Program, s: nat, i: FactId)
    requires s in p.localEffects && i in p.localEffects[s]
    ensures Over(Alphabet(p), p.localEffects[s][i].path)
  {
  }

  lemma LocalOriginKnown(p: Program, s: nat, i: FactId)
    requires i in LocalOrigins(p, s)
    ensures OriginKnown(p, i, LocalOrigins(p, s)[i])
  {
    hide PathsUpTo;
    assert p.localOrigins[s][i].path in Paths(p);
    LocalOriginPathOver(p, s, i);
    assert i in LocalIdsOf(p);
  }

  lemma LocalOriginPathOver(p: Program, s: nat, i: FactId)
    requires s in p.localOrigins && i in p.localOrigins[s]
    ensures Over(Alphabet(p), p.localOrigins[s][i].path)
  {
  }

  lemma EdgesReasonsKnown(p: Program, e: Edge, n: nat)
    ensures BindingReasons(p, e, n) <= {MissingArgumentBinding, IncompleteArgumentBinding}
  {
  }

  lemma {:induction false} AllEdgesReasonsKnown(p: Program, edges: seq<Edge>, cur: Current)
    ensures EdgesReasons(p, edges, cur) <= {MissingArgumentBinding, IncompleteArgumentBinding, CalleeIncomplete}
  {
    hide BindingReasons;
    if edges != [] {
      AllEdgesReasonsKnown(p, edges[..|edges| - 1], cur);
      EdgesReasonsKnown(p, edges[|edges| - 1], |edges[|edges| - 1].callee.parameters|);
    }
  }

  lemma {:induction false} TargetsReasonsKnown(p: Program, c: Summary, targets: seq<Target>)
    ensures TargetsReasons(p, c, targets) <= {UnknownCallTarget, ExternalCalleeBody, MultipleCalleeBodies}
  {
    hide Bodies;
    if targets != [] {
      TargetsReasonsKnown(p, c, targets[..|targets| - 1]);
    }
  }

  lemma {:induction false} SitesReasonsKnown(p: Program, c: Summary, sites: seq<Site>)
    ensures SitesReasons(p, c, sites) <= {UnknownCallTarget, ExternalCalleeBody, MultipleCalleeBodies}
  {
    hide TargetsOf, TargetsReasons;
    if sites != [] {
      SitesReasonsKnown(p, c, sites[..|sites| - 1]);
      TargetsReasonsKnown(p, c, TargetsOf(p, sites[|sites| - 1]));
    }
  }

  lemma AllEffectsKnown(p: Program, c: Summary, cur: Current)
    requires WellFormed(p) && c.id in p.summaries && AllKnown(p, cur)
    ensures forall i :: i in AllEffects(p, c, cur) ==> EffectKnown(p, i, AllEffects(p, c, cur)[i])
  {
    hide WellFormed, CallEdges, EffectFold, LocalEffects, EffectKnown, AllKnown, Sends;
    var all := AllEffects(p, c, cur);
    forall i | i in all
      ensures EffectKnown(p, i, all[i])
    {
      FoldValue(p, CallEdges(p, c), cur, LocalEffects(p, c.id), i);
      KnownEffectStep(p, c, cur, i, all[i]);
    }
  }

  lemma AllOriginsKnown(p: Program, c: Summary, cur: Current)
    requires WellFormed(p) && c.id in p.summaries && AllKnown(p, cur)
    ensures forall i :: i in AllOrigins(p, c, cur) ==> OriginKnown(p, i, AllOrigins(p, c, cur)[i])
  {
    hide WellFormed, CallEdges, OriginFold, LocalOrigins, OriginKnown, AllKnown, OriginSourced;
    LocalOriginIds(p, c.id);
    OriginFoldSourced(p, CallEdges(p, c), cur, LocalOrigins(p, c.id));
    var all := AllOrigins(p, c, cur);
    forall i | i in all
      ensures OriginKnown(p, i, all[i])
    {
      KnownOriginStep(p, c, cur, i, all[i]);
    }
  }

  lemma ReasonsKnown(p: Program, limits: Limits, oversized: bool, c: Summary, cur: Current)
    requires WellFormed(p) && c.id in p.summaries && p.summaries[c.id] == c
    ensures TransferFacts(p, limits, oversized, c, cur).reasons <= ReasonUniverse(p)
  {
    hide WellFormed, CallEdges, AllEffects, AllOrigins, EdgesReasons, SitesReasons, OwnerSites, Truncate;
    AllEdgesReasonsKnown(p, CallEdges(p, c), cur);
    SitesReasonsKnown(p, c, OwnerSites(p, c));
    KnownReasons(p, c);
    hide ReasonUniverse;
  }

  lemma KnownReasons(p: Program, c: Summary)
    requires c.id in p.summaries && p.summaries[c.id] == c
    ensures c.localReasons <= ReasonUniverse(p)
    ensures {SccSizeCap, UnknownCallTarget, ExternalCalleeBody, MultipleCalleeBodies, MissingArgumentBinding,
             IncompleteArgumentBinding, CalleeIncomplete, SummaryEffectCap} <= ReasonUniverse(p)
  {
  }

  lemma TransferKnown(p: Program, limits: Limits, oversized: bool, s: nat, cur: Current)
    requires WellFormed(p) && s in p.summaries && AllKnown(p, cur)
    ensures FactsKnown(p, TransferFacts(p, limits, oversized, p.summaries[s], cur))
  {
    hide WellFormed, AllEffects, AllOrigins, UncappedReasons, EffectKnown, OriginKnown, AllKnown, ReasonUniverse;
    var c := p.summaries[s];
    IdMatches(p, s);
    AllEffectsKnown(p, c, cur);
    AllOriginsKnown(p, c, cur);
    ReasonsKnown(p, limits, oversized, c, cur);
  }

  lemma KnownEffectStep(p: Program, c: Summary, cur: Current, i: FactId, x: Effect)
    requires WellFormed(p) && c.id in p.summaries && AllKnown(p, cur)
    requires (i in LocalEffects(p, c.id) && x == LocalEffects(p, c.id)[i])
             || (x.id == i && exists e :: e in CallEdges(p, c) && Sends(p, e, cur, x))
    ensures EffectKnown(p, i, x)
  {
    hide WellFormed, CallEdges, EffectKnown, OriginKnown, PropagateEffect;
    if i in LocalEffects(p, c.id) && x == LocalEffects(p, c.id)[i] {
      LocalEffectKnown(p, c.id, i);
    } else {
      var e :| e in CallEdges(p, c) && Sends(p, e, cur, x);
      var j :| j in FactsOf(cur, e.callee.id).effects
               && PropagateEffect(p, e, FactsOf(cur, e.callee.id).effects[j]) == Some(x);
      assert FactsKnown(p, FactsOf(cur, e.callee.id));
      EffectStaysKnown(p, c, e, j, FactsOf(cur, e.callee.id).effects[j], x);
    }
  }

  lemma KnownOriginStep(p: Program, c: Summary, cur: Current, i: FactId, x: Origin)
    requires WellFormed(p) && c.id in p.summaries && AllKnown(p, cur)
    requires OriginSourced(p, CallEdges(p, c), cur, LocalOrigins(p, c.id), i, x)
    ensures OriginKnown(p, i, x)
  {
    hide WellFormed, CallEdges, EffectKnown, OriginKnown, PropagateOrigin;
    if i in LocalOrigins(p, c.id) && x == LocalOrigins(p, c.id)[i] {
      LocalOriginKnown(p, c.id, i);
    } else {
      var e :| e in CallEdges(p, c) && SendsOrigin(p, e, cur, x);
      KnownOriginSent(p, c, e, cur, x);
    }
  }

  lemma KnownOriginSent(p: Program, c: Summary, e: Edge, cur: Current, x: Origin)
    requires WellFormed(p) && c.id in p.summaries && AllKnown(p, cur)
    requires e in CallEdges(p, c) && SendsOrigin(p, e, cur, x)
    ensures OriginKnown(p, x.id, x)
  {
    hide WellFormed, CallEdges, EffectKnown, OriginKnown, PropagateOrigin;
    var j :| j in FactsOf(cur, e.callee.id).origins && PropagateOrigin(p, e, FactsOf(cur, e.callee.id).origins[j]) == x;
    assert FactsKnown(p, FactsOf(cur, e.callee.id));
    OriginStaysKnown(p, c, e, j, FactsOf(cur, e.callee.id).origins[j]);
  }

  lemma {:induction false} IterateKnown(p: Program, limits: Limits, component: seq<nat>, cur: Current, n: nat)
    requires WellFormed(p) && Members(p, component) && AllKnown(p, cur)
    ensures AllKnown(p, Iterate(p, limits, component, cur, n))
  {
    hide WellFormed, TransferFacts, FactsKnown;
    if n > 0 {
      IterateKnown(p, limits, component, cur, n - 1);
      var before := Iterate(p, limits, component, cur, n - 1);
      forall s | s in component
        ensures FactsKnown(p, Round(p, limits, component, before)[s])
      {
        TransferKnown(p, limits, Oversized(limits, component), s, before);
      }
    }
  }

  // The fixpoint ------------------------------------------------------------------------

  datatype Token = EffectToken(s: nat, id: FactId) | OriginToken(s: nat, id: FactId) | ReasonToken(s: nat, reason: Reason)

  // Everything a component holds, certainty and locations aside.
  ghost function Tokens(component: seq<nat>, cur: Current): set<Token> {
    (set s, i | s in component && i in FactsOf(cur, s).effects :: EffectToken(s, i))
    + (set s, i | s in component && i in FactsOf(cur, s).origins :: OriginToken(s, i))
    + (set s, r | s in component && r in FactsOf(cur, s).reasons :: ReasonToken(s, r))
  }

  ghost function TokenUniverse(p: Program, component: seq<nat>): set<Token> {
    (set s, i | s in component && i in EffectUniverse(p) :: EffectToken(s, i))
    + (set s, i | s in component && i in OriginUniverse(p) :: OriginToken(s, i))
    + (set s, r | s in component && r in ReasonUniverse(p) :: ReasonToken(s, r))
  }

  lemma TokensBounded(p: Program, component: seq<nat>, cur: Current)
    requires AllKnown(p, cur)
    ensures Tokens(component, cur) <= TokenUniverse(p, component)
  {
    hide EffectUniverse, OriginUniverse, ReasonUniverse, KnownPath;
  }

  lemma TokensGrow(component: seq<nat>, a: Current, b: Current)
    requires Below(a, b)
    ensures Tokens(component, a) <= Tokens(component, b)
  {
    assert forall s :: s in component ==> FactsBelow(FactsOf(a, s), FactsOf(b, s));
  }

  lemma SameTokensBelow(component: seq<nat>, a: Current, b: Current)
    requires Tokens(component, a) == Tokens(component, b)
    requires forall s :: s !in component ==> FactsOf(a, s) == FactsOf(b, s)
    ensures Below(a, b)
  {
    forall s
      ensures FactsBelow(FactsOf(a, s), FactsOf(b, s))
    {
      if s in component {
        forall i | i in FactsOf(a, s).effects
          ensures i in FactsOf(b, s).effects
        {
          assert EffectToken(s, i) in Tokens(component, b);
        }
        forall i | i in FactsOf(a, s).origins
          ensures i in FactsOf(b, s).origins
        {
          assert OriginToken(s, i) in Tokens(component, b);
        }
        forall r | r in FactsOf(a, s).reasons
          ensures r in FactsOf(b, s).reasons
        {
          assert ReasonToken(s, r) in Tokens(component, b);
        }
      } else {
        BelowRefl(FactsOf(a, s));
      }
    }
  }

  ghost predicate AlwaysSilent(p: Program, limits: Limits, component: seq<nat>, cur: Current)
    requires WellFormed(p) && Members(p, component)
  {
    forall n: nat :: CapSilent(p, limits, component, Iterate(p, limits, component, cur, n))
  }

  ghost predicate StopsBy(p: Program, limits: Limits, component: seq<nat>, cur: Current, n: nat)
    requires WellFormed(p) && Members(p, component)
  {
    exists m: nat :: m < n && StillAt(p, limits, component, cur, m)
  }

  ghost predicate StillAt(p: Program, limits: Limits, component: seq<nat>, cur: Current, m: nat)
    requires WellFormed(p) && Members(p, component)
  {
    Tokens(component, Iterate(p, limits, component, cur, m)) == Tokens(component, Iterate(p, limits, component, cur, m + 1))
  }

  lemma {:induction false} GrowsOrStops(p: Program, limits: Limits, component: seq<nat>, cur: Current, n: nat)
    requires WellFormed(p) && Members(p, component) && Starting(p, component, cur) && AlwaysSilent(p, limits, component, cur)
    ensures StopsBy(p, limits, component, cur, n) || |Tokens(component, Iterate(p, limits, component, cur, n))| >= n
  {
    hide WellFormed, Iterate, Starting, Tokens, CapSilent, Below;
    if n > 0 {
      GrowsOrStops(p, limits, component, cur, n - 1);
      if !StopsBy(p, limits, component, cur, n) {
        assert !StillAt(p, limits, component, cur, n - 1);
        IteratesGrow(p, limits, component, cur, n - 1);
        var a := Tokens(component, Iterate(p, limits, component, cur, n - 1));
        var b := Tokens(component, Iterate(p, limits, component, cur, n));
        TokensGrow(component, Iterate(p, limits, component, cur, n - 1), Iterate(p, limits, component, cur, n));
        SubsetSize(a, b);
      }
    }
  }

  lemma {:induction false} StaysStill(p: Program, limits: Limits, component: seq<nat>, cur: Current, m: nat, k: nat)
    requires WellFormed(p) && Members(p, component) && Starting(p, component, cur) && AlwaysSilent(p, limits, component, cur)
    requires m <= k && StillAt(p, limits, component, cur, m)
    ensures StillAt(p, limits, component, cur, k)
    decreases k - m
  {
    hide WellFormed, Tokens, CapSilent, Below, TransferFacts, AllShaped, Starting;
    if m < k {
      StaysStill(p, limits, component, cur, m, k - 1);
      StillStep(p, limits, component, cur, k - 1);
    }
  }

  // Equal identities one step apart stay equal: a transfer reads only identities to
  // decide which identities it produces.
  lemma StillStep(p: Program, limits: Limits, component: seq<nat>, cur: Current, m: nat)
    requires WellFormed(p) && Members(p, component) && Starting(p, component, cur) && AlwaysSilent(p, limits, component, cur)
    requires StillAt(p, limits, component, cur, m)
    ensures StillAt(p, limits, component, cur, m + 1)
  {
    hide WellFormed, Tokens, CapSilent, AllShaped, Round;
    assert AllShaped(p, cur);
    hide Starting, Iterate, AlwaysSilent;
    var a := Iterate(p, limits, component, cur, m);
    var b := Iterate(p, limits, component, cur, m + 1);
    IterateStep(p, limits, component, cur, m);
    IterateStep(p, limits, component, cur, m + 1);
    SilentAt(p, limits, component, cur, m);
    SilentAt(p, limits, component, cur, m + 1);
    IterateShaped(p, limits, component, cur, m);
    IterateShaped(p, limits, component, cur, m + 1);
    SameTokensStay(p, limits, component, a);
  }

  lemma SilentAt(p: Program, limits: Limits, component: seq<nat>, cur: Current, n: nat)
    requires WellFormed(p) && Members(p, component) && Starting(p, component, cur) && AlwaysSilent(p, limits, component, cur)
    ensures CapSilent(p, limits, component, Iterate(p, limits, component, cur, n))
  {
    hide WellFormed, CapSilent, Starting, Iterate;
  }

  // A round that adds no identity is followed by one that adds none.
  lemma SameTokensStay(p: Program, limits: Limits, component: seq<nat>, a: Current)
    requires WellFormed(p) && Members(p, component)
    requires var b := a + Round(p, limits, component, a);
             && AllShaped(p, a) && AllShaped(p, b)
             && CapSilent(p, limits, component, a) && CapSilent(p, limits, component, b)
             && Tokens(component, a) == Tokens(component, b)
    ensures var b := a + Round(p, limits, component, a);
            Tokens(component, b) == Tokens(component, b + Round(p, limits, component, b))
  {
    hide WellFormed, Tokens, Below, TransferFacts, AllShaped, AllEffects, Round, FactsBelow, FactsOf;
    var b := a + Round(p, limits, component, a);
    OutsideSame(p, limits, component, a);
    SameTokensBelow(component, a, b);
    SameTokensBelow(component, b, a);
    forall s | s in component
      ensures FactsBelow(FactsOf(b, s), FactsOf(b + Round(p, limits, component, b), s))
      ensures FactsBelow(FactsOf(b + Round(p, limits, component, b), s), FactsOf(b, s))
    {
      TransferMonotone(p, limits, Oversized(limits, component), p.summaries[s], a, b);
      TransferMonotone(p, limits, Oversized(limits, component), p.summaries[s], b, a);
      RoundIs(p, limits, component, a, s);
      RoundIs(p, limits, component, b, s);
    }
    MutualTokens(component, b, b + Round(p, limits, component, b));
  }

  lemma RoundIs(p: Program, limits: Limits, component: seq<nat>, cur: Current, s: nat)
    requires WellFormed(p) && Members(p, component) && s in component
    ensures FactsOf(cur + Round(p, limits, component, cur), s)
            == TransferFacts(p, limits, Oversized(limits, component), p.summaries[s], cur)
  {
    hide WellFormed, TransferFacts;
  }

  lemma OutsideSame(p: Program, limits: Limits, component: seq<nat>, cur: Current)
    requires WellFormed(p) && Members(p, component)
    ensures forall s :: s !in component ==> FactsOf(cur, s) == FactsOf(cur + Round(p, limits, component, cur), s)
  {
  }

  lemma MutualTokens(component: seq<nat>, a: Current, b: Current)
    requires forall s :: s in component ==> FactsBelow(FactsOf(a, s), FactsOf(b, s)) && FactsBelow(FactsOf(b, s), FactsOf(a, s))
    ensures Tokens(component, a) == Tokens(component, b)
  {
  }

  // While the effect cap is silent, every component's identity sets and reasons reach
  // a fixpoint within a number of iterations bounded by the program's vocabulary.
  lemma IdentitiesReachFixpoint(p: Program, limits: Limits, component: seq<nat>, cur: Current) returns (n: nat)
    requires WellFormed(p) && Members(p, component) && Starting(p, component, cur) && AllKnown(p, cur)
    requires AlwaysSilent(p, limits, component, cur)
    ensures n <= |TokenUniverse(p, component)|
    ensures forall k: nat :: n <= k ==> StillAt(p, limits, component, cur, k)
  {
    hide WellFormed, Iterate, Starting, Tokens, TokenUniverse, AlwaysSilent, StillAt, AllKnown;
    var bound := |TokenUniverse(p, component)| + 1;
    GrowsOrStops(p, limits, component, cur, bound);
    IterateKnown(p, limits, component, cur, bound);
    TokensBounded(p, component, Iterate(p, limits, component, cur, bound));
    SubsetSize(Tokens(component, Iterate(p, limits, component, cur, bound)), TokenUniverse(p, component));
    n :| n < bound && StillAt(p, limits, component, cur, n);
    forall k: nat | n <= k
      ensures StillAt(p, limits, component, cur, k)
    {
      StaysStill(p, limits, component, cur, n, k);
    }
  }

  // A cap with room for every identity the program can form never fires.
  lemma RoomyCapIsSilent(p: Program, limits: Limits, component: seq<nat>, cur: Current)
    requires WellFormed(p) && Members(p, component) && AllKnown(p, cur)
    requires |EffectUniverse(p)| <= limits.maxEffects
    ensures AlwaysSilent(p, limits, component, cur)
  {
    hide WellFormed, Iterate, EffectUniverse, AllEffects, AllKnown;
    forall n: nat
      ensures CapSilent(p, limits, component, Iterate(p, limits, component, cur, n))
    {
      IterateKnown(p, limits, component, cur, n);
      forall s | s in component
        ensures |AllEffects(p, p.summaries[s], Iterate(p, limits, component, cur, n))| <= limits.maxEffects
      {
        EffectsFit(p, s, Iterate(p, limits, component, cur, n));
      }
    }
  }

  lemma EffectsFit(p: Program, s: nat, cur: Current)
    requires WellFormed(p) && s in p.summaries && AllKnown(p, cur)
    ensures |AllEffects(p, p.summaries[s], cur)| <= |EffectUniverse(p)|
  {
    hide WellFormed, AllEffects, EffectUniverse, KnownPath, AllKnown;
    IdMatches(p, s);
    AllEffectsKnown(p, p.summaries[s], cur);
    SubsetSize(AllEffects(p, p.summaries[s], cur).Keys, EffectUniverse(p));
  }

  // In a run every component starts from its members' local facts -----------------------

  lemma InitialKnownAndShaped(p: Program)
    requires WellFormed(p)
    ensures AllShaped(p, Initial(p)) && AllKnown(p, Initial(p))
  {
    hide EffectKnown, OriginKnown, LocalEffects, LocalOrigins, Shaped, OriginShaped;
    forall s | s in p.summaries
      ensures FactsShaped(p, p.summaries[s], Initial(p)[s]) && FactsKnown(p, Initial(p)[s])
    {
      IdMatches(p, s);
      forall i | i in LocalEffects(p, s)
        ensures Shaped(p, p.summaries[s], i, LocalEffects(p, s)[i]) && EffectKnown(p, i, LocalEffects(p, s)[i])
      {
        LocalShaped(p, p.summaries[s], i);
        LocalEffectKnown(p, s, i);
      }
      forall i | i in LocalOrigins(p, s)
        ensures OriginShaped(p, p.summaries[s], i, LocalOrigins(p, s)[i]) && OriginKnown(p, i, LocalOrigins(p, s)[i])
      {
        LocalOriginShaped(p, p.summaries[s], i);
        LocalOriginKnown(p, s, i);
      }
      assert p.summaries[s].localReasons <= ReasonUniverse(p);
    }
  }

  lemma LocalOriginShaped(p: Program, c: Summary, i: FactId)
    requires WellFormed(p) && i in LocalOrigins(p, c.id)
    ensures OriginShaped(p, c, i, LocalOrigins(p, c.id)[i])
  {
    LocalOriginIds(p, c.id);
  }

  lemma AddReasonKeeps(p: Program, component: seq<nat>, cur: Current)
    requires AllShaped(p, cur) && AllKnown(p, cur)
    ensures AllShaped(p, AddReason(cur, component, SccIterationCap)) && AllKnown(p, AddReason(cur, component, SccIterationCap))
  {
    hide Shaped, OriginShaped, EffectKnown, OriginKnown;
    var cur' := AddReason(cur, component, SccIterationCap);
    forall s | s in cur'
      ensures s in p.summaries && FactsShaped(p, p.summaries[s], cur'[s]) && FactsKnown(p, cur'[s])
    {
      assert FactsShaped(p, p.summaries[s], cur[s]) && FactsKnown(p, cur[s]);
      assert SccIterationCap in ReasonUniverse(p);
    }
  }

  // The solver's own iteration visits these iterates.
  lemma {:induction false} JacobiIsIterate(p: Program, limits: Limits, component: seq<nat>, cur: Current, done: nat, count: nat, limit: nat)
    requires WellFormed(p) && Members(p, component) && count <= limit && count == done + 1
    ensures var o := Jacobi(p, limits, component, Iterate(p, limits, component, cur, done), count, limit);
            o.iterations <= limit && o.cur == Iterate(p, limits, component, cur, o.iterations)
    decreases limit - count
  {
    hide WellFormed, TransferFacts, Iterate, Round, Stable;
    IterateStep(p, limits, component, cur, done);
    var here := Iterate(p, limits, component, cur, done);
    var o := Jacobi(p, limits, component, here, count, limit);
    JacobiStep(p, limits, component, here, count, limit);
    if o != Outcome(here + Round(p, limits, component, here), o.converged, count) {
      JacobiIsIterate(p, limits, component, cur, done + 1, count + 1, limit);
    }
  }

  lemma IterateStep(p: Program, limits: Limits, component: seq<nat>, cur: Current, n: nat)
    requires WellFormed(p) && Members(p, component)
    ensures Iterate(p, limits, component, cur, n + 1)
            == Iterate(p, limits, component, cur, n) + Round(p, limits, component, Iterate(p, limits, component, cur, n))
  {
    hide WellFormed, Round;
  }

  lemma JacobiStep(p: Program, limits: Limits, component: seq<nat>, cur: Current, count: nat, limit: nat)
    requires WellFormed(p) && Members(p, component) && count <= limit
    ensures var o := Jacobi(p, limits, component, cur, count, limit);
            var next := cur + Round(p, limits, component, cur);
            || o == Outcome(next, o.converged, count)
            || (count < limit && o == Jacobi(p, limits, component, next, count + 1, limit))
  {
    hide WellFormed, TransferFacts;
  }

  lemma ComponentKeeps(p: Program, limits: Limits, component: seq<nat>, cur: Current)
    requires WellFormed(p) && limits.Valid() && Members(p, component) && AllShaped(p, cur) && AllKnown(p, cur)
    requires forall s :: s in component ==> s in cur
    ensures var o := SolveComponent(p, limits, component, cur);
            AllShaped(p, o.cur) && AllKnown(p, o.cur)
  {
    hide WellFormed, CallGraph, Jacobi, AllShaped, AllKnown, Shortcut, TransferFacts;
    if Solitary(p, component) {
      assert component == [component[0]];
      ShortcutIsExact(p, limits, component[0], cur);
    }
    var limit := IterationLimit(limits, component);
    JacobiIsIterate(p, limits, component, cur, 0, 1, limit);
    var o := Jacobi(p, limits, component, cur, 1, limit);
    IterateShaped(p, limits, component, cur, o.iterations);
    IterateKnown(p, limits, component, cur, o.iterations);
    AddReasonKeeps(p, component, o.cur);
  }

  lemma {:induction false} RunKeeps(p: Program, limits: Limits, components: seq<seq<nat>>, k: nat)
    requires WellFormed(p) && limits.Valid() && AllMembers(p, components) && k <= |components|
    ensures AllShaped(p, RunTo(p, limits, components, k).cur) && AllKnown(p, RunTo(p, limits, components, k).cur)
  {
    hide WellFormed, SolveComponent, AllShaped, AllKnown, Initial;
    if k == 0 {
      InitialKnownAndShaped(p);
    } else {
      RunKeeps(p, limits, components, k - 1);
      RunKeys(p, limits, components, k - 1);
      assert Members(p, components[k - 1]);
      ComponentKeeps(p, limits, components[k - 1], RunTo(p, limits, components, k - 1).cur);
    }
  }

  lemma {:induction false} UnsolvedIsInitial(p: Program, limits: Limits, components: seq<seq<nat>>, k: nat, s: nat)
    requires WellFormed(p) && limits.Valid() && AllMembers(p, components) && k <= |components|
    requires s in p.summaries && !Tarjan.Emitted(components[..k], s)
    ensures s in RunTo(p, limits, components, k).cur
    ensures FactsOf(RunTo(p, limits, components, k).cur, s) == FactsOf(Initial(p), s)
  {
    hide WellFormed, SolveComponent, FactsOf, Initial;
    RunKeys(p, limits, components, k);
    if k > 0 {
      assert components[..k][k - 1] == components[k - 1];
      assert forall j :: 0 <= j < k - 1 ==> components[..k][j] == components[..k - 1][j];
      UnsolvedIsInitial(p, limits, components, k - 1, s);
      RunKeys(p, limits, components, k - 1);
      assert Members(p, components[k - 1]);
      ComponentSettles(p, limits, components[k - 1], RunTo(p, limits, components, k - 1).cur);
    }
  }

  // Component k of a run meets every premise of IdentitiesReachFixpoint but the cap.
  lemma RunStartsComponent(p: Program, limits: Limits, components: seq<seq<nat>>, k: nat)
    requires WellFormed(p) && limits.Valid() && AllMembers(p, components) && Ordered(p, components) && k < |components|
    ensures Members(p, components[k])
    ensures Starting(p, components[k], RunTo(p, limits, components, k).cur)
    ensures AllKnown(p, RunTo(p, limits, components, k).cur)
  {
    hide WellFormed, SolveComponent, RunTo, AllShaped, AllKnown;
    RunKeeps(p, limits, components, k);
    assert Members(p, components[k]);
    forall s | s in components[k]
      ensures !Tarjan.Emitted(components[..k], s)
    {
      if Tarjan.Emitted(components[..k], s) {
        LaterIsNot(components, k, s);
      }
    }
    forall s | s in components[k]
      ensures s in RunTo(p, limits, components, k).cur
      ensures RunTo(p, limits, components, k).cur[s]
              == Facts(LocalEffects(p, s), LocalOrigins(p, s), p.summaries[s].localReasons)
    {
      UnsolvedIsInitial(p, limits, components, k, s);
    }
  }

  // With such a cap every component of every run reaches its fixpoint of identities.
  lemma RunReachesFixpoint(p: Program, limits: Limits, components: seq<seq<nat>>, k: nat) returns (n: nat)
    requires WellFormed(p) && limits.Valid() && AllMembers(p, components) && Ordered(p, components) && k < |components|
    requires |EffectUniverse(p)| <= limits.maxEffects
    ensures Members(p, components[k]) && n <= |TokenUniverse(p, components[k])|
    ensures forall j: nat :: n <= j ==> StillAt(p, limits, components[k], RunTo(p, limits, components, k).cur, j)
  {
    hide WellFormed, RunTo, Ordered, AllMembers, EffectUniverse, TokenUniverse, AlwaysSilent, StillAt, Starting, AllKnown;
    RunStartsComponent(p, limits, components, k);
    var cur := RunTo(p, limits, components, k).cur;
    RoomyCapIsSilent(p, limits, components[k], cur);
    n := IdentitiesReachFixpoint(p, limits, components[k], cur);
  }
}
