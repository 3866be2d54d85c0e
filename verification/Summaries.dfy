// Function summaries of one build variant, the call edges between them, and how
// one fact crosses one call edge.
module Summaries {
  import opened Graphs
  import opened Options

  datatype Certainty = Certain | Possible

  datatype LocationKind =
    | LocalStorage | ParameterStorage | GlobalStorage | ReturnSlot
    | DereferenceStorage | FieldStorage | UnknownStorage

  datatype EffectKind = Read | Write | Escape

  datatype OriginKind = LocationOrigin | CallResult | ConstantOrigin | UnknownOrigin

  datatype Mode = ByValue | ConstReference | Reference | RvalueReference | ConstPointer | Pointer

  datatype Reason =
    | LocalReason(code: nat)
    | SccSizeCap
    | UnknownCallTarget
    | ExternalCalleeBody
    | MultipleCalleeBodies
    | MissingArgumentBinding
    | IncompleteArgumentBinding
    | CalleeIncomplete
    | SummaryEffectCap
    | SccIterationCap

  // Fact identities. The hash of an argument tuple is an injective constructor
  // on that tuple; identities of local facts never coincide with propagated ones.
  datatype FactId =
    | LocalFact(number: nat)
    | PropagatedEffect(caller: nat, kind: EffectKind, locationKind: LocationKind, parameter: Option<nat>,
                       path: seq<nat>, site: nat, target: nat, access: Option<nat>)
    | PropagatedOrigin(caller: nat, site: nat, target: nat, originLocation: Option<LocationKind>,
                       parameter: Option<nat>, path: seq<nat>, location: Option<nat>)

  datatype Effect = Effect(
    id: FactId,
    kind: EffectKind,
    locationKind: LocationKind,
    certainty: Certainty,
    parameter: Option<nat>,
    path: seq<nat>,
    location: Option<nat>,
    access: Option<nat>
  )

  datatype Origin = Origin(
    id: FactId,
    kind: OriginKind,
    certainty: Certainty,
    locationKind: Option<LocationKind>,
    parameter: Option<nat>,
    path: seq<nat>,
    location: Option<nat>,
    callsite: Option<nat>
  )

  // One function body in one translation unit of one build configuration.
  datatype Summary = Summary(
    id: nat, symbol: nat, unit: nat, configuration: nat, parameters: seq<nat>, modes: seq<Mode>, localReasons: set<Reason>)

  datatype Site = Site(id: nat, owner: nat, unit: nat, configuration: nat, targetSetComplete: bool)

  datatype Target = Target(site: nat, symbol: nat, certainty: Certainty)

  datatype BindingKey = BindingKey(caller: nat, site: nat, argument: nat)

  datatype Binding = Binding(
    locationKind: LocationKind, parameter: Option<nat>, path: seq<nat>, location: Option<nat>,
    writeback: bool, complete: bool)

  // Where a call's result is stored: keyed by caller and call site.
  datatype ResultKey = ResultKey(caller: nat, site: nat)

  datatype ResultBinding = ResultBinding(location: nat, access: nat)

  datatype Limits = Limits(maxIterations: nat, maxSccSize: nat, maxEffects: nat) {
    predicate Valid() { maxIterations > 0 && maxSccSize > 0 && maxEffects > 0 }
  }

  // `rank` orders fact identities the way sorting their digests does.
  datatype Program = Program(
    summaries: map<nat, Summary>,
    sites: seq<Site>,
    targets: seq<Target>,
    bindings: map<BindingKey, Binding>,
    results: map<ResultKey, ResultBinding>,
    localEffects: map<nat, map<FactId, Effect>>,
    localOrigins: map<nat, map<FactId, Origin>>,
    rank: FactId -> nat
  )

  datatype Edge = Edge(caller: Summary, site: Site, target: Target, callee: Summary, ambiguous: bool)

  // Facts are filed under their own identities, and name parameters their function has.
  predicate EffectsWell(p: Program, s: nat, effects: map<FactId, Effect>) {
    forall i :: i in effects ==>
      effects[i].id == i && i.LocalFact? && s in p.summaries && InRange(effects[i].parameter, p.summaries[s])
  }

  predicate OriginsWell(origins: map<FactId, Origin>) {
    forall i :: i in origins ==> origins[i].id == i && i.LocalFact?
  }

  // What the analyzer's fact builder guarantees about its output.
  ghost predicate WellFormed(p: Program) {
    && (forall s :: s in p.summaries ==> p.summaries[s].id == s && |p.summaries[s].modes| == |p.summaries[s].parameters|)
    && (forall s :: s in p.localEffects ==> EffectsWell(p, s, p.localEffects[s]))
    && (forall s :: s in p.localOrigins ==> OriginsWell(p.localOrigins[s]))
    && (forall k :: k in p.bindings && k.caller in p.summaries ==>
          InRange(p.bindings[k].parameter, p.summaries[k.caller]))
    && (forall a, b :: p.rank(a) == p.rank(b) ==> a == b)
  }

  predicate InRange(parameter: Option<nat>, s: Summary) {
    parameter.Some? ==> parameter.value < |s.parameters|
  }

  function LocalEffects(p: Program, s: nat): map<FactId, Effect> {
    if s in p.localEffects then p.localEffects[s] else map[]
  }

  function LocalOrigins(p: Program, s: nat): map<FactId, Origin> {
    if s in p.localOrigins then p.localOrigins[s] else map[]
  }

  // An effect or an origin that the analyzer itself reports of a body, under its own identity.
  ghost predicate OwnEffect(p: Program, s: nat, l: Effect) {
    s in p.localEffects && l.id in p.localEffects[s] && p.localEffects[s][l.id] == l
  }

  ghost predicate OwnOrigin(p: Program, s: nat, l: Origin) {
    s in p.localOrigins && l.id in p.localOrigins[s] && p.localOrigins[s][l.id] == l
  }

  lemma OwnFacts(p: Program, s: nat)
    ensures forall l :: OwnEffect(p, s, l) <==> l.id in LocalEffects(p, s) && LocalEffects(p, s)[l.id] == l
    ensures forall l :: OwnOrigin(p, s, l) <==> l.id in LocalOrigins(p, s) && LocalOrigins(p, s)[l.id] == l
  {
  }

  function Filter<T(!new)>(s: seq<T>, keep: T -> bool): (r: seq<T>)
    ensures forall x :: x in r <==> x in s && keep(x)
  {
    if s == [] then []
    else
      var rest := Filter(s[..|s| - 1], keep);
      var last := s[|s| - 1];
      assert s == s[..|s| - 1] + [last];
      if keep(last) then rest + [last] else rest
  }

  // The call sites of this very body: one symbol can have bodies in several units.
  function OwnerSites(p: Program, c: Summary): seq<Site> {
    Filter(p.sites, (s: Site) => s.owner == c.symbol && s.unit == c.unit && s.configuration == c.configuration)
  }

  function TargetsOf(p: Program, site: Site): seq<Target> {
    Filter(p.targets, (t: Target) => t.site == site.id)
  }

  function Candidates(p: Program, symbol: nat): seq<nat> {
    Filter(Sorted(p.summaries.Keys), (s: nat) => s in p.summaries && p.summaries[s].symbol == symbol)
  }

  // Bodies a call may enter: those of the caller's own unit and configuration
  // when there are any, otherwise every body of the symbol.
  function Bodies(p: Program, c: Summary, target: Target): (r: seq<nat>)
    ensures forall s :: s in r ==> s in p.summaries
  {
    var candidates := Candidates(p, target.symbol);
    var sameUnit := Filter(candidates, (s: nat) =>
      s in p.summaries && p.summaries[s].unit == c.unit && p.summaries[s].configuration == c.configuration);
    if sameUnit != [] then sameUnit else candidates
  }

  // Filtering part by part: what is kept stays in order.
  lemma {:induction false} FilterParts<T(!new)>(s: seq<T>, t: seq<T>, keep: T -> bool)
    ensures Filter(s + t, keep) == Filter(s, keep) + Filter(t, keep)
  {
    if t == [] {
      assert s + t == s;
    } else {
      var n := |t| - 1;
      assert (s + t)[..|s + t| - 1] == s + t[..n];
      FilterParts(s, t[..n], keep);
    }
  }

  lemma {:induction false} FilterAscending(s: seq<nat>, keep: nat -> bool)
    requires StrictlyAscending(s)
    ensures StrictlyAscending(Filter(s, keep))
  {
    if s != [] {
      var n := |s| - 1;
      FilterAscending(s[..n], keep);
      var rest := Filter(s[..n], keep);
      forall i | 0 <= i < |rest|
        ensures rest[i] < s[n]
      {
        assert rest[i] in s[..n];
      }
    }
  }

  lemma AscendingCandidates(p: Program, symbol: nat)
    ensures StrictlyAscending(Candidates(p, symbol))
  {
    FilterAscending(Sorted(p.summaries.Keys), (s: nat) => s in p.summaries && p.summaries[s].symbol == symbol);
  }

  lemma AscendingBodies(p: Program, c: Summary, target: Target)
    ensures StrictlyAscending(Bodies(p, c, target))
  {
    AscendingCandidates(p, target.symbol);
    hide Candidates;
    FilterAscending(Candidates(p, target.symbol), (s: nat) =>
      s in p.summaries && p.summaries[s].unit == c.unit && p.summaries[s].configuration == c.configuration);
  }

  // The bodies that a call of `symbol` from c may enter, spelled out: those of c's own unit and
  // configuration, or all of them if there is none.
  ghost predicate Enters(p: Program, c: Summary, symbol: nat, s: nat) {
    && s in p.summaries && p.summaries[s].symbol == symbol
    && ((p.summaries[s].unit == c.unit && p.summaries[s].configuration == c.configuration)
        || forall t :: t in p.summaries && p.summaries[t].symbol == symbol ==>
                         !(p.summaries[t].unit == c.unit && p.summaries[t].configuration == c.configuration))
  }

  lemma BodiesExact(p: Program, c: Summary, target: Target)
    ensures forall s :: s in Bodies(p, c, target) <==> Enters(p, c, target.symbol, s)
    ensures |Bodies(p, c, target)| > 1 <==>
              exists s, t :: Enters(p, c, target.symbol, s) && Enters(p, c, target.symbol, t) && s != t
  {
    BodiesMembers(p, c, target);
    AscendingBodies(p, c, target);
    var bodies := Bodies(p, c, target);
    hide Bodies, Enters;
    if |bodies| > 1 {
      assert bodies[0] in bodies && bodies[1] in bodies && bodies[0] != bodies[1];
    }
    if s, t :| Enters(p, c, target.symbol, s) && Enters(p, c, target.symbol, t) && s != t {
      assert s in bodies && t in bodies;
    }
  }

  lemma BodiesMembers(p: Program, c: Summary, target: Target)
    ensures forall s :: s in Bodies(p, c, target) <==> Enters(p, c, target.symbol, s)
  {
    var candidates := Candidates(p, target.symbol);
    assert forall s :: s in candidates <==> s in p.summaries && p.summaries[s].symbol == target.symbol;
    hide Candidates;
    var sameUnit := Filter(candidates, (s: nat) =>
      s in p.summaries && p.summaries[s].unit == c.unit && p.summaries[s].configuration == c.configuration);
    if sameUnit != [] {
      assert sameUnit[0] in sameUnit;
    }
  }

  function BodyEdges(p: Program, c: Summary, site: Site, target: Target, bodies: seq<nat>, ambiguous: bool): (r: seq<Edge>)
    requires forall s :: s in bodies ==> s in p.summaries
    ensures |r| == |bodies|
    ensures forall i :: 0 <= i < |r| ==> r[i] == Edge(c, site, target, p.summaries[bodies[i]], ambiguous)
  {
    seq(|bodies|, i requires 0 <= i < |bodies| => Edge(c, site, target, p.summaries[bodies[i]], ambiguous))
  }

  function TargetEdges(p: Program, c: Summary, site: Site, target: Target): seq<Edge> {
    var bodies := Bodies(p, c, target);
    BodyEdges(p, c, site, target, bodies, |bodies| > 1)
  }

  function SiteEdges(p: Program, c: Summary, site: Site, targets: seq<Target>): seq<Edge> {
    if targets == [] then []
    else SiteEdges(p, c, site, targets[..|targets| - 1]) + TargetEdges(p, c, site, targets[|targets| - 1])
  }

  function SitesEdges(p: Program, c: Summary, sites: seq<Site>): seq<Edge> {
    if sites == [] then []
    else
      var last := sites[|sites| - 1];
      SitesEdges(p, c, sites[..|sites| - 1]) + SiteEdges(p, c, last, TargetsOf(p, last))
  }

  // All call edges leaving a body, in the order the solver visits them.
  function CallEdges(p: Program, c: Summary): seq<Edge> {
    SitesEdges(p, c, OwnerSites(p, c))
  }

  function CallGraph(p: Program): Graph {
    map c | c in p.summaries :: CalleeIds(CallEdges(p, p.summaries[c]))
  }

  function CalleeIds(edges: seq<Edge>): set<nat> {
    set e | e in edges :: e.callee.id
  }

  ghost predicate OwnSite(p: Program, c: Summary, site: Site) {
    site in p.sites && site.owner == c.symbol && site.unit == c.unit && site.configuration == c.configuration
  }

  ghost predicate TargetAt(p: Program, site: Site, target: Target) {
    target in p.targets && target.site == site.id
  }

  // An edge of caller c, spelled out.
  ghost predicate IsEdge(p: Program, c: Summary, e: Edge) {
    && e.caller == c && OwnSite(p, c, e.site) && TargetAt(p, e.site, e.target)
    && (exists s :: Enters(p, c, e.target.symbol, s) && e.callee == p.summaries[s])
    && (e.ambiguous <==> exists s, t :: Enters(p, c, e.target.symbol, s) && Enters(p, c, e.target.symbol, t) && s != t)
  }

  // The argument that edge e binds to parameter i of its callee.
  function ArgumentOf(p: Program, e: Edge, i: nat): Option<Binding> {
    var key := BindingKey(e.caller.id, e.site.id, i);
    if key in p.bindings then Some(p.bindings[key]) else None
  }

  lemma {:induction false} SiteEdgesMembers(p: Program, c: Summary, site: Site, targets: seq<Target>, e: Edge)
    ensures e in SiteEdges(p, c, site, targets) <==>
              exists t :: t in targets && e in TargetEdges(p, c, site, t)
  {
    hide TargetEdges;
    if targets != [] {
      var n := |targets| - 1;
      SiteEdgesMembers(p, c, site, targets[..n], e);
      assert targets == targets[..n] + [targets[n]];
    }
  }

  lemma {:induction false} SitesEdgesMembers(p: Program, c: Summary, sites: seq<Site>, e: Edge)
    ensures e in SitesEdges(p, c, sites) <==>
              exists s :: s in sites && e in SiteEdges(p, c, s, TargetsOf(p, s))
  {
    hide SiteEdges, TargetsOf;
    if sites != [] {
      var n := |sites| - 1;
      SitesEdgesMembers(p, c, sites[..n], e);
      assert sites == sites[..n] + [sites[n]];
    }
  }

  lemma CallEdgesMembers(p: Program, c: Summary, e: Edge)
    ensures e in CallEdges(p, c) <==>
              e.site in OwnerSites(p, c) && e.target in TargetsOf(p, e.site) && e in TargetEdges(p, c, e.site, e.target)
  {
    hide OwnerSites, TargetsOf, SiteEdges, SitesEdges, TargetEdges, Bodies;
    SitesEdgesMembers(p, c, OwnerSites(p, c), e);
    forall s | s in OwnerSites(p, c)
      ensures e in SiteEdges(p, c, s, TargetsOf(p, s)) <==> s == e.site && e.target in TargetsOf(p, s) && e in TargetEdges(p, c, s, e.target)
    {
      SiteEdgesMembers(p, c, s, TargetsOf(p, s), e);
      forall t | t in TargetsOf(p, s)
        ensures e in TargetEdges(p, c, s, t) ==> t == e.target && s == e.site
      {
        TargetEdgesMembers(p, c, s, t, e);
      }
    }
  }

  // The flattened edge list holds exactly the edges of the definition.
  lemma EdgesAreEdges(p: Program, c: Summary, e: Edge)
    ensures e in CallEdges(p, c) <==> IsEdge(p, c, e)
  {
    CallEdgesMembers(p, c, e);
    TargetEdgesMembers(p, c, e.site, e.target, e);
    BodiesExact(p, c, e.target);
    hide CallEdges, TargetEdges, Bodies, Enters;
  }

  // The call graph has an edge between two bodies exactly when one calls the other.
  lemma CallGraphExact(p: Program, c: nat, s: nat)
    ensures s in Successors(CallGraph(p), c) <==> c in p.summaries && exists e :: IsEdge(p, p.summaries[c], e) && e.callee.id == s
  {
    hide CallEdges, IsEdge;
    if c in p.summaries {
      forall e
        ensures e in CallEdges(p, p.summaries[c]) <==> IsEdge(p, p.summaries[c], e)
      {
        EdgesAreEdges(p, p.summaries[c], e);
      }
    }
  }

  lemma TargetEdgesMembers(p: Program, c: Summary, site: Site, target: Target, e: Edge)
    ensures e in TargetEdges(p, c, site, target) <==>
              && e.caller == c && e.site == site && e.target == target
              && (exists s :: s in Bodies(p, c, target) && e.callee == p.summaries[s])
              && e.ambiguous == (|Bodies(p, c, target)| > 1)
  {
    hide Bodies;
    var bodies := Bodies(p, c, target);
    if s :| s in bodies && e == Edge(c, site, target, p.summaries[s], |bodies| > 1) {
      var i :| 0 <= i < |bodies| && bodies[i] == s;
      assert TargetEdges(p, c, site, target)[i] == e;
    }
  }

  // A call never mixes units: the site belongs to the caller's own body, and the
  // callee is a body of the target symbol, of the caller's unit if one exists.
  lemma EdgesStayInUnit(p: Program, c: Summary, e: Edge)
    requires WellFormed(p) && e in CallEdges(p, c)
    ensures e.site.owner == c.symbol && e.site.unit == c.unit && e.site.configuration == c.configuration
    ensures e.callee.id in p.summaries && p.summaries[e.callee.id] == e.callee
    ensures e.callee.symbol == e.target.symbol
    ensures forall s :: s in p.summaries && p.summaries[s].symbol == e.target.symbol
                     && p.summaries[s].unit == c.unit && p.summaries[s].configuration == c.configuration
              ==> e.callee.unit == c.unit && e.callee.configuration == c.configuration
  {
    EdgesAreEdges(p, c, e);
    hide CallEdges;
  }

  function Join(target: Certainty, evidence: Certainty): Certainty {
    if target.Certain? && evidence.Certain? then Certain else Possible
  }

  function EdgeCertainty(e: Edge, evidence: Certainty): Certainty {
    Join(e.target.certainty, if e.ambiguous then Possible else evidence)
  }

  const MAX_PATH := 8

  function Cut(path: seq<nat>): seq<nat> {
    if |path| <= MAX_PATH then path else path[..MAX_PATH]
  }

  function KeyOf(e: Edge, parameter: nat): BindingKey {
    BindingKey(e.caller.id, e.site.id, parameter)
  }

  function EffectVia(e: Edge, y: Effect, locationKind: LocationKind, parameter: Option<nat>, path: seq<nat>,
                     location: Option<nat>): Effect
  {
    Effect(PropagatedEffect(e.caller.id, y.kind, locationKind, parameter, path, e.site.id, e.target.symbol, y.access),
           y.kind, locationKind, EdgeCertainty(e, y.certainty), parameter, path, location, y.access)
  }

  // A callee effect seen from the caller of edge e.
  function PropagateEffect(p: Program, e: Edge, y: Effect): Option<Effect> {
    match y.parameter
    case Some(i) =>
      if KeyOf(e, i) !in p.bindings then None
      else
        var b := p.bindings[KeyOf(e, i)];
        Some(EffectVia(e, y, b.locationKind, b.parameter, Cut(b.path + y.path), b.location))
    case None =>
      if y.locationKind.GlobalStorage? || y.locationKind.FieldStorage? then
        Some(EffectVia(e, y, y.locationKind, None, y.path, y.location))
      else
        None
  }

  function OriginVia(e: Edge, y: Origin, locationKind: Option<LocationKind>, parameter: Option<nat>, path: seq<nat>,
                     location: Option<nat>): Origin
  {
    Origin(PropagatedOrigin(e.caller.id, e.site.id, e.target.symbol, locationKind, parameter, path, location),
           if locationKind.Some? then LocationOrigin else UnknownOrigin,
           EdgeCertainty(e, y.certainty), locationKind, parameter, path, location, None)
  }

  // A callee return origin seen from the caller of edge e.
  function PropagateOrigin(p: Program, e: Edge, y: Origin): Origin {
    match y.parameter
    case Some(i) =>
      if KeyOf(e, i) !in p.bindings then
        OriginVia(e, y, Some(UnknownStorage), None, [], None)
      else
        var b := p.bindings[KeyOf(e, i)];
        OriginVia(e, y, Some(b.locationKind), b.parameter, Cut(b.path + y.path), b.location)
    case None =>
      OriginVia(e, y, y.locationKind, None, y.path, y.location)
  }
}
