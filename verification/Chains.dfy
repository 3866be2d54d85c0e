// Call chains: the reference meaning of a propagated effect. An effect belongs to
// a summary when a chain of call edges leads from it to a local effect.
module Chains {
  import opened Graphs
  import opened Options
  import opened Summaries
  import opened Transfer
  import opened TransferMeaning

  type Chain = seq<Edge>

  // A chain of call edges leading from the body of c to the body of t.
  ghost predicate ChainFrom(p: Program, c: Summary, chain: Chain, t: Summary)
    decreases |chain|
  {
    if chain == [] then c == t
    else chain[0] in CallEdges(p, c) && ChainFrom(p, chain[0].callee, chain[1..], t)
  }

  // A local effect carried back along a chain.
  function ChainImage(p: Program, chain: Chain, l: Effect): Option<Effect> {
    if chain == [] then Some(l)
    else match ChainImage(p, chain[1..], l)
      case None => None
      case Some(y) => PropagateEffect(p, chain[0], y)
  }

  ghost predicate ChainProves(p: Program, c: Summary, x: Effect, chain: Chain, t: Summary, i: FactId) {
    && ChainFrom(p, c, chain, t)
    && i in LocalEffects(p, t.id)
    && ChainImage(p, chain, LocalEffects(p, t.id)[i]) == Some(x)
  }

  ghost predicate Justified(p: Program, c: Summary, x: Effect) {
    exists chain, t, i :: ChainProves(p, c, x, chain, t, i)
  }

  // What an effect's identity says about the effect.
  ghost predicate Shaped(p: Program, c: Summary, i: FactId, x: Effect) {
    && x.id == i
    && InRange(x.parameter, c)
    && match i
       case LocalFact(_) => i in LocalEffects(p, c.id) && x == LocalEffects(p, c.id)[i]
       case PropagatedEffect(caller, kind, locationKind, parameter, path, _, _, access) =>
         && caller == c.id && x.kind == kind && x.locationKind == locationKind
         && x.parameter == parameter && x.path == path && x.access == access
       case PropagatedOrigin(_, _, _, _, _, _, _) => false
  }

  // Every effect currently held has an identity that fits and a chain behind it.
  ghost predicate Sourced(p: Program, cur: Current) {
    forall s, i :: s in cur && i in cur[s].effects ==>
                     && s in p.summaries
                     && Shaped(p, p.summaries[s], i, cur[s].effects[i])
                     && Justified(p, p.summaries[s], cur[s].effects[i])
  }

  lemma LocalShaped(p: Program, c: Summary, i: FactId)
    requires WellFormed(p) && c.id in p.summaries && p.summaries[c.id] == c && i in LocalEffects(p, c.id)
    ensures Shaped(p, c, i, LocalEffects(p, c.id)[i]) && Justified(p, c, LocalEffects(p, c.id)[i])
  {
    assert ChainProves(p, c, LocalEffects(p, c.id)[i], [], c, i);
  }

  lemma ImageShaped(p: Program, c: Summary, e: Edge, y: Effect, x: Effect)
    requires WellFormed(p) && c.id in p.summaries && p.summaries[c.id] == c && e.caller == c
    requires PropagateEffect(p, e, y) == Some(x)
    ensures Shaped(p, c, x.id, x)
  {
  }

  lemma ImageJustified(p: Program, c: Summary, e: Edge, y: Effect, x: Effect)
    requires e in CallEdges(p, c) && Justified(p, e.callee, y) && PropagateEffect(p, e, y) == Some(x)
    ensures Justified(p, c, x)
  {
    var chain, t, i :| ChainProves(p, e.callee, y, chain, t, i);
    var longer := [e] + chain;
    assert longer[1..] == chain;
    assert ChainProves(p, c, x, longer, t, i);
  }

  // No invented effects: a transfer of sourced facts yields sourced facts.
  lemma TransferSourced(p: Program, limits: Limits, oversized: bool, s: nat, cur: Current, i: FactId)
    requires WellFormed(p) && Sourced(p, cur) && s in p.summaries
    requires i in TransferFacts(p, limits, oversized, p.summaries[s], cur).effects
    ensures var x := TransferFacts(p, limits, oversized, p.summaries[s], cur).effects[i];
            Shaped(p, p.summaries[s], i, x) && Justified(p, p.summaries[s], x)
  {
    hide WellFormed, CallEdges, EffectFold, OriginFold, EdgesReasons, Sends, Shaped, Justified, Sourced, Truncate, LocalEffects;
    var c := p.summaries[s];
    IdMatches(p, s);
    TransferHolds(p, limits, oversized, c, cur, i);
    FoldValue(p, CallEdges(p, c), cur, LocalEffects(p, c.id), i);
    var x := AllEffects(p, c, cur)[i];
    if i in LocalEffects(p, c.id) && x == LocalEffects(p, c.id)[i] {
      LocalShaped(p, c, i);
    } else {
      var e :| e in CallEdges(p, c) && Sends(p, e, cur, x);
      SentSourced(p, c, e, cur, x);
    }
  }

  lemma IdMatches(p: Program, s: nat)
    requires WellFormed(p) && s in p.summaries
    ensures p.summaries[s].id == s
  {
  }

  lemma TransferHolds(p: Program, limits: Limits, oversized: bool, c: Summary, cur: Current, i: FactId)
    requires WellFormed(p) && i in TransferFacts(p, limits, oversized, c, cur).effects
    ensures i in AllEffects(p, c, cur) && TransferFacts(p, limits, oversized, c, cur).effects[i] == AllEffects(p, c, cur)[i]
  {
    hide WellFormed, AllEffects, AllOrigins, UncappedReasons;
  }

  lemma SentSourced(p: Program, c: Summary, e: Edge, cur: Current, x: Effect)
    requires WellFormed(p) && Sourced(p, cur) && c.id in p.summaries && p.summaries[c.id] == c
    requires e in CallEdges(p, c) && Sends(p, e, cur, x)
    ensures Shaped(p, c, x.id, x) && Justified(p, c, x)
  {
    hide WellFormed, CallEdges, Shaped, Justified, PropagateEffect;
    EdgesStayInUnit(p, c, e);
    EdgeCaller(p, c, e);
    var j :| j in FactsOf(cur, e.callee.id).effects
             && PropagateEffect(p, e, FactsOf(cur, e.callee.id).effects[j]) == Some(x);
    var y := FactsOf(cur, e.callee.id).effects[j];
    ImageShaped(p, c, e, y, x);
    ImageJustified(p, c, e, y, x);
  }

  lemma EdgeCaller(p: Program, c: Summary, e: Edge)
    requires e in CallEdges(p, c)
    ensures e.caller == c
  {
    EdgesAreEdges(p, c, e);
  }

  // What a chain does to an effect ----------------------------------------------

  // A chain whose every target is certain and unambiguous.
  ghost predicate CertainChain(chain: Chain) {
    forall k :: 0 <= k < |chain| ==> chain[k].target.certainty.Certain? && !chain[k].ambiguous
  }

  lemma CertainStep(chain: Chain)
    ensures CertainChain(chain) <==>
              chain == [] || (chain[0].target.certainty.Certain? && !chain[0].ambiguous && CertainChain(chain[1..]))
  {
    if chain != [] {
      var rest := chain[1..];
      assert forall k :: 1 <= k < |chain| ==> chain[k] == rest[k - 1];
      assert forall k :: 0 <= k < |rest| ==> rest[k] == chain[k + 1];
    }
  }

  // The storage an effect names.
  datatype Place = Place(locationKind: LocationKind, parameter: Option<nat>, location: Option<nat>)

  // The same storage seen from the head of a chain. Where the callee names a parameter, the caller
  // names what the argument is bound to; otherwise only global and field storage can be named.
  function PlaceAlong(p: Program, chain: Chain, from: Place): Option<Place> {
    if chain == [] then Some(from)
    else
      match PlaceAlong(p, chain[1..], from)
      case None => None
      case Some(inner) =>
        match inner.parameter
        case Some(i) =>
          (match ArgumentOf(p, chain[0], i)
           case Some(b) => Some(Place(b.locationKind, b.parameter, b.location))
           case None => None)
        case None =>
          if inner.locationKind.GlobalStorage? || inner.locationKind.FieldStorage? then Some(Place(inner.locationKind, None, inner.location))
          else None
  }

  // The argument substituted at the outermost edge, if one is.
  function SubstitutedAt(p: Program, chain: Chain, from: Place): Option<Binding>
    requires chain != []
  {
    match PlaceAlong(p, chain[1..], from)
    case Some(inner) => if inner.parameter.Some? then ArgumentOf(p, chain[0], inner.parameter.value) else None
    case None => None
  }

  // The number of substitutions along a chain, and the arguments' access paths, outermost first.
  function Substitutions(p: Program, chain: Chain, from: Place): nat {
    if chain == [] then 0
    else Substitutions(p, chain[1..], from) + if SubstitutedAt(p, chain, from).Some? then 1 else 0
  }

  function ArgumentPaths(p: Program, chain: Chain, from: Place): seq<nat> {
    if chain == [] then []
    else
      match SubstitutedAt(p, chain, from)
      case Some(b) => b.path + ArgumentPaths(p, chain[1..], from)
      case None => ArgumentPaths(p, chain[1..], from)
  }

  // The access path seen from the head of a chain: at most eight components once a parameter has
  // been substituted.
  function PathAlong(p: Program, chain: Chain, from: Place, path: seq<nat>): seq<nat> {
    var whole := ArgumentPaths(p, chain, from) + path;
    if Substitutions(p, chain, from) == 0 then path else if |whole| <= 8 then whole else whole[..8]
  }

  function PlaceOf(l: Effect): Place {
    Place(l.locationKind, l.parameter, l.location)
  }

  // The identity under which a local effect is filed at the head of a chain.
  function IdAlong(p: Program, chain: Chain, l: Effect): FactId
    requires PlaceAlong(p, chain, PlaceOf(l)).Some?
  {
    if chain == [] then l.id
    else
      var place := PlaceAlong(p, chain, PlaceOf(l)).value;
      PropagatedEffect(chain[0].caller.id, l.kind, place.locationKind, place.parameter, PathAlong(p, chain, PlaceOf(l), l.path),
                       chain[0].site.id, chain[0].target.symbol, l.access)
  }

  lemma CutTwice(a: seq<nat>, b: seq<nat>)
    ensures Cut(a + Cut(b)) == Cut(a + b)
  {
    if |b| > MAX_PATH {
      assert (a + b[..MAX_PATH])[..MAX_PATH] == (a + b)[..MAX_PATH];
    }
  }

  // An effect is carried along a chain exactly when its storage can be named at the chain's head.
  // There it names that storage, under the identity and with the access path said above; kind and
  // source access are the local effect's, and it is certain exactly when everything on the way is.
  lemma {:induction false} ChainImageMeaning(p: Program, chain: Chain, l: Effect)
    ensures ChainImage(p, chain, l).Some? <==> PlaceAlong(p, chain, PlaceOf(l)).Some?
    ensures ChainImage(p, chain, l).Some? ==>
              var x := ChainImage(p, chain, l).value;
              && Place(x.locationKind, x.parameter, x.location) == PlaceAlong(p, chain, PlaceOf(l)).value
              && x.id == IdAlong(p, chain, l) && x.path == PathAlong(p, chain, PlaceOf(l), l.path)
              && x.kind == l.kind && x.access == l.access
              && (x.certainty.Certain? <==> CertainChain(chain) && l.certainty.Certain?)
    ensures Substitutions(p, chain, PlaceOf(l)) == 0 ==> ArgumentPaths(p, chain, PlaceOf(l)) == []
  {
    hide CertainChain;
    CertainStep(chain);
    if chain == [] {
      assert [] + l.path == l.path;
    } else {
      ChainImageMeaning(p, chain[1..], l);
      PathGrows(p, chain, PlaceOf(l), l.path);
      hide PathAlong, ArgumentPaths, Substitutions;
      EdgeImageMeaning(p, chain, l);
    }
  }

  lemma PathGrows(p: Program, chain: Chain, from: Place, path: seq<nat>)
    requires chain != []
    requires Substitutions(p, chain[1..], from) == 0 ==> ArgumentPaths(p, chain[1..], from) == []
    ensures PathAlong(p, chain, from, path)
            == match SubstitutedAt(p, chain, from)
               case Some(b) => Cut(b.path + PathAlong(p, chain[1..], from, path))
               case None => PathAlong(p, chain[1..], from, path)
    ensures Substitutions(p, chain, from) == 0 ==> ArgumentPaths(p, chain, from) == []
  {
    if SubstitutedAt(p, chain, from).Some? {
      var b, inner := SubstitutedAt(p, chain, from).value, ArgumentPaths(p, chain[1..], from);
      assert b.path + inner + path == b.path + (inner + path);
      assert [] + path == path;
      CutTwice(b.path, inner + path);
    }
  }

  // The outermost edge of a chain, given what its rest does.
  lemma EdgeImageMeaning(p: Program, chain: Chain, l: Effect)
    requires chain != []
    requires ChainImage(p, chain[1..], l).Some? <==> PlaceAlong(p, chain[1..], PlaceOf(l)).Some?
    requires ChainImage(p, chain[1..], l).Some? ==>
               var y := ChainImage(p, chain[1..], l).value;
               && Place(y.locationKind, y.parameter, y.location) == PlaceAlong(p, chain[1..], PlaceOf(l)).value
               && y.path == PathAlong(p, chain[1..], PlaceOf(l), l.path) && y.kind == l.kind && y.access == l.access
    requires PathAlong(p, chain, PlaceOf(l), l.path)
             == match SubstitutedAt(p, chain, PlaceOf(l))
                case Some(b) => Cut(b.path + PathAlong(p, chain[1..], PlaceOf(l), l.path))
                case None => PathAlong(p, chain[1..], PlaceOf(l), l.path)
    ensures ChainImage(p, chain, l).Some? <==> PlaceAlong(p, chain, PlaceOf(l)).Some?
    ensures ChainImage(p, chain, l).Some? ==>
              var x, y := ChainImage(p, chain, l).value, ChainImage(p, chain[1..], l).value;
              && Place(x.locationKind, x.parameter, x.location) == PlaceAlong(p, chain, PlaceOf(l)).value
              && x.id == IdAlong(p, chain, l) && x.path == PathAlong(p, chain, PlaceOf(l), l.path)
              && x.kind == l.kind && x.access == l.access
              && (x.certainty.Certain? <==> chain[0].target.certainty.Certain? && !chain[0].ambiguous && y.certainty.Certain?)
  {
    hide PathAlong;
  }

  // Effects of one summary with the same identity cross an edge alike.
  lemma SameIdentityTravelsAlike(p: Program, c: Summary, e: Edge, y: Effect, y': Effect)
    requires Shaped(p, c, y.id, y) && Shaped(p, c, y'.id, y') && y.id == y'.id
    ensures PropagateEffect(p, e, y).Some? <==> PropagateEffect(p, e, y').Some?
    ensures PropagateEffect(p, e, y).Some? ==> PropagateEffect(p, e, y).value.id == PropagateEffect(p, e, y').value.id
  {
  }

  // Which callee effects a call edge with complete bindings carries: all rooted
  // in a parameter, and all in global or field storage.
  predicate Carried(y: Effect) {
    y.parameter.Some? || y.locationKind.GlobalStorage? || y.locationKind.FieldStorage?
  }

  lemma CarriedIff(p: Program, e: Edge, cur: Current, y: Effect)
    requires EdgeComplete(p, e, cur) && InRange(y.parameter, e.callee)
    ensures PropagateEffect(p, e, y).Some? <==> Carried(y)
  {
    assert y.parameter.Some? ==> ArgumentOf(p, e, y.parameter.value).Some?;
  }
}
