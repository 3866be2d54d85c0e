// The order in which facts are traversed, and what follows from it: which effects a cap keeps, and
// which of several writers of one fact has the last word on its certainty.
module LastWriter {
  import opened Graphs
  import opened Options
  import opened Summaries
  import opened Transfer
  import opened TransferMeaning
  import opened Chains
  import opened Convergence
  import opened ReturnOrigins

  ghost predicate Ascends(s: seq<FactId>, rank: FactId -> nat) {
    forall a, b :: 0 <= a < b < |s| ==> rank(s[a]) < rank(s[b])
  }

  // Facts are traversed in ascending order of their identities' digests.
  lemma {:induction false} InOrderAscends(ids: set<FactId>, rank: FactId -> nat)
    requires Injective(rank)
    ensures Ascends(InOrder(ids, rank), rank)
    decreases |ids|
  {
    hide Injective, Ascends;
    if ids == {} {
      AscendsNone(rank);
    } else {
      var m := First(ids, rank);
      var rest := InOrder(ids - {m}, rank);
      InOrderAscends(ids - {m}, rank);
      forall x | x in rest
        ensures rank(m) < rank(x)
      {
        DistinctRanks(rank, m, x);
      }
      AscendsCons(m, rest, rank);
    }
  }

  lemma AscendsNone(rank: FactId -> nat)
    ensures Ascends([], rank)
  {
  }

  lemma DistinctRanks(rank: FactId -> nat, a: FactId, b: FactId)
    requires Injective(rank) && a != b
    ensures rank(a) != rank(b)
  {
  }

  lemma AscendsCons(m: FactId, rest: seq<FactId>, rank: FactId -> nat)
    requires Ascends(rest, rank) && forall x :: x in rest ==> rank(m) < rank(x)
    ensures Ascends([m] + rest, rank)
  {
    assert forall b :: 0 <= b < |rest| ==> rest[b] in rest;
  }

  // Where an identity stands in the traversal: all that follow have greater digests.
  lemma PositionOf(ids: set<FactId>, rank: FactId -> nat, j: FactId) returns (k: nat)
    requires Injective(rank) && j in ids
    ensures k < |ids| && InOrder(ids, rank)[k] == j
    ensures forall n :: k < n < |ids| ==> InOrder(ids, rank)[n] in ids && rank(j) < rank(InOrder(ids, rank)[n])
  {
    hide Injective, InOrder;
    var s := InOrder(ids, rank);
    InOrderAscends(ids, rank);
    assert j in s;
    k :| 0 <= k < |s| && s[k] == j;
    assert forall n :: 0 <= n < |s| ==> s[n] in s;
  }

  lemma RankInjective(p: Program)
    requires WellFormed(p)
    ensures Injective(p.rank)
  {
  }

  lemma EffectAt(p: Program, m: map<FactId, Effect>, j: FactId) returns (k: nat)
    requires WellFormed(p) && j in m
    ensures k < |Effects(p, m)| && Effects(p, m)[k] == m[j]
    ensures forall n :: k < n < |Effects(p, m)| ==> exists l :: l in m && p.rank(j) < p.rank(l) && Effects(p, m)[n] == m[l]
  {
    hide WellFormed, Injective, InOrder;
    RankInjective(p);
    k := PositionOf(m.Keys, p.rank, j);
    var ids := InOrder(m.Keys, p.rank);
    forall n | k < n < |Effects(p, m)|
      ensures exists l :: l in m && p.rank(j) < p.rank(l) && Effects(p, m)[n] == m[l]
    {
      assert ids[n] in m && p.rank(j) < p.rank(ids[n]) && Effects(p, m)[n] == m[ids[n]];
    }
  }

  lemma OriginAt(p: Program, m: map<FactId, Origin>, j: FactId) returns (k: nat)
    requires WellFormed(p) && j in m
    ensures k < |Origins(p, m)| && Origins(p, m)[k] == m[j]
    ensures forall n :: k < n < |Origins(p, m)| ==> exists l :: l in m && p.rank(j) < p.rank(l) && Origins(p, m)[n] == m[l]
  {
    hide WellFormed, Injective, InOrder;
    RankInjective(p);
    k := PositionOf(m.Keys, p.rank, j);
    var ids := InOrder(m.Keys, p.rank);
    forall n | k < n < |Origins(p, m)|
      ensures exists l :: l in m && p.rank(j) < p.rank(l) && Origins(p, m)[n] == m[l]
    {
      assert ids[n] in m && p.rank(j) < p.rank(ids[n]) && Origins(p, m)[n] == m[ids[n]];
    }
  }

  // Of the due facts, the one traversed last.
  ghost predicate Greatest(p: Program, due: set<FactId>, j: FactId) {
    j in due && forall k :: k in due ==> p.rank(k) <= p.rank(j)
  }

  lemma {:induction false} GreatestExists(p: Program, due: set<FactId>) returns (j: FactId)
    requires due != {}
    ensures Greatest(p, due, j)
    decreases |due|
  {
    var first :| first in due;
    var others := due - {first};
    assert forall k :: k in due <==> k == first || k in others;
    j := first;
    if others != {} {
      var last := GreatestExists(p, others);
      if p.rank(first) < p.rank(last) {
        j := last;
      }
    }
  }

  lemma GreatestUnique(p: Program, due: set<FactId>, j: FactId, k: FactId)
    requires WellFormed(p) && Greatest(p, due, j) && Greatest(p, due, k)
    ensures j == k
  {
  }

  // The cap ---------------------------------------------------------------------------------

  // A cap that fires keeps exactly as many effects as it allows, those of smallest digest.
  lemma TruncateKeepsLeast(p: Program, m: map<FactId, Effect>, cap: nat)
    requires WellFormed(p) && |m| > cap
    ensures |Truncate(p, m, cap)| == cap
    ensures forall i, j :: i in Truncate(p, m, cap) && j in m && j !in Truncate(p, m, cap) ==> p.rank(i) < p.rank(j)
  {
    hide WellFormed, Injective, InOrder, Ascends;
    RankInjective(p);
    var ids := InOrder(m.Keys, p.rank);
    InOrderAscends(m.Keys, p.rank);
    var r := Truncate(p, m, cap);
    assert ids == ids[..cap] + ids[cap..];
    assert forall i :: i in ids[..cap] ==> i in ids;
    AscendingParts(ids[..cap], ids[cap..], p.rank);
    assert r.Keys == Among(ids[..cap]);
    assert |r| == |r.Keys|;
    DistinctCount(ids[..cap], p.rank);
    forall i, j | i in r && j in m && j !in r
      ensures p.rank(i) < p.rank(j)
    {
      assert j in ids;
    }
  }

  lemma AscendingParts(s: seq<FactId>, t: seq<FactId>, rank: FactId -> nat)
    requires Ascends(s + t, rank)
    ensures Ascends(s, rank) && forall x, y :: x in s && y in t ==> rank(x) < rank(y)
  {
    var all := s + t;
    assert forall a :: 0 <= a < |s| ==> all[a] == s[a];
    forall x, y | x in s && y in t
      ensures rank(x) < rank(y)
    {
      var a :| 0 <= a < |s| && s[a] == x;
      var b :| 0 <= b < |t| && t[b] == y;
      assert all[|s| + b] == y && all[a] == x;
    }
  }

  function Among(s: seq<FactId>): set<FactId> {
    set i | i in s
  }

  lemma {:induction false} DistinctCount(s: seq<FactId>, rank: FactId -> nat)
    requires Ascends(s, rank)
    ensures |Among(s)| == |s|
  {
    if s != [] {
      var n := |s| - 1;
      var before := s[..n];
      DistinctCount(before, rank);
      assert s == before + [s[n]];
      AscendingParts(before, [s[n]], rank);
      assert Among(s) == Among(before) + {s[n]};
    }
  }

  // Certainty of a propagated effect ---------------------------------------------------------

  // Effect y reaches the caller of edge e under identity i.
  ghost predicate ArrivesAs(p: Program, e: Edge, y: Effect, i: FactId) {
    PlaceAlong(p, [e], PlaceOf(y)).Some? && IdAlong(p, [e], y) == i
  }

  lemma ArrivesIff(p: Program, e: Edge, y: Effect, i: FactId)
    ensures ArrivesAs(p, e, y, i) <==> PropagateEffect(p, e, y).Some? && PropagateEffect(p, e, y).value.id == i
    ensures ArrivesAs(p, e, y, i) ==>
              (PropagateEffect(p, e, y).value.certainty.Certain? <==>
               e.target.certainty.Certain? && !e.ambiguous && y.certainty.Certain?)
  {
    hide PropagateEffect, PlaceAlong, IdAlong, PathAlong, CertainChain;
    ChainImageMeaning(p, [e], y);
    SingleEdge(p, e, y);
  }

  lemma SingleEdge(p: Program, e: Edge, y: Effect)
    ensures ChainImage(p, [e], y) == PropagateEffect(p, e, y)
    ensures CertainChain([e]) <==> e.target.certainty.Certain? && !e.ambiguous
  {
    hide PropagateEffect;
    assert [e][1..] == [];
    assert ChainImage(p, [], y) == Some(y);
    CertainStep([e]);
    CertainStep([]);
  }

  // The callee's effects that arrive as i.
  ghost function ArrivingAs(p: Program, e: Edge, callee: map<FactId, Effect>, i: FactId): set<FactId> {
    set j | j in callee && ArrivesAs(p, e, callee[j], i)
  }

  lemma {:induction false} AbsorbLast(p: Program, e: Edge, ys: seq<Effect>, m: map<FactId, Effect>, i: FactId, k: nat)
    requires k < |ys| && ArrivesAs(p, e, ys[k], i) && forall n :: k < n < |ys| ==> !ArrivesAs(p, e, ys[n], i)
    ensures i in AbsorbEffects(p, e, ys, m)
    ensures AbsorbEffects(p, e, ys, m)[i].certainty.Certain? <==>
              e.target.certainty.Certain? && !e.ambiguous && ys[k].certainty.Certain?
  {
    hide PropagateEffect, ArrivesAs;
    var n := |ys| - 1;
    ArrivesIff(p, e, ys[n], i);
    if k < n {
      AbsorbLast(p, e, ys[..n], m, i, k);
    }
  }

  lemma {:induction false} AbsorbNone(p: Program, e: Edge, ys: seq<Effect>, m: map<FactId, Effect>, i: FactId)
    requires forall n :: 0 <= n < |ys| ==> !ArrivesAs(p, e, ys[n], i)
    ensures i in AbsorbEffects(p, e, ys, m) <==> i in m
    ensures i in m ==> AbsorbEffects(p, e, ys, m)[i] == m[i]
  {
    hide PropagateEffect, ArrivesAs;
    if ys != [] {
      var n := |ys| - 1;
      ArrivesIff(p, e, ys[n], i);
      AbsorbNone(p, e, ys[..n], m, i);
    }
  }

  // The effects of one callee absorbed: the one traversed last has the last word.
  lemma AbsorbGreatest(p: Program, e: Edge, callee: map<FactId, Effect>, m: map<FactId, Effect>, i: FactId)
    requires WellFormed(p)
    ensures var due := ArrivingAs(p, e, callee, i); var after := AbsorbEffects(p, e, Effects(p, callee), m);
            && (due == {} ==> (i in after <==> i in m) && (i in m ==> after[i] == m[i]))
            && (forall j :: Greatest(p, due, j) ==>
                  i in after && (after[i].certainty.Certain? <==>
                                 e.target.certainty.Certain? && !e.ambiguous && callee[j].certainty.Certain?))
  {
    hide WellFormed, ArrivesAs, AbsorbEffects, Effects;
    var due, ys := ArrivingAs(p, e, callee, i), Effects(p, callee);
    if due == {} {
      forall n | 0 <= n < |ys|
        ensures !ArrivesAs(p, e, ys[n], i)
      {
        assert ys[n] in ys;
        var j :| j in callee && callee[j] == ys[n];
        assert j !in due;
      }
      AbsorbNone(p, e, ys, m, i);
    }
    forall j | Greatest(p, due, j)
      ensures i in AbsorbEffects(p, e, ys, m)
      ensures AbsorbEffects(p, e, ys, m)[i].certainty.Certain? <==>
                e.target.certainty.Certain? && !e.ambiguous && callee[j].certainty.Certain?
    {
      var k := EffectAt(p, callee, j);
      forall n | k < n < |ys|
        ensures !ArrivesAs(p, e, ys[n], i)
      {
        assert exists l :: l in callee && p.rank(j) < p.rank(l) && ys[n] == callee[l];
        var l :| l in callee && p.rank(j) < p.rank(l) && ys[n] == callee[l];
        assert l !in due;
      }
      AbsorbLast(p, e, ys, m, i, k);
    }
  }

  // Edge k is the last of the edges over which an effect arrives as i, and fact j of its callee is
  // the last to do so.
  ghost predicate LastArrival(p: Program, edges: seq<Edge>, cur: Current, i: FactId, k: nat, j: FactId) {
    && k < |edges| && Greatest(p, ArrivingAs(p, edges[k], FactsOf(cur, edges[k].callee.id).effects, i), j)
    && forall n :: k < n < |edges| ==> ArrivingAs(p, edges[n], FactsOf(cur, edges[n].callee.id).effects, i) == {}
  }

  lemma {:induction false} FoldLast(p: Program, edges: seq<Edge>, cur: Current, m: map<FactId, Effect>, i: FactId, k: nat, j: FactId)
    requires WellFormed(p) && LastArrival(p, edges, cur, i, k, j)
    ensures i in EffectFold(p, edges, cur, m)
    ensures EffectFold(p, edges, cur, m)[i].certainty.Certain? <==>
              && edges[k].target.certainty.Certain? && !edges[k].ambiguous
              && FactsOf(cur, edges[k].callee.id).effects[j].certainty.Certain?
  {
    hide WellFormed, ArrivesAs, AbsorbEffects, Effects, FactsOf;
    var n := |edges| - 1;
    var e := edges[n];
    AbsorbGreatest(p, e, FactsOf(cur, e.callee.id).effects, EffectFold(p, edges[..n], cur, m), i);
    if k < n {
      FoldLast(p, edges[..n], cur, m, i, k, j);
    }
  }

  lemma {:induction false} LastArrivalExists(p: Program, edges: seq<Edge>, cur: Current, i: FactId, n: nat) returns (k: nat, j: FactId)
    requires n < |edges| && ArrivingAs(p, edges[n], FactsOf(cur, edges[n].callee.id).effects, i) != {}
    ensures LastArrival(p, edges, cur, i, k, j)
    decreases |edges|
  {
    hide ArrivesAs, FactsOf;
    var last := |edges| - 1;
    var due := ArrivingAs(p, edges[last], FactsOf(cur, edges[last].callee.id).effects, i);
    if due != {} {
      j := GreatestExists(p, due);
      k := last;
    } else {
      assert edges[..last][n] == edges[n];
      k, j := LastArrivalExists(p, edges[..last], cur, i, n);
    }
  }

  // A propagated effect is held before any cap exactly when some call edge brings it. Its certainty
  // is that of the last bringer: the last such edge, and among the effects of that edge's callee
  // the one of greatest digest. It is certain when the target is certain and has a single body and
  // that one effect is certain, whatever the other bringers say.
  lemma ArrivalDecidesCertainty(p: Program, c: Summary, cur: Current, i: FactId)
    requires WellFormed(p) && !i.LocalFact?
    ensures var edges := CallEdges(p, c); var all := AllEffects(p, c, cur);
            && (i in all <==> exists k: nat, j :: LastArrival(p, edges, cur, i, k, j))
            && (forall k: nat, j :: LastArrival(p, edges, cur, i, k, j) ==>
                  i in all && (all[i].certainty.Certain? <==>
                               && edges[k].target.certainty.Certain? && !edges[k].ambiguous
                               && FactsOf(cur, edges[k].callee.id).effects[j].certainty.Certain?))
  {
    hide WellFormed, CallEdges, EffectFold, LastArrival, FactsOf, ArrivesAs, LocalEffects;
    var edges, local := CallEdges(p, c), LocalEffects(p, c.id);
    forall k: nat, j | LastArrival(p, edges, cur, i, k, j)
      ensures k < |edges| && j in FactsOf(cur, edges[k].callee.id).effects && i in AllEffects(p, c, cur)
      ensures AllEffects(p, c, cur)[i].certainty.Certain? <==>
                && edges[k].target.certainty.Certain? && !edges[k].ambiguous
                && FactsOf(cur, edges[k].callee.id).effects[j].certainty.Certain?
    {
      LastArrivalHeld(p, edges, cur, i, k, j);
      FoldLast(p, edges, cur, local, i, k, j);
    }
    if i in AllEffects(p, c, cur) {
      LocalIdsOnly(p, c);
      var n := BroughtBy(p, edges, cur, local, i);
      var k, j := LastArrivalExists(p, edges, cur, i, n);
    }
  }

  lemma LastArrivalHeld(p: Program, edges: seq<Edge>, cur: Current, i: FactId, k: nat, j: FactId)
    requires LastArrival(p, edges, cur, i, k, j)
    ensures k < |edges| && j in FactsOf(cur, edges[k].callee.id).effects
  {
  }

  lemma LocalIdsOnly(p: Program, c: Summary)
    requires WellFormed(p)
    ensures forall i :: i in LocalEffects(p, c.id) ==> i.LocalFact?
  {
    if c.id in p.localEffects {
      assert EffectsWell(p, c.id, p.localEffects[c.id]);
    }
  }

  lemma BroughtBy(p: Program, edges: seq<Edge>, cur: Current, m: map<FactId, Effect>, i: FactId) returns (n: nat)
    requires WellFormed(p) && i in EffectFold(p, edges, cur, m) && i !in m
    ensures n < |edges| && ArrivingAs(p, edges[n], FactsOf(cur, edges[n].callee.id).effects, i) != {}
  {
    hide WellFormed, EffectFold, FactsOf, ArrivesAs;
    FoldValue(p, edges, cur, m, i);
    var x := EffectFold(p, edges, cur, m)[i];
    var e :| e in edges && Sends(p, e, cur, x);
    var j :| j in FactsOf(cur, e.callee.id).effects && PropagateEffect(p, e, FactsOf(cur, e.callee.id).effects[j]) == Some(x);
    ArrivesIff(p, e, FactsOf(cur, e.callee.id).effects[j], i);
    assert j in ArrivingAs(p, e, FactsOf(cur, e.callee.id).effects, i);
    n :| 0 <= n < |edges| && edges[n] == e;
  }

  // Certainty of a propagated origin ----------------------------------------------------------

  // The callee's origins that reach the caller of edge e under identity i.
  ghost function ComingAs(p: Program, e: Edge, callee: map<FactId, Origin>, i: FactId): set<FactId> {
    set j | j in callee && OriginIdAlong(p, [e], callee[j]) == i
  }

  lemma ComesIff(p: Program, e: Edge, z: Origin, i: FactId)
    ensures OriginIdAlong(p, [e], z) == i <==> PropagateOrigin(p, e, z).id == i
    ensures PropagateOrigin(p, e, z).certainty.Certain? <==> e.target.certainty.Certain? && !e.ambiguous && z.certainty.Certain?
  {
    hide PropagateOrigin, OriginIdAlong, SourceAlong, CertainChain;
    OriginImageMeaning(p, [e], z);
    assert [e][1..] == [];
    assert OriginImage(p, [], z) == z && OriginImage(p, [e], z) == PropagateOrigin(p, e, z);
    CertainStep([e]);
    CertainStep([]);
  }

  lemma {:induction false} AbsorbOriginsLast(p: Program, e: Edge, zs: seq<Origin>, m: map<FactId, Origin>, i: FactId, k: nat)
    requires k < |zs| && OriginIdAlong(p, [e], zs[k]) == i && forall n :: k < n < |zs| ==> OriginIdAlong(p, [e], zs[n]) != i
    ensures i in AbsorbOrigins(p, e, zs, m)
    ensures AbsorbOrigins(p, e, zs, m)[i].certainty.Certain? <==>
              e.target.certainty.Certain? && !e.ambiguous && zs[k].certainty.Certain?
  {
    hide PropagateOrigin, OriginIdAlong;
    var n := |zs| - 1;
    ComesIff(p, e, zs[n], i);
    if k < n {
      AbsorbOriginsLast(p, e, zs[..n], m, i, k);
    }
  }

  lemma {:induction false} AbsorbOriginsNone(p: Program, e: Edge, zs: seq<Origin>, m: map<FactId, Origin>, i: FactId)
    requires forall n :: 0 <= n < |zs| ==> OriginIdAlong(p, [e], zs[n]) != i
    ensures i in AbsorbOrigins(p, e, zs, m) <==> i in m
    ensures i in m ==> AbsorbOrigins(p, e, zs, m)[i] == m[i]
  {
    hide PropagateOrigin, OriginIdAlong;
    if zs != [] {
      var n := |zs| - 1;
      ComesIff(p, e, zs[n], i);
      AbsorbOriginsNone(p, e, zs[..n], m, i);
    }
  }

  lemma AbsorbOriginsGreatest(p: Program, e: Edge, callee: map<FactId, Origin>, m: map<FactId, Origin>, i: FactId)
    requires WellFormed(p)
    ensures var due := ComingAs(p, e, callee, i); var after := AbsorbOrigins(p, e, Origins(p, callee), m);
            && (due == {} ==> (i in after <==> i in m) && (i in m ==> after[i] == m[i]))
            && (forall j :: Greatest(p, due, j) ==>
                  i in after && (after[i].certainty.Certain? <==>
                                 e.target.certainty.Certain? && !e.ambiguous && callee[j].certainty.Certain?))
  {
    hide WellFormed, OriginIdAlong, AbsorbOrigins, Origins;
    var due, zs := ComingAs(p, e, callee, i), Origins(p, callee);
    if due == {} {
      forall n | 0 <= n < |zs|
        ensures OriginIdAlong(p, [e], zs[n]) != i
      {
        assert zs[n] in zs;
        var j :| j in callee && callee[j] == zs[n];
        assert j !in due;
      }
      AbsorbOriginsNone(p, e, zs, m, i);
    }
    forall j | Greatest(p, due, j)
      ensures i in AbsorbOrigins(p, e, zs, m)
      ensures AbsorbOrigins(p, e, zs, m)[i].certainty.Certain? <==>
                e.target.certainty.Certain? && !e.ambiguous && callee[j].certainty.Certain?
    {
      var k := OriginAt(p, callee, j);
      forall n | k < n < |zs|
        ensures OriginIdAlong(p, [e], zs[n]) != i
      {
        assert exists l :: l in callee && p.rank(j) < p.rank(l) && zs[n] == callee[l];
        var l :| l in callee && p.rank(j) < p.rank(l) && zs[n] == callee[l];
        assert l !in due;
      }
      AbsorbOriginsLast(p, e, zs, m, i, k);
    }
  }

  // The function itself returns the result of the call at this site.
  ghost predicate HandsOn(local: map<FactId, Origin>, e: Edge) {
    exists i :: i in local && local[i].kind.CallResult? && local[i].callsite == Some(e.site.id)
  }

  // Edge k is the last whose result is returned and over which an origin arrives as i, and fact j of
  // its callee is the last to do so.
  ghost predicate LastReturn(p: Program, local: map<FactId, Origin>, edges: seq<Edge>, cur: Current, i: FactId, k: nat, j: FactId) {
    && k < |edges| && HandsOn(local, edges[k])
    && Greatest(p, ComingAs(p, edges[k], FactsOf(cur, edges[k].callee.id).origins, i), j)
    && forall n :: k < n < |edges| && HandsOn(local, edges[n]) ==>
                     ComingAs(p, edges[n], FactsOf(cur, edges[n].callee.id).origins, i) == {}
  }

  lemma MarkerOf(p: Program, local: map<FactId, Origin>, edges: seq<Edge>, cur: Current, e: Edge)
    requires WellFormed(p) && LocalIds(local)
    ensures ReturnsCall(OriginFold(p, edges, cur, local), e.site.id) <==> HandsOn(local, e)
  {
    hide WellFormed, OriginFold, SendsOrigin, LocalIds;
    OriginFoldSourced(p, edges, cur, local);
    MarkerIsLocal(p, edges, cur, local, OriginFold(p, edges, cur, local), e.site.id);
  }

  lemma {:induction false} OriginFoldLast(p: Program, edges: seq<Edge>, cur: Current, local: map<FactId, Origin>, i: FactId, k: nat, j: FactId)
    requires WellFormed(p) && LocalIds(local) && LastReturn(p, local, edges, cur, i, k, j)
    ensures i in OriginFold(p, edges, cur, local)
    ensures OriginFold(p, edges, cur, local)[i].certainty.Certain? <==>
              && edges[k].target.certainty.Certain? && !edges[k].ambiguous
              && FactsOf(cur, edges[k].callee.id).origins[j].certainty.Certain?
  {
    hide WellFormed, OriginIdAlong, AbsorbOrigins, Origins, FactsOf, HandsOn, ReturnsCall, LocalIds;
    var n := |edges| - 1;
    var e := edges[n];
    MarkerOf(p, local, edges[..n], cur, e);
    AbsorbOriginsGreatest(p, e, FactsOf(cur, e.callee.id).origins, OriginFold(p, edges[..n], cur, local), i);
    if k < n {
      OriginFoldLast(p, edges[..n], cur, local, i, k, j);
    }
  }

  // Of the calls whose results a function returns, the last to bring an origin decides how certain
  // that origin is, and of that callee's origins the one of greatest digest.
  lemma ReturnDecidesCertainty(p: Program, c: Summary, cur: Current, i: FactId, k: nat, j: FactId)
    requires WellFormed(p) && LastReturn(p, LocalOrigins(p, c.id), CallEdges(p, c), cur, i, k, j)
    ensures var edges := CallEdges(p, c); var all := AllOrigins(p, c, cur);
            && i in all
            && (all[i].certainty.Certain? <==>
                  && edges[k].target.certainty.Certain? && !edges[k].ambiguous
                  && FactsOf(cur, edges[k].callee.id).origins[j].certainty.Certain?)
  {
    hide WellFormed, CallEdges, OriginFold, LastReturn, FactsOf, LocalOrigins;
    LocalOriginIds(p, c.id);
    LastReturnHeld(p, LocalOrigins(p, c.id), CallEdges(p, c), cur, i, k, j);
    OriginFoldLast(p, CallEdges(p, c), cur, LocalOrigins(p, c.id), i, k, j);
  }

  lemma LastReturnHeld(p: Program, local: map<FactId, Origin>, edges: seq<Edge>, cur: Current, i: FactId, k: nat, j: FactId)
    requires LastReturn(p, local, edges, cur, i, k, j)
    ensures k < |edges| && j in FactsOf(cur, edges[k].callee.id).origins
  {
  }
}
