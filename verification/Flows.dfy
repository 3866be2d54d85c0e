// Interprocedural flows recorded for each call edge once the callee is solved:
// arguments into parameters, parameter writes back into arguments, returns into
// call results.
module Flows {
  import opened Graphs
  import opened Options
  import opened Summaries
  import opened Transfer
  import opened TransferMeaning

  datatype FlowKind = ArgumentToParameter | Writeback | ReturnToCaller

  datatype FlowId = FlowId(
    kind: FlowKind, caller: nat, callee: nat, site: nat, target: nat, index: Option<nat>,
    callerLocation: Option<nat>, calleeLocation: Option<nat>, access: Option<nat>)

  type FlowMap = map<FlowId, Certainty>

  function FlowOf(kind: FlowKind, e: Edge, index: Option<nat>, callerLocation: Option<nat>, calleeLocation: Option<nat>,
                  access: Option<nat>): FlowId
  {
    FlowId(kind, e.caller.id, e.callee.id, e.site.id, e.target.symbol, index, callerLocation, calleeLocation, access)
  }

  // Flows as the plain sequence of insertions they stand for --------------------------

  function ArgumentFlows(p: Program, e: Edge, n: nat, flows: FlowMap): FlowMap
    requires n <= |e.callee.parameters|
  {
    if n == 0 then flows
    else
      var before := ArgumentFlows(p, e, n - 1, flows);
      if KeyOf(e, n - 1) !in p.bindings then before
      else
        var b := p.bindings[KeyOf(e, n - 1)];
        before[FlowOf(ArgumentToParameter, e, Some(n - 1), b.location, Some(e.callee.parameters[n - 1]), None)
               := EdgeCertainty(e, if b.complete then Certain else Possible)]
  }

  predicate WritableMode(m: Mode) {
    m.Reference? || m.Pointer? || m.RvalueReference?
  }

  // A callee effect that may write through an argument.
  predicate Eligible(p: Program, e: Edge, y: Effect) {
    && y.kind.Write? && y.parameter.Some?
    && y.parameter.value < |e.callee.modes| && WritableMode(e.callee.modes[y.parameter.value])
    && KeyOf(e, y.parameter.value) in p.bindings && p.bindings[KeyOf(e, y.parameter.value)].writeback
  }

  function WritebackId(p: Program, e: Edge, y: Effect): FlowId
    requires Eligible(p, e, y)
  {
    FlowOf(Writeback, e, y.parameter, p.bindings[KeyOf(e, y.parameter.value)].location, y.location, None)
  }

  function WritebackCertainty(p: Program, e: Edge, y: Effect): Certainty
    requires Eligible(p, e, y)
  {
    EdgeCertainty(e, if p.bindings[KeyOf(e, y.parameter.value)].complete then y.certainty else Possible)
  }

  function WritebackFlows(p: Program, e: Edge, ys: seq<Effect>, flows: FlowMap): FlowMap {
    if ys == [] then flows
    else
      var before := WritebackFlows(p, e, ys[..|ys| - 1], flows);
      var y := ys[|ys| - 1];
      if Eligible(p, e, y) then before[WritebackId(p, e, y) := WritebackCertainty(p, e, y)] else before
  }

  function ReturnId(e: Edge, r: ResultBinding, z: Origin): FlowId {
    FlowOf(ReturnToCaller, e, None, Some(r.location), z.location, Some(r.access))
  }

  function ReturnFlows(e: Edge, r: ResultBinding, zs: seq<Origin>, flows: FlowMap): FlowMap {
    if zs == [] then flows
    else
      var z := zs[|zs| - 1];
      ReturnFlows(e, r, zs[..|zs| - 1], flows)[ReturnId(e, r, z) := EdgeCertainty(e, z.certainty)]
  }

  function EdgeFlows(p: Program, e: Edge, callee: Facts, flows: FlowMap): FlowMap
    requires WellFormed(p)
  {
    var written := WritebackFlows(p, e, Effects(p, callee.effects), ArgumentFlows(p, e, |e.callee.parameters|, flows));
    var key := ResultKey(e.caller.id, e.site.id);
    if key in p.results then ReturnFlows(e, p.results[key], Origins(p, callee.origins), written) else written
  }

  function SummaryFlows(p: Program, edges: seq<Edge>, cur: Current, flows: FlowMap): FlowMap
    requires WellFormed(p)
  {
    if edges == [] then flows
    else
      var e := edges[|edges| - 1];
      EdgeFlows(p, e, FactsOf(cur, e.callee.id), SummaryFlows(p, edges[..|edges| - 1], cur, flows))
  }

  lemma {:induction false} FlowsDependOnCallees(p: Program, edges: seq<Edge>, cur: Current, cur': Current, flows: FlowMap)
    requires WellFormed(p) && AgreeOn(cur, cur', edges)
    ensures SummaryFlows(p, edges, cur, flows) == SummaryFlows(p, edges, cur', flows)
  {
    hide WellFormed, FactsOf, EdgeFlows, AgreeOn;
    if edges != [] {
      AgreeSplit(cur, cur', edges, |edges| - 1);
      FlowsDependOnCallees(p, edges[..|edges| - 1], cur, cur', flows);
    }
  }

  // The recording as the solver runs it --------------------------------------------------

  // Callee effects that would overwrite one another's flow share this key.
  datatype WriteKey = WriteKey(parameter: nat, location: Option<nat>)

  function WriteKeyOf(y: Effect): WriteKey
    requires y.parameter.Some?
  {
    WriteKey(y.parameter.value, y.location)
  }

  // A dictionary in insertion order: distinct keys, one winner each.
  ghost predicate Winners(p: Program, e: Edge, keys: seq<WriteKey>, winners: map<WriteKey, Effect>) {
    && (forall k :: k in keys <==> k in winners)
    && (forall i, j :: 0 <= i < j < |keys| ==> keys[i] != keys[j])
    && (forall k :: k in winners ==> Eligible(p, e, winners[k]) && WriteKeyOf(winners[k]) == k)
  }

  // Flow i is the one a winner stands for; its key can be read back from the flow.
  ghost predicate FromWinner(p: Program, e: Edge, winners: map<WriteKey, Effect>, i: FlowId)
    requires forall k :: k in winners ==> Eligible(p, e, winners[k])
  {
    && i.index.Some?
    && WriteKey(i.index.value, i.calleeLocation) in winners
    && WritebackId(p, e, winners[WriteKey(i.index.value, i.calleeLocation)]) == i
  }

  // What `flows` becomes once the winners are inserted.
  ghost predicate Inserted(p: Program, e: Edge, winners: map<WriteKey, Effect>, flows: FlowMap, flows': FlowMap)
    requires forall k :: k in winners ==> Eligible(p, e, winners[k])
  {
    && (forall k :: k in winners ==> WritebackId(p, e, winners[k]) in flows'
                                     && flows'[WritebackId(p, e, winners[k])] == WritebackCertainty(p, e, winners[k]))
    && (forall i :: i in flows' && !FromWinner(p, e, winners, i) ==> i in flows && flows'[i] == flows[i])
    && (forall i :: i in flows ==> i in flows')
  }

  lemma WinnerStep(p: Program, e: Edge, keys: seq<WriteKey>, winners: map<WriteKey, Effect>, y: Effect)
    requires Winners(p, e, keys, winners) && Eligible(p, e, y)
    ensures var k := WriteKeyOf(y);
            Winners(p, e, if k in winners then keys else keys + [k], winners[k := y])
  {
  }

  // A winner's key and its flow determine each other.
  lemma KeyIsId(p: Program, e: Edge, y: Effect, z: Effect)
    requires Eligible(p, e, y) && Eligible(p, e, z)
    ensures WriteKeyOf(y) == WriteKeyOf(z) <==> WritebackId(p, e, y) == WritebackId(p, e, z)
    ensures var i := WritebackId(p, e, y); i.index.Some? && WriteKey(i.index.value, i.calleeLocation) == WriteKeyOf(y)
  {
  }

  lemma StillFromWinner(p: Program, e: Edge, winners: map<WriteKey, Effect>, after: map<WriteKey, Effect>, y: Effect, i: FlowId)
    requires Eligible(p, e, y) && after == winners[WriteKeyOf(y) := y]
    requires forall k :: k in winners ==> Eligible(p, e, winners[k]) && WriteKeyOf(winners[k]) == k
    requires forall k :: k in after ==> Eligible(p, e, after[k])
    requires FromWinner(p, e, winners, i) || i == WritebackId(p, e, y)
    ensures FromWinner(p, e, after, i)
  {
    hide WritebackId, Eligible, WriteKeyOf;
    KeyIsId(p, e, y, y);
    if i != WritebackId(p, e, y) {
      KeyIsId(p, e, winners[WriteKey(i.index.value, i.calleeLocation)], y);
    }
  }

  lemma InsertWinner(p: Program, e: Edge, keys: seq<WriteKey>, winners: map<WriteKey, Effect>, flows: FlowMap, flows': FlowMap, y: Effect)
    requires Winners(p, e, keys, winners) && Inserted(p, e, winners, flows, flows') && Eligible(p, e, y)
    ensures var k := WriteKeyOf(y); var winners' := winners[k := y];
            && Winners(p, e, if k in winners then keys else keys + [k], winners')
            && Inserted(p, e, winners', flows, flows'[WritebackId(p, e, y) := WritebackCertainty(p, e, y)])
  {
    hide WritebackId, WritebackCertainty, Eligible, WriteKeyOf, FromWinner;
    EligibleParameter(p, e, y);
    WinnerStep(p, e, keys, winners, y);
    var key := WriteKeyOf(y);
    var winners' := winners[key := y];
    forall k | k in winners'
      ensures WritebackId(p, e, winners'[k]) == WritebackId(p, e, y) ==> k == key
    {
      KeyIsId(p, e, winners'[k], y);
    }
    forall i | FromWinner(p, e, winners, i) || i == WritebackId(p, e, y)
      ensures FromWinner(p, e, winners', i)
    {
      StillFromWinner(p, e, winners, winners', y, i);
    }
  }

  lemma InsertedUnique(p: Program, e: Edge, keys: seq<WriteKey>, winners: map<WriteKey, Effect>, flows: FlowMap, a: FlowMap, b: FlowMap)
    requires Winners(p, e, keys, winners)
    requires Inserted(p, e, winners, flows, a) && Inserted(p, e, winners, flows, b)
    ensures a == b
  {
    hide Eligible, WritebackId, WritebackCertainty;
    forall i
      ensures i in a <==> i in b
      ensures i in a && i in b ==> a[i] == b[i]
    {
      if FromWinner(p, e, winners, i) {
        assert WriteKey(i.index.value, i.calleeLocation) in winners;
      }
    }
  }

  // Only the last eligible effect per parameter and location is kept, and a flow is
  // built for the survivors alone; the result is that of inserting a flow for every
  // eligible effect.
  method RecordWritebacks(p: Program, e: Edge, ys: seq<Effect>, flows: FlowMap) returns (flows': FlowMap)
    ensures flows' == WritebackFlows(p, e, ys, flows)
  {
    hide Eligible, WritebackId, WritebackCertainty, Inserted;
    var keys: seq<WriteKey> := [];
    var winners: map<WriteKey, Effect> := map[];
    InsertedNone(p, e, flows);
    for n := 0 to |ys|
      invariant Winners(p, e, keys, winners)
      invariant Inserted(p, e, winners, flows, WritebackFlows(p, e, ys[..n], flows))
    {
      var y := ys[n];
      assert ys[..n + 1][..n] == ys[..n];
      if Eligible(p, e, y) {
        EligibleParameter(p, e, y);
        InsertWinner(p, e, keys, winners, flows, WritebackFlows(p, e, ys[..n], flows), y);
        var key := WriteKeyOf(y);
        if key !in winners {
          keys := keys + [key];
        }
        winners := winners[key := y];
      }
    }
    assert ys[..|ys|] == ys;
    flows' := BuildWritebacks(p, e, keys, winners, flows);
    InsertedUnique(p, e, keys, winners, flows, flows', WritebackFlows(p, e, ys, flows));
  }

  lemma EligibleParameter(p: Program, e: Edge, y: Effect)
    requires Eligible(p, e, y)
    ensures y.parameter.Some?
  {
  }

  lemma InsertedNone(p: Program, e: Edge, flows: FlowMap)
    ensures Inserted(p, e, map[], flows, flows)
  {
  }

  method BuildWritebacks(p: Program, e: Edge, keys: seq<WriteKey>, winners: map<WriteKey, Effect>, flows: FlowMap)
    returns (flows': FlowMap)
    requires Winners(p, e, keys, winners)
    ensures Inserted(p, e, winners, flows, flows')
  {
    hide Eligible, WritebackId, WritebackCertainty, Inserted, WriteKeyOf, Winners;
    flows' := flows;
    ghost var done: map<WriteKey, Effect> := map[];
    InsertedNone(p, e, flows);
    NoWinners(p, e, keys, winners);
    for n := 0 to |keys|
      invariant Winners(p, e, keys[..n], done)
      invariant forall k :: k in done ==> k in winners && done[k] == winners[k]
      invariant AllEligible(p, e, done) && Inserted(p, e, done, flows, flows')
    {
      var key := keys[n];
      WinnerAt(p, e, keys, winners, n, done);
      var y := winners[key];
      InsertWinner(p, e, keys[..n], done, flows, flows', y);
      flows' := flows'[WritebackId(p, e, y) := WritebackCertainty(p, e, y)];
      done := done[key := y];
      WinnersEligible(p, e, keys[..n + 1], done);
    }
    assert keys[..|keys|] == keys;
    AllWinners(p, e, keys, winners, done);
  }

  ghost predicate AllEligible(p: Program, e: Edge, winners: map<WriteKey, Effect>) {
    forall k :: k in winners ==> Eligible(p, e, winners[k])
  }

  lemma NoWinners(p: Program, e: Edge, keys: seq<WriteKey>, winners: map<WriteKey, Effect>)
    requires Winners(p, e, keys, winners)
    ensures Winners(p, e, keys[..0], map[])
    ensures AllEligible(p, e, winners)
  {
  }

  lemma WinnersEligible(p: Program, e: Edge, keys: seq<WriteKey>, winners: map<WriteKey, Effect>)
    requires Winners(p, e, keys, winners)
    ensures AllEligible(p, e, winners)
  {
  }

  lemma WinnerAt(p: Program, e: Edge, keys: seq<WriteKey>, winners: map<WriteKey, Effect>, n: nat, done: map<WriteKey, Effect>)
    requires Winners(p, e, keys, winners) && n < |keys| && Winners(p, e, keys[..n], done)
    ensures keys[n] in winners && keys[n] !in done && Eligible(p, e, winners[keys[n]])
    ensures winners[keys[n]].parameter.Some? && WriteKeyOf(winners[keys[n]]) == keys[n]
    ensures keys[..n + 1] == keys[..n] + [keys[n]]
  {
    hide Eligible;
    assert keys[n] in keys;
    assert Eligible(p, e, winners[keys[n]]);
    EligibleParameter(p, e, winners[keys[n]]);
  }

  lemma AllWinners(p: Program, e: Edge, keys: seq<WriteKey>, winners: map<WriteKey, Effect>, done: map<WriteKey, Effect>)
    requires Winners(p, e, keys, winners) && Winners(p, e, keys, done)
    requires forall k :: k in done ==> k in winners && done[k] == winners[k]
    ensures done == winners
  {
    hide Eligible;
  }

  method RecordFlows(p: Program, c: Summary, cur: Current, flows: FlowMap) returns (flows': FlowMap)
    requires WellFormed(p)
    ensures flows' == SummaryFlows(p, CallEdges(p, c), cur, flows)
  {
    hide WellFormed, CallEdges, FactsOf, EdgeFlows;
    var edges := CallEdges(p, c);
    flows' := flows;
    for n := 0 to |edges|
      invariant flows' == SummaryFlows(p, edges[..n], cur, flows)
    {
      assert edges[..n + 1][..n] == edges[..n];
      flows' := RecordEdge(p, edges[n], FactsOf(cur, edges[n].callee.id), flows');
    }
    assert edges[..|edges|] == edges;
  }

  method RecordEdge(p: Program, e: Edge, callee: Facts, flows: FlowMap) returns (flows': FlowMap)
    requires WellFormed(p)
    ensures flows' == EdgeFlows(p, e, callee, flows)
  {
    hide WellFormed, ReturnId, WritebackFlows, Effects, Origins;
    flows' := flows;
    for index := 0 to |e.callee.parameters|
      invariant flows' == ArgumentFlows(p, e, index, flows)
    {
      if KeyOf(e, index) in p.bindings {
        var b := p.bindings[KeyOf(e, index)];
        flows' := flows'[FlowOf(ArgumentToParameter, e, Some(index), b.location, Some(e.callee.parameters[index]), None)
                         := EdgeCertainty(e, if b.complete then Certain else Possible)];
      }
    }
    flows' := RecordWritebacks(p, e, Effects(p, callee.effects), flows');
    var key := ResultKey(e.caller.id, e.site.id);
    if key in p.results {
      flows' := RecordReturns(e, p.results[key], Origins(p, callee.origins), flows');
    }
  }

  // Origins of one location overwrite the same flow: keep the last per location.
  method RecordReturns(e: Edge, r: ResultBinding, zs: seq<Origin>, flows: FlowMap) returns (flows': FlowMap)
    ensures flows' == ReturnFlows(e, r, zs, flows)
  {
    hide ReturnState;
    var keys: seq<Option<nat>> := [];
    var last: map<Option<nat>, Origin> := map[];
    ReturnNone(e, r, flows);
    for n := 0 to |zs|
      invariant ReturnState(e, r, keys, last, flows, ReturnFlows(e, r, zs[..n], flows))
    {
      assert zs[..n + 1][..n] == zs[..n];
      ReturnStep(e, r, keys, last, flows, ReturnFlows(e, r, zs[..n], flows), zs[n]);
      if zs[n].location !in last {
        keys := keys + [zs[n].location];
      }
      last := last[zs[n].location := zs[n]];
    }
    assert zs[..|zs|] == zs;
    flows' := BuildReturns(e, r, keys, last, flows, ReturnFlows(e, r, zs, flows));
    ReturnStateUnique(e, r, keys, last, flows, flows', ReturnFlows(e, r, zs, flows));
  }

  method BuildReturns(e: Edge, r: ResultBinding, keys: seq<Option<nat>>, last: map<Option<nat>, Origin>, flows: FlowMap,
                      ghost expected: FlowMap)
    returns (flows': FlowMap)
    requires ReturnState(e, r, keys, last, flows, expected)
    ensures ReturnState(e, r, keys, last, flows, flows')
  {
    hide ReturnState;
    ReturnKeys(e, r, keys, last, flows, expected);
    flows' := flows;
    ghost var done: map<Option<nat>, Origin> := map[];
    ReturnNone(e, r, flows);
    for n := 0 to |keys|
      invariant ReturnState(e, r, keys[..n], done, flows, flows')
      invariant forall k :: k in done <==> k in keys[..n]
      invariant forall k :: k in done ==> done[k] == last[k]
    {
      var z := last[keys[n]];
      ReturnStep(e, r, keys[..n], done, flows, flows', z);
      assert keys[..n + 1] == keys[..n] + [keys[n]];
      flows' := flows'[ReturnId(e, r, z) := EdgeCertainty(e, z.certainty)];
      done := done[keys[n] := z];
    }
    assert keys[..|keys|] == keys;
    assert done == last;
  }

  lemma ReturnKeys(e: Edge, r: ResultBinding, keys: seq<Option<nat>>, last: map<Option<nat>, Origin>, flows: FlowMap, flows': FlowMap)
    requires ReturnState(e, r, keys, last, flows, flows')
    ensures forall k :: k in keys <==> k in last
    ensures forall n :: 0 <= n < |keys| ==> keys[n] !in keys[..n] && last[keys[n]].location == keys[n]
  {
  }

  ghost predicate FromLast(e: Edge, r: ResultBinding, last: map<Option<nat>, Origin>, i: FlowId) {
    i.calleeLocation in last && ReturnId(e, r, last[i.calleeLocation]) == i
  }

  ghost predicate ReturnState(e: Edge, r: ResultBinding, keys: seq<Option<nat>>, last: map<Option<nat>, Origin>, flows: FlowMap, flows': FlowMap) {
    && (forall k :: k in keys <==> k in last)
    && (forall i, j :: 0 <= i < j < |keys| ==> keys[i] != keys[j])
    && (forall k :: k in last ==> last[k].location == k && ReturnId(e, r, last[k]) in flows'
                                  && flows'[ReturnId(e, r, last[k])] == EdgeCertainty(e, last[k].certainty))
    && (forall i :: i in flows' && !FromLast(e, r, last, i) ==> i in flows && flows'[i] == flows[i])
    && (forall i :: i in flows ==> i in flows')
  }

  lemma ReturnNone(e: Edge, r: ResultBinding, flows: FlowMap)
    ensures ReturnState(e, r, [], map[], flows, flows)
  {
  }

  lemma ReturnStep(e: Edge, r: ResultBinding, keys: seq<Option<nat>>, last: map<Option<nat>, Origin>, flows: FlowMap, flows': FlowMap, z: Origin)
    requires ReturnState(e, r, keys, last, flows, flows')
    ensures ReturnState(e, r, if z.location in last then keys else keys + [z.location], last[z.location := z], flows,
                        flows'[ReturnId(e, r, z) := EdgeCertainty(e, z.certainty)])
  {
    hide ReturnId, EdgeCertainty, FromLast;
    var last' := last[z.location := z];
    forall k | k in last'
      ensures ReturnId(e, r, last'[k]) == ReturnId(e, r, z) ==> k == z.location
    {
      ReturnIdLocation(e, r, last'[k], z);
    }
    forall i | FromLast(e, r, last, i) || i == ReturnId(e, r, z)
      ensures FromLast(e, r, last', i)
    {
      StillFromLast(e, r, last, z, i);
    }
  }

  lemma ReturnIdLocation(e: Edge, r: ResultBinding, y: Origin, z: Origin)
    ensures ReturnId(e, r, y) == ReturnId(e, r, z) <==> y.location == z.location
  {
  }

  lemma StillFromLast(e: Edge, r: ResultBinding, last: map<Option<nat>, Origin>, z: Origin, i: FlowId)
    requires FromLast(e, r, last, i) || i == ReturnId(e, r, z)
    ensures FromLast(e, r, last[z.location := z], i)
  {
  }

  lemma ReturnStateUnique(e: Edge, r: ResultBinding, keys: seq<Option<nat>>, last: map<Option<nat>, Origin>, flows: FlowMap, a: FlowMap, b: FlowMap)
    requires ReturnState(e, r, keys, last, flows, a) && ReturnState(e, r, keys, last, flows, b)
    ensures a == b
  {
    forall i
      ensures i in a <==> i in b
      ensures i in a && i in b ==> a[i] == b[i]
    {
      if FromLast(e, r, last, i) {
        assert i.calleeLocation in last;
      }
    }
  }
}
