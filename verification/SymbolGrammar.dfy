// Which record streams the ingestor accepts, as a grammar: facts that stand alone, and symbols
// whose announced texts follow at once, field by field, in numbered fragments.
module SymbolGrammar {
  import opened Options
  import opened Utf8
  import opened SymbolText
  import opened SymbolStream

  // The described fields in the order in which their fragments come.
  function WireOrder(described: map<Field, Description>): seq<Field> {
    (if Signature in described then [Signature] else [])
    + (if Documentation in described then [Documentation] else [])
    + (if SourceText in described then [SourceText] else [])
  }

  // A symbol with a key that describes some texts it does not carry, each of them not empty.
  ghost predicate Announces(r: Record) {
    && r.Fact? && r.kind == SymbolKind && r.symbolKey.Some? && r.symbolKey.value != "" && r.chunks.Described?
    && (exists f :: f in r.chunks.fields)
    && forall f :: f in r.chunks.fields ==> f !in r.texts && r.chunks.fields[f].Description? && r.chunks.fields[f].bytes > 0
  }

  // A fragment of this symbol's field, of permitted size.
  ghost predicate FragmentOf(r: Record, key: string, field: Field, index: nat) {
    r.Chunk? && r.wellFormed && r.key == key && r.field == field && r.index == index && 0 < |r.text| <= 65536
  }

  function Concatenated(rs: seq<Record>): Text
    requires forall i :: 0 <= i < |rs| ==> rs[i].Chunk?
  {
    if rs == [] then [] else rs[0].text + Concatenated(rs[1..])
  }

  // The fragments that are left of one field: numbered on from `index`, and with what has come
  // before they are as many bytes as announced and have the announced digest.
  ghost predicate RestOfField(rs: seq<Record>, key: string, field: Field, d: Description, before: Text, index: nat) {
    && rs != [] && d.Description?
    && (forall i :: 0 <= i < |rs| ==> FragmentOf(rs[i], key, field, index + i))
    && var whole := before + Concatenated(rs); |whole| == d.bytes && Sha256(whole) == d.sha256
  }

  // A stream of facts, each followed by the fragments it announces.
  ghost predicate Framed(records: seq<Record>)
    decreases |records|, 0
  {
    records == []
    || (records[0].Fact? && records[0].chunks.Absent? && Framed(records[1..]))
    || (Announces(records[0])
        && Due(records[1..], records[0].symbolKey.value, WireOrder(records[0].chunks.fields), records[0].chunks.fields, [], 0))
  }

  // What must follow while fragments of these fields are due.
  ghost predicate Due(records: seq<Record>, key: string, fields: seq<Field>, described: map<Field, Description>, before: Text, index: nat)
    decreases |records|, 1 + |fields|
  {
    if fields == [] then Framed(records)
    else
      && fields[0] in described
      && exists k | 0 <= k <= |records| ::
           && RestOfField(records[..k], key, fields[0], described[fields[0]], before, index)
           && Due(records[k..], key, fields[1..], described, [], 0)
  }

  // Between records: of the fields due none is described as empty, and the first is not yet complete.
  ghost predicate Midway(s: State) {
    && Well(s)
    && (s.Pending? ==>
          && (forall f :: f in s.fields ==> s.descriptions[f].bytes > 0) && s.received < s.descriptions[s.fields[0]].bytes
          && |s.hashed| == s.received)
  }

  ghost predicate Completes(s: State, records: seq<Record>)
    requires Well(s)
  {
    if s.Idle? then Framed(records)
    else Due(records, s.symbol.symbolKey.value, s.fields, s.descriptions, s.hashed, s.index)
  }

  lemma OrderIs(described: map<Field, Description>)
    ensures InOrder(described.Keys) == WireOrder(described)
  {
    assert FIELDS[..3] == FIELDS && FIELDS[..2][..1] == FIELDS[..1] && FIELDS[..3][..2] == FIELDS[..2];
    AmongOneMore(FIELDS[..2], described.Keys, SourceText);
    AmongOneMore(FIELDS[..1], described.Keys, Documentation);
    AmongOneMore(FIELDS[..0], described.Keys, Signature);
    assert FIELDS[..2] + [SourceText] == FIELDS && FIELDS[..1] + [Documentation] == FIELDS[..2] && FIELDS[..0] + [Signature] == FIELDS[..1];
  }

  // One fact record ---------------------------------------------------------------------------

  lemma FactStep(assemble: bool, s: State, r: Record)
    requires Midway(s) && r.Fact?
    ensures Step(assemble, s, r).Ok? <==> s.Idle? && (r.chunks.Absent? || Announces(r))
    ensures Step(assemble, s, r).Ok? ==>
              var next := Step(assemble, s, r).value.0;
              && Midway(next) && (r.chunks.Absent? ==> next.Idle?)
              && (!r.chunks.Absent? ==>
                    && next.Pending? && next.symbol.symbolKey == r.symbolKey && next.fields == WireOrder(r.chunks.fields)
                    && next.descriptions == r.chunks.fields && next.hashed == [] && next.index == 0)
  {
    if r.chunks.Described? {
      OrderIs(r.chunks.fields);
      assert r.chunks.fields != map[] <==> exists f :: f in r.chunks.fields;
      hide WireOrder, InOrder, FIELDS, Among;
    }
  }

  // One fragment ------------------------------------------------------------------------------

  // What a fragment is to a pending field: the next of several, its last, or out of place.
  ghost predicate Continues(s: State, r: Record)
    requires Well(s)
  {
    && s.Pending? && FragmentOf(r, s.symbol.symbolKey.value, s.fields[0], s.index)
    && s.received + |r.text| < s.descriptions[s.fields[0]].bytes
  }

  ghost predicate Finishes(s: State, r: Record)
    requires Well(s)
  {
    && s.Pending? && FragmentOf(r, s.symbol.symbolKey.value, s.fields[0], s.index)
    && s.received + |r.text| == s.descriptions[s.fields[0]].bytes && Sha256(s.hashed + r.text) == s.descriptions[s.fields[0]].sha256
  }

  lemma ChunkStep(assemble: bool, s: State, r: Record)
    requires Midway(s) && r.Chunk?
    ensures Step(assemble, s, r).Ok? <==> Continues(s, r) || Finishes(s, r)
    ensures Continues(s, r) ==>
              var next := Step(assemble, s, r).value.0;
              && Midway(next) && next.Pending? && next.symbol.symbolKey == s.symbol.symbolKey && next.fields == s.fields
              && next.descriptions == s.descriptions && next.hashed == s.hashed + r.text && next.index == s.index + 1
    ensures Finishes(s, r) ==>
              var next := Step(assemble, s, r).value.0;
              && Midway(next) && (|s.fields| == 1 ==> next.Idle?)
              && (|s.fields| > 1 ==>
                    && next.Pending? && next.symbol.symbolKey == s.symbol.symbolKey && next.fields == s.fields[1..]
                    && next.descriptions == s.descriptions && next.hashed == [] && next.index == 0)
  {
  }

  lemma RestStep(rs: seq<Record>, key: string, field: Field, d: Description, before: Text, index: nat)
    requires rs != [] && rs[0].Chunk? && d.Description? && |before| + |rs[0].text| < d.bytes
    ensures RestOfField(rs, key, field, d, before, index)
            <==> FragmentOf(rs[0], key, field, index) && RestOfField(rs[1..], key, field, d, before + rs[0].text, index + 1)
  {
    var tail := rs[1..];
    forall i | 0 <= i < |tail|
      ensures FragmentOf(rs[i + 1], key, field, index + (i + 1)) <==> FragmentOf(tail[i], key, field, index + 1 + i)
    {
      assert tail[i] == rs[i + 1];
    }
    assert forall i :: 1 <= i < |rs| ==> rs[i] == tail[i - 1];
    if forall i :: 0 <= i < |rs| ==> rs[i].Chunk? {
      assert before + Concatenated(rs) == (before + rs[0].text) + Concatenated(tail);
    }
  }

  lemma {:induction false} ConcatenatedGrows(rs: seq<Record>)
    requires (forall i :: 0 <= i < |rs| ==> rs[i].Chunk? && |rs[i].text| > 0)
    ensures |Concatenated(rs)| >= |rs|
  {
    if rs != [] {
      ConcatenatedGrows(rs[1..]);
    }
  }

  // Once all bytes have come the field has no further fragment.
  lemma RestEnds(rs: seq<Record>, key: string, field: Field, d: Description, before: Text, index: nat)
    requires rs != [] && rs[0].Chunk? && d.Description? && |before| + |rs[0].text| >= d.bytes
    ensures RestOfField(rs, key, field, d, before, index)
            <==> |rs| == 1 && FragmentOf(rs[0], key, field, index) && |before| + |rs[0].text| == d.bytes
                 && Sha256(before + rs[0].text) == d.sha256
  {
    if forall i :: 0 <= i < |rs| ==> FragmentOf(rs[i], key, field, index + i) {
      ConcatenatedGrows(rs[1..]);
      if |rs| == 1 {
        assert Concatenated(rs) == rs[0].text + Concatenated([]) == rs[0].text;
      }
    }
  }

  lemma DueContinues(s: State, records: seq<Record>)
    requires Midway(s) && s.Pending? && records != [] && Continues(s, records[0])
    ensures Due(records, s.symbol.symbolKey.value, s.fields, s.descriptions, s.hashed, s.index)
            <==> Due(records[1..], s.symbol.symbolKey.value, s.fields, s.descriptions, s.hashed + records[0].text, s.index + 1)
  {
    assert s.fields[0] in s.fields;
    hide Well, FragmentOf, RestOfField;
    DueLonger(records, s.symbol.symbolKey.value, s.fields, s.descriptions, s.hashed, s.index);
    DueShorter(records, s.symbol.symbolKey.value, s.fields, s.descriptions, s.hashed, s.index);
  }

  lemma DueLonger(records: seq<Record>, key: string, fields: seq<Field>, described: map<Field, Description>, before: Text, index: nat)
    requires fields != [] && records != [] && records[0].Chunk? && FragmentOf(records[0], key, fields[0], index)
    requires fields[0] in described && described[fields[0]].Description? && |before| + |records[0].text| < described[fields[0]].bytes
    ensures Due(records[1..], key, fields, described, before + records[0].text, index + 1)
            ==> Due(records, key, fields, described, before, index)
  {
    hide RestOfField, FragmentOf, Framed;
    var rest, d := records[1..], described[fields[0]];
    if Due(rest, key, fields, described, before + records[0].text, index + 1) {
      var k :| 0 <= k <= |rest| && RestOfField(rest[..k], key, fields[0], d, before + records[0].text, index + 1)
               && Due(rest[k..], key, fields[1..], described, [], 0);
      assert records[..k + 1][1..] == rest[..k] && rest[k..] == records[k + 1..];
      RestStep(records[..k + 1], key, fields[0], d, before, index);
    }
  }

  lemma DueShorter(records: seq<Record>, key: string, fields: seq<Field>, described: map<Field, Description>, before: Text, index: nat)
    requires fields != [] && records != [] && records[0].Chunk?
    requires fields[0] in described && described[fields[0]].Description? && |before| + |records[0].text| < described[fields[0]].bytes
    ensures Due(records, key, fields, described, before, index)
            ==> Due(records[1..], key, fields, described, before + records[0].text, index + 1)
  {
    hide RestOfField, FragmentOf, Framed;
    var rest, d := records[1..], described[fields[0]];
    if Due(records, key, fields, described, before, index) {
      var k :| 0 <= k <= |records| && RestOfField(records[..k], key, fields[0], d, before, index)
               && Due(records[k..], key, fields[1..], described, [], 0);
      RestNonempty(records[..k], key, fields[0], d, before, index);
      assert records[..k][1..] == rest[..k - 1] && rest[k - 1..] == records[k..];
      RestStep(records[..k], key, fields[0], d, before, index);
    }
  }

  lemma RestNonempty(rs: seq<Record>, key: string, field: Field, d: Description, before: Text, index: nat)
    requires RestOfField(rs, key, field, d, before, index)
    ensures rs != [] && FragmentOf(rs[0], key, field, index)
  {
  }

  lemma DueFinishes(s: State, records: seq<Record>)
    requires Midway(s) && s.Pending? && records != [] && !Continues(s, records[0])
    ensures Due(records, s.symbol.symbolKey.value, s.fields, s.descriptions, s.hashed, s.index)
            <==> Finishes(s, records[0]) && Due(records[1..], s.symbol.symbolKey.value, s.fields[1..], s.descriptions, [], 0)
  {
    hide RestOfField, FragmentOf;
    var key, field, r := s.symbol.symbolKey.value, s.fields[0], records[0];
    var d := s.descriptions[field];
    assert field in s.fields;
    if k :| 0 <= k <= |records| && RestOfField(records[..k], key, field, d, s.hashed, s.index)
            && Due(records[k..], key, s.fields[1..], s.descriptions, [], 0) {
      RestNonempty(records[..k], key, field, d, s.hashed, s.index);
      IsChunk(r, key, field, s.index);
      RestEnds(records[..k], key, field, d, s.hashed, s.index);
    }
    if Finishes(s, r) && Due(records[1..], key, s.fields[1..], s.descriptions, [], 0) {
      IsChunk(r, key, field, s.index);
      RestEnds(records[..1], key, field, d, s.hashed, s.index);
    }
  }

  lemma IsChunk(r: Record, key: string, field: Field, index: nat)
    requires FragmentOf(r, key, field, index)
    ensures r.Chunk?
  {
  }

  lemma DueNothing(key: string, fields: seq<Field>, described: map<Field, Description>, before: Text, index: nat)
    requires fields != []
    ensures !Due([], key, fields, described, before, index)
  {
  }

  lemma FramedFirst(records: seq<Record>)
    requires records != []
    ensures Framed(records)
            <==> || (records[0].Fact? && records[0].chunks.Absent? && Framed(records[1..]))
                 || (Announces(records[0])
                     && Due(records[1..], records[0].symbolKey.value, WireOrder(records[0].chunks.fields), records[0].chunks.fields, [], 0))
  {
    hide Announces, WireOrder, Due;
  }

  lemma DueOver(records: seq<Record>, key: string, described: map<Field, Description>)
    ensures Due(records, key, [], described, [], 0) <==> Framed(records)
  {
    hide Framed;
  }

  ghost predicate RunsOut(assemble: bool, s: State, records: seq<Record>)
    requires Well(s)
  {
    var run := Run(assemble, s, records);
    run.Ok? && run.value.0.Idle?
  }

  lemma RunsOutStep(assemble: bool, s: State, records: seq<Record>)
    requires Well(s) && records != []
    ensures RunsOut(assemble, s, records)
            <==> Step(assemble, s, records[0]).Ok? && RunsOut(assemble, Step(assemble, s, records[0]).value.0, records[1..])
  {
    hide Step, Well;
  }

  lemma {:induction false} RunsOutIff(assemble: bool, s: State, records: seq<Record>)
    requires Midway(s)
    ensures RunsOut(assemble, s, records) <==> Completes(s, records)
    decreases |records|
  {
    hide Framed, Due, Step, Run, WireOrder, Announces;
    if records == [] {
      EndOfStream(assemble, s);
    } else {
      var r := records[0];
      hide RunsOut;
      RunsOutStep(assemble, s, records);
      if r.Fact? {
        FactIff(assemble, s, records);
      } else {
        ChunkIff(assemble, s, records);
      }
    }
  }

  lemma EndOfStream(assemble: bool, s: State)
    requires Midway(s)
    ensures RunsOut(assemble, s, []) <==> Completes(s, [])
  {
    if s.Pending? {
      DueNothing(s.symbol.symbolKey.value, s.fields, s.descriptions, s.hashed, s.index);
    }
  }

  lemma {:induction false} FactIff(assemble: bool, s: State, records: seq<Record>)
    requires Midway(s) && records != [] && records[0].Fact?
    ensures Step(assemble, s, records[0]).Ok? && RunsOut(assemble, Step(assemble, s, records[0]).value.0, records[1..])
            <==> Completes(s, records)
    decreases |records|, 0
  {
    hide Framed, Due, Step, Run, WireOrder, Announces, RunsOut, Well, Continues, Finishes;
    FactStep(assemble, s, records[0]);
    FramedFirst(records);
    FactAnnounces(records[0]);
    if s.Pending? {
      NotAFragment(s, records[0]);
      DueFinishes(s, records);
    } else if Step(assemble, s, records[0]).Ok? {
      RunsOutIff(assemble, Step(assemble, s, records[0]).value.0, records[1..]);
    }
  }

  lemma FactAnnounces(r: Record)
    ensures Announces(r) ==> r.Fact? && r.chunks.Described? && r.symbolKey.Some?
  {
  }

  lemma NotAFragment(s: State, r: Record)
    requires Well(s) && r.Fact?
    ensures !Continues(s, r) && !Finishes(s, r)
  {
  }

  lemma {:induction false} ChunkIff(assemble: bool, s: State, records: seq<Record>)
    requires Midway(s) && records != [] && records[0].Chunk?
    ensures Step(assemble, s, records[0]).Ok? && RunsOut(assemble, Step(assemble, s, records[0]).value.0, records[1..])
            <==> Completes(s, records)
    decreases |records|, 0
  {
    hide Framed, Due, Step, Run, WireOrder, Announces, RunsOut, Continues, Finishes, FragmentOf;
    var r := records[0];
    ChunkStep(assemble, s, r);
    FramedFirst(records);
    FactAnnounces(r);
    if s.Idle? {
      NotAwaited(s, r);
    } else if Continues(s, r) {
      DueContinues(s, records);
      RunsOutIff(assemble, Step(assemble, s, r).value.0, records[1..]);
    } else {
      DueFinishes(s, records);
      DueOver(records[1..], s.symbol.symbolKey.value, s.descriptions);
      if Finishes(s, r) {
        RunsOutIff(assemble, Step(assemble, s, r).value.0, records[1..]);
        assert |s.fields| == 1 ==> s.fields[1..] == [];
      }
    }
  }

  lemma NotAwaited(s: State, r: Record)
    requires Well(s) && s.Idle?
    ensures !Continues(s, r) && !Finishes(s, r)
  {
  }

  // The ingestor accepts a stream, with or without assembling texts, exactly when it is framed:
  // facts in any order, and after each symbol that announces texts all their fragments at once, in
  // wire order, numbered from zero, of at most 65536 bytes, complete and with the announced digest.
  lemma AcceptedIffFramed(assemble: bool, records: seq<Record>)
    ensures Accepted(assemble, records) <==> Framed(records)
  {
    hide Framed, Due, Run;
    RunsOutIff(assemble, Idle, records);
  }
}
