// The ingestor's side of symbol text: one reassembly state per stream.
module SymbolStream {
  import opened Options
  import opened Utf8
  import opened SymbolText

  // Waiting for a symbol's fragments: the fields still due, and what has come of the first.
  datatype State = Idle | Pending(symbol: Record, descriptions: map<Field, Description>, fields: seq<Field>,
                                  parts: seq<Text>, index: nat, received: nat, hashed: Text)

  ghost predicate Well(s: State) {
    s.Pending? ==>
      && s.fields != [] && (forall f :: f in s.fields ==> f in s.descriptions && s.descriptions[f].Description?)
      && s.symbol.Fact? && s.symbol.symbolKey.Some? && s.symbol.kind == SymbolKind && s.symbol.chunks == Absent
      && s.received == |s.hashed|
  }

  predicate GoodDescription(d: Description) {
    d.Description? && d.bytes > 0
  }

  predicate GoodDescriptor(r: Record)
    requires r.Fact? && r.chunks.Described?
  {
    && r.kind == SymbolKind && r.symbolKey.Some? && r.symbolKey.value != "" && r.chunks.fields != map[]
    && forall f :: f in r.chunks.fields ==> f !in r.texts && GoodDescription(r.chunks.fields[f])
  }

  function StripChunks(r: Record): Record
    requires r.Fact?
  {
    r.(chunks := Absent)
  }

  // A symbol whose descriptor is in order: its fragments are awaited.
  function Begin(r: Record): (s: State)
    requires r.Fact? && r.chunks.Described? && GoodDescriptor(r)
    ensures Well(s) && s.Pending?
  {
    var fields := InOrder(r.chunks.fields.Keys);
    assert fields != [] by {
      var f :| f in r.chunks.fields;
      assert f in fields;
    }
    Pending(StripChunks(r), r.chunks.fields, fields, [], 0, 0, [])
  }

  function StepFact(s: State, r: Record): Result<(State, Option<Record>)>
    requires r.Fact?
  {
    if s.Pending? then ProtocolError
    else if r.chunks.Absent? then Ok((Idle, Some(r)))
    else if r.chunks.Malformed? || !GoodDescriptor(r) then ProtocolError
    else Ok((Begin(r), None))
  }

  predicate InSequence(s: State, r: Record)
    requires s.Pending? && s.fields != [] && s.symbol.Fact? && r.Chunk?
  {
    r.wellFormed && s.symbol.symbolKey == Some(r.key) && r.field == s.fields[0] && r.index == s.index
  }

  // The first field's bytes are all there.
  function FinishField(assemble: bool, s: State): (Option<Record>, State)
    requires Well(s) && s.Pending?
  {
    var symbol := if assemble then s.symbol.(texts := s.symbol.texts[s.fields[0] := Flatten(s.parts)]) else s.symbol;
    if |s.fields| == 1 then (Some(symbol), Idle)
    else (None, Pending(symbol, s.descriptions, s.fields[1..], [], 0, 0, []))
  }

  function StepChunk(assemble: bool, s: State, r: Record): Result<(State, Option<Record>)>
    requires Well(s) && r.Chunk?
  {
    if s.Idle? || !InSequence(s, r) then ProtocolError
    else
      var due := s.descriptions[s.fields[0]];
      var received := s.received + |r.text|;
      if !(0 < |r.text| <= CHUNK_BYTES) || received > due.bytes then ProtocolError
      else
        var s' := s.(received := received, hashed := s.hashed + r.text, index := s.index + 1,
                     parts := if assemble then s.parts + [r.text] else s.parts);
        if received < due.bytes then Ok((s', None))
        else if Sha256(s'.hashed) != due.sha256 then ProtocolError
        else var (out, next) := FinishField(assemble, s'); Ok((next, out))
  }

  // One record: the next state and the logical fact completed by it, if any.
  function Step(assemble: bool, s: State, r: Record): (a: Result<(State, Option<Record>)>)
    requires Well(s)
    ensures a.Ok? ==> Well(a.value.0)
  {
    if r.Chunk? then StepChunk(assemble, s, r) else StepFact(s, r)
  }

  function Listed(out: Option<Record>): seq<Record> {
    if out.Some? then [out.value] else []
  }

  // A whole stream: the logical facts, in order.
  function Run(assemble: bool, s: State, records: seq<Record>): (a: Result<(State, seq<Record>)>)
    requires Well(s)
    ensures a.Ok? ==> Well(a.value.0)
    decreases |records|
  {
    if records == [] then Ok((s, []))
    else match Step(assemble, s, records[0])
      case ProtocolError => ProtocolError
      case Ok((next, out)) =>
        match Run(assemble, next, records[1..])
        case ProtocolError => ProtocolError
        case Ok((last, outs)) => Ok((last, Listed(out) + outs))
  }

  // A stream is accepted when it runs through and leaves no symbol unfinished.
  predicate Accepted(assemble: bool, records: seq<Record>) {
    var run := Run(assemble, Idle, records);
    run.Ok? && run.value.0.Idle?
  }

  function Logical(records: seq<Record>): seq<Record>
    requires Accepted(true, records)
  {
    Run(true, Idle, records).value.1
  }

  // The object that the stream loop and the builder each keep.
  class SymbolTextChunks {
    const assemble: bool
    var symbol: Option<Record>
    var descriptions: map<Field, Description>
    var fields: seq<Field>
    var parts: seq<Text>
    var index: nat
    var received: nat
    var digest: Text

    ghost function State(): State
      reads this
    {
      if symbol.None? then Idle else Pending(symbol.value, descriptions, fields, parts, index, received, digest)
    }

    ghost predicate Valid()
      reads this
    {
      Well(State()) && (symbol.None? ==> fields == [] && parts == [] && index == 0 && received == 0 && digest == [])
    }

    constructor (assemble: bool)
      ensures Valid() && State() == Idle && this.assemble == assemble
    {
      this.assemble := assemble;
      symbol, descriptions, fields, parts, index, received, digest := None, map[], [], [], 0, 0, [];
    }

    method Finish() returns (ok: bool)
      ensures ok == State().Idle?
    {
      ok := symbol.None?;
    }

    method Accept(r: Record) returns (answer: Result<Option<Record>>)
      requires Valid()
      modifies this
      ensures answer.Ok? <==> Step(assemble, old(State()), r).Ok?
      ensures answer.Ok? ==> Valid() && Step(assemble, old(State()), r) == Ok((State(), answer.value))
    {
      if r.Chunk? {
        answer := AcceptChunk(r);
        return;
      }
      var finished := Finish();
      if !finished {
        return ProtocolError;
      }
      if r.chunks.Absent? {
        return Ok(Some(r));
      }
      if r.chunks.Malformed? || !GoodDescriptor(r) {
        return ProtocolError;
      }
      symbol := Some(StripChunks(r));
      descriptions := r.chunks.fields;
      fields := InOrder(r.chunks.fields.Keys);
      assert State() == Begin(r);
      return Ok(None);
    }

    method AcceptChunk(r: Record) returns (answer: Result<Option<Record>>)
      requires Valid() && r.Chunk?
      modifies this
      ensures answer.Ok? <==> StepChunk(assemble, old(State()), r).Ok?
      ensures answer.Ok? ==> Valid() && StepChunk(assemble, old(State()), r) == Ok((State(), answer.value))
    {
      if symbol.None? || !InSequence(Pending(symbol.value, descriptions, fields, parts, index, received, digest), r) {
        return ProtocolError;
      }
      var due := descriptions[fields[0]];
      received := received + |r.text|;
      if !(0 < |r.text| <= CHUNK_BYTES) || received > due.bytes {
        return ProtocolError;
      }
      digest := digest + r.text;
      index := index + 1;
      if assemble {
        parts := parts + [r.text];
      }
      if received == due.bytes {
        if Sha256(digest) != due.sha256 {
          return ProtocolError;
        }
        answer := CloseField();
        return;
      }
      return Ok(None);
    }

    method CloseField() returns (answer: Result<Option<Record>>)
      requires Valid() && symbol.Some?
      modifies this
      ensures answer.Ok? && Valid() && FinishField(assemble, old(State())) == (answer.value, State())
    {
      if assemble {
        symbol := Some(symbol.value.(texts := symbol.value.texts[fields[0] := Flatten(parts)]));
      }
      parts, fields := [], fields[1..];
      index, received, digest := 0, 0, [];
      if fields == [] {
        answer, symbol, descriptions := Ok(symbol), None, map[];
        return;
      }
      return Ok(None);
    }
  }
}
