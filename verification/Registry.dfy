// Shared byte and descriptor budgets, and the fact spools that draw on them.
module Registry {
  import opened Options

  datatype Error = NoError | ProtocolError | LimitError | ClosedError | IoError

  const MAX_FACT_KINDS := 64
  const FRAME_HEADER_BYTES := 4

  // A hard bound shared by all registries of one pipeline.
  class ResourceBudget {
    const limit: nat
    var used: int

    ghost predicate Valid()
      reads this
    {
      0 <= used <= limit
    }

    constructor (limit: nat)
      requires limit > 0
      ensures Valid() && used == 0 && this.limit == limit
    {
      this.limit := limit;
      used := 0;
    }

    method Acquire(amount: nat) returns (ok: bool)
      modifies this
      ensures ok == (old(used) + amount <= limit)
      ensures used == if ok then old(used) + amount else old(used)
    {
      if used + amount > limit {
        return false;
      }
      used := used + amount;
      return true;
    }

    // False reports an underflow.
    method Release(amount: nat) returns (ok: bool)
      modifies this
      ensures used == old(used) - amount && ok == (used >= 0)
    {
      used := used - amount;
      return used >= 0;
    }
  }

  // What a fact looks like once encoded: its bytes, or nothing when it cannot be encoded.
  type Payload = seq<int>

  // One temporary file: whole frames, and whether a failed write left a part of one.
  datatype File = File(frames: seq<Payload>, torn: bool)

  function FrameBytes(payload: Payload): nat {
    FRAME_HEADER_BYTES + |payload|
  }

  // Spools of one analysis, a file per fact kind.
  class FactRegistry {
    const maxBytes: nat
    const maxRecordBytes: nat
    const byteBudget: ResourceBudget
    const fdBudget: ResourceBudget
    var files: map<string, File>
    var bytes: nat
    var closed: bool

    // What this registry holds of the two budgets.
    ghost predicate Valid()
      reads this, byteBudget, fdBudget
    {
      && byteBudget != fdBudget && byteBudget.Valid() && fdBudget.Valid()
      && bytes <= byteBudget.used && |files| <= fdBudget.used
      && bytes <= maxBytes && |files| <= MAX_FACT_KINDS && (closed ==> files == map[] && bytes == 0)
    }

    constructor (maxBytes: nat, maxRecordBytes: nat, byteBudget: ResourceBudget, fdBudget: ResourceBudget)
      requires maxBytes > 0 && maxRecordBytes > 0 && byteBudget != fdBudget && byteBudget.Valid() && fdBudget.Valid()
      ensures Valid() && files == map[] && bytes == 0 && !closed
      ensures this.byteBudget == byteBudget && this.fdBudget == fdBudget
      ensures this.maxBytes == maxBytes && this.maxRecordBytes == maxRecordBytes
    {
      this.maxBytes, this.maxRecordBytes := maxBytes, maxRecordBytes;
      this.byteBudget, this.fdBudget := byteBudget, fdBudget;
      files, bytes, closed := map[], 0, false;
    }

    // Whatever happens, the budgets move with what the registry holds.
    twostate predicate Accounted()
      reads this, byteBudget, fdBudget
    {
      && byteBudget.used - old(byteBudget.used) == bytes - old(bytes)
      && fdBudget.used - old(fdBudget.used) == |files| - |old(files)|
    }

    // Makes sure there is a file for the kind. `temporary` says whether the system supplies one.
    method OpenFile(kind: string, temporary: bool) returns (error: Error)
      requires Valid() && !closed
      modifies this, fdBudget
      ensures Valid() && Accounted() && !closed && bytes == old(bytes)
      ensures error == if kind in old(files) then NoError
                       else if |old(files)| >= MAX_FACT_KINDS || old(fdBudget.used) + 1 > fdBudget.limit then LimitError
                       else if !temporary then IoError else NoError
      ensures files == if error == NoError && kind !in old(files) then old(files)[kind := File([], false)] else old(files)
    {
      if kind in files {
        return NoError;
      }
      if |files| >= MAX_FACT_KINDS {
        return LimitError;
      }
      var ok := fdBudget.Acquire(1);
      if !ok {
        return LimitError;
      }
      if !temporary {
        var _ := fdBudget.Release(1);
        return IoError;
      }
      files := files[kind := File([], false)];
      return NoError;
    }

    // Appends a frame. `written` says whether the write goes through.
    method Append(kind: string, payload: Payload, written: bool) returns (error: Error)
      requires Valid() && !closed && kind in files
      modifies this, byteBudget
      ensures Valid() && Accounted() && !closed
      ensures error == if |payload| > maxRecordBytes || old(bytes) + FrameBytes(payload) > maxBytes
                          || old(byteBudget.used) + FrameBytes(payload) > byteBudget.limit then LimitError
                       else if !written then IoError else NoError
      ensures error == NoError ==>
                files == old(files)[kind := File(old(files)[kind].frames + [payload], old(files)[kind].torn)]
                && bytes == old(bytes) + FrameBytes(payload)
      ensures error != NoError ==>
                bytes == old(bytes) && files == if error == IoError then old(files)[kind := old(files)[kind].(torn := true)] else old(files)
    {
      if |payload| > maxRecordBytes {
        return LimitError;
      }
      var frameBytes := FRAME_HEADER_BYTES + |payload|;
      if bytes + frameBytes > maxBytes {
        return LimitError;
      }
      var ok := byteBudget.Acquire(frameBytes);
      if !ok {
        return LimitError;
      }
      if !written {
        var _ := byteBudget.Release(frameBytes);
        files := files[kind := files[kind].(torn := true)];
        return IoError;
      }
      files := files[kind := File(files[kind].frames + [payload], files[kind].torn)];
      bytes := bytes + frameBytes;
      return NoError;
    }

    // There is a file for the kind, or one more may be opened: 64 kinds a registry, and one descriptor.
    ghost predicate HasPlace(kind: string)
      reads this, fdBudget
    {
      kind in files || (|files| < 64 && fdBudget.used < fdBudget.limit)
    }

    // The payload is a record of permitted size, and with its header of four bytes it fits into this
    // registry and into the budget of all.
    ghost predicate Fits(payload: Payload)
      reads this, byteBudget
    {
      && |payload| <= maxRecordBytes
      && bytes + 4 + |payload| <= maxBytes && byteBudget.used + 4 + |payload| <= byteBudget.limit
    }

    // When a fact is accepted, and what answers each way of not being: a closed registry first, then
    // a missing kind, a kind that has no place, a file that is not supplied, a fact that cannot be
    // encoded, one that does not fit, and last a write that fails.
    twostate predicate Answered(kind: Option<string>, payload: Option<Payload>, temporary: bool, written: bool, error: Error) {
      var named := !old(closed) && kind.Some? && kind.value != "";
      var placed := named && old(HasPlace(kind.value));
      var backed := placed && (kind.value in old(files) || temporary);
      var encoded := backed && payload.Some?;
      var fitting := encoded && old(Fits(payload.value));
      && (error == NoError <==> fitting && written)
      && (error == ClosedError <==> old(closed))
      && (error == ProtocolError <==> (!old(closed) && !named) || (backed && !encoded))
      && (error == LimitError <==> (named && !placed) || (encoded && !fitting))
      && (error == IoError <==> (placed && !backed) || (fitting && !written))
    }

    // An accepted fact is one more frame of its own kind; a refused one leaves every frame as it was.
    twostate predicate Stored(kind: Option<string>, payload: Option<Payload>, error: Error)
      reads this
    {
      if error == NoError then
        && kind.Some? && payload.Some? && bytes == old(bytes) + 4 + |payload.value|
        && files.Keys == old(files).Keys + {kind.value}
        && files[kind.value].frames == (if kind.value in old(files) then old(files)[kind.value].frames else []) + [payload.value]
        && forall k :: k in old(files) && k != kind.value ==> files[k] == old(files)[k]
      else
        && bytes == old(bytes)
        && (forall k :: k in old(files) ==> k in files && files[k].frames == old(files)[k].frames)
        && (forall k :: k in files && k !in old(files) ==> kind == Some(k) && files[k].frames == [])
    }

    // Spools one fact of a kind, if it has one.
    method Add(kind: Option<string>, payload: Option<Payload>, temporary: bool, written: bool) returns (error: Error)
      requires Valid()
      modifies this, byteBudget, fdBudget
      ensures Valid() && Accounted() && closed == old(closed)
      ensures old(closed) ==> files == old(files)
      ensures Answered(kind, payload, temporary, written, error)
      ensures Stored(kind, payload, error)
    {
      if closed {
        return ClosedError;
      }
      if kind.None? || kind.value == "" {
        return ProtocolError;
      }
      error := OpenFile(kind.value, temporary);
      if error != NoError {
        return;
      }
      if payload.None? {
        return ProtocolError;
      }
      error := Append(kind.value, payload.value, written);
    }

    // Gives everything back, once.
    method Close()
      requires Valid()
      modifies this, byteBudget, fdBudget
      ensures Valid() && closed && files == map[] && bytes == 0 && Accounted()
    {
      if closed {
        return;
      }
      closed := true;
      var count := |files|;
      for i := 0 to count
        invariant closed && fdBudget.used == old(fdBudget.used) - i
        invariant byteBudget.used == old(byteBudget.used) && unchanged(this`files) && unchanged(this`bytes)
      {
        var ok := fdBudget.Release(1);
        assert ok;
      }
      files := map[];
      var ok := byteBudget.Release(bytes);
      assert ok;
      bytes := 0;
    }
  }

  // All registries of a pipeline ---------------------------------------------------------

  ghost function BytesHeld(rs: seq<FactRegistry>): nat
    reads rs
  {
    if rs == [] then 0 else rs[0].bytes + BytesHeld(rs[1..])
  }

  ghost function FilesHeld(rs: seq<FactRegistry>): nat
    reads rs
  {
    if rs == [] then 0 else |rs[0].files| + FilesHeld(rs[1..])
  }

  lemma {:induction false} HeldPart(rs: seq<FactRegistry>, i: nat)
    requires i < |rs|
    ensures BytesHeld(rs) == BytesHeld(rs[..i]) + rs[i].bytes + BytesHeld(rs[i + 1..])
    ensures FilesHeld(rs) == FilesHeld(rs[..i]) + |rs[i].files| + FilesHeld(rs[i + 1..])
  {
    if i > 0 {
      HeldPart(rs[1..], i - 1);
      assert rs[1..][..i - 1] == rs[..i][1..];
    }
  }

  lemma HeldMore(rs: seq<FactRegistry>, r: FactRegistry)
    ensures BytesHeld(rs + [r]) == BytesHeld(rs) + r.bytes && FilesHeld(rs + [r]) == FilesHeld(rs) + |r.files|
  {
    HeldPart(rs + [r], |rs|);
    assert (rs + [r])[..|rs|] == rs && (rs + [r])[|rs| + 1..] == [];
  }

  lemma {:induction false} HeldByClosed(rs: seq<FactRegistry>)
    requires forall r :: r in rs ==> r.files == map[] && r.bytes == 0
    ensures BytesHeld(rs) == 0 && FilesHeld(rs) == 0
  {
    if rs != [] {
      assert rs[0] in rs;
      HeldByClosed(rs[1..]);
    }
  }

  ghost predicate Distinct(rs: seq<FactRegistry>) {
    forall i, j :: 0 <= i < j < |rs| ==> rs[i] != rs[j]
  }

  lemma DistinctOthers(rs: seq<FactRegistry>, index: nat)
    requires Distinct(rs) && index < |rs|
    ensures rs[index] in rs && rs[index] !in rs[..index] && rs[index] !in rs[index + 1..]
    ensures forall i :: 0 <= i < |rs| && i != index ==> rs[i] != rs[index]
  {
  }

  lemma DistinctMore(rs: seq<FactRegistry>, r: FactRegistry)
    requires Distinct(rs) && r !in rs
    ensures Distinct(rs + [r])
  {
  }

  // The pipeline's registries and the two budgets they share.
  class SpoolPool {
    const bytes: ResourceBudget
    const descriptors: ResourceBudget
    const maxRecordBytes: nat
    var registries: seq<FactRegistry>

    // A registry of this pool, within its own limits.
    ghost predicate Belongs(r: FactRegistry)
      reads r
    {
      && r.byteBudget == bytes && r.fdBudget == descriptors && r.maxBytes == bytes.limit && r.bytes <= r.maxBytes
      && r.maxRecordBytes == maxRecordBytes
      && |r.files| <= MAX_FACT_KINDS && (r.closed ==> r.files == map[] && r.bytes == 0)
    }

    ghost predicate AllBelong()
      reads this, registries
    {
      forall r :: r in registries ==> Belongs(r)
    }

    // One registry's change leaves the others members.
    twostate lemma StillAllBelong(index: nat)
      requires old(AllBelong()) && registries == old(registries) && index < |registries| && Belongs(registries[index])
      requires forall i :: 0 <= i < |registries| && i != index ==> unchanged(registries[i])
      ensures AllBelong()
    {
      hide Belongs;
      forall r | r in registries
        ensures Belongs(r)
      {
        var i :| 0 <= i < |registries| && registries[i] == r;
        if i != index {
          assert old(Belongs(r));
        }
      }
    }

    // Each budget's use is exactly what the registries hold, and within its limit.
    ghost predicate Balanced()
      reads this, bytes, descriptors, registries
    {
      && bytes != descriptors && bytes.limit > 0 && maxRecordBytes > 0
      && Distinct(registries)
      && AllBelong()
      && bytes.used == BytesHeld(registries) && descriptors.used == FilesHeld(registries)
      && bytes.Valid() && descriptors.Valid()
    }

    constructor (maxBytes: nat, maxDescriptors: nat, maxRecordBytes: nat)
      requires maxBytes > 0 && maxDescriptors > 0 && maxRecordBytes > 0
      ensures Balanced() && registries == [] && fresh(bytes) && fresh(descriptors)
    {
      bytes := new ResourceBudget(maxBytes);
      descriptors := new ResourceBudget(maxDescriptors);
      this.maxRecordBytes := maxRecordBytes;
      registries := [];
    }

    lemma {:induction false} MemberIsValid(i: nat)
      requires Balanced() && i < |registries|
      ensures registries[i].Valid()
    {
      assert registries[i] in registries;
      HeldPart(registries, i);
    }

    lemma MemberBelongs(i: nat)
      requires Balanced() && i < |registries|
      ensures var r := registries[i];
              r.byteBudget == bytes && r.fdBudget == descriptors && r.maxBytes == bytes.limit && r.maxRecordBytes == maxRecordBytes
    {
      assert registries[i] in registries;
    }

    lemma StillBelongs(r: FactRegistry)
      requires r.byteBudget == bytes && r.fdBudget == descriptors && r.maxBytes == bytes.limit && r.maxRecordBytes == maxRecordBytes
      requires r.Valid()
      ensures Belongs(r)
    {
    }

    // What the registries other than one hold.
    ghost function Others(index: nat): (nat, nat)
      requires index < |registries|
      reads this, registries[..index], registries[index + 1..]
    {
      (BytesHeld(registries[..index]) + BytesHeld(registries[index + 1..]),
       FilesHeld(registries[..index]) + FilesHeld(registries[index + 1..]))
    }

    lemma Parts(index: nat)
      requires index < |registries|
      ensures BytesHeld(registries) == Others(index).0 + registries[index].bytes
      ensures FilesHeld(registries) == Others(index).1 + |registries[index].files|
    {
      HeldPart(registries, index);
    }

    method Open() returns (index: nat)
      requires Balanced()
      modifies this
      ensures Balanced() && index == |old(registries)| && |registries| == index + 1 && registries[..index] == old(registries)
      ensures fresh(registries[index]) && !registries[index].closed
      ensures bytes.used == old(bytes.used) && descriptors.used == old(descriptors.used)
    {
      index := |registries|;
      var r := new FactRegistry(bytes.limit, maxRecordBytes, bytes, descriptors);
      assert Belongs(r);
      HeldMore(registries, r);
      DistinctMore(registries, r);
      hide BytesHeld, FilesHeld, Belongs, Distinct;
      registries := registries + [r];
    }

    method Spool(index: nat, kind: Option<string>, payload: Option<Payload>, temporary: bool, written: bool)
      returns (error: Error)
      requires Balanced() && index < |registries|
      modifies registries, bytes, descriptors
      ensures Balanced() && registries == old(registries)
      ensures forall i :: 0 <= i < |registries| && i != index ==> unchanged(registries[i])
      ensures registries[index].closed == old(registries[index].closed)
      ensures registries[index].Answered(kind, payload, temporary, written, error)
      ensures registries[index].Stored(kind, payload, error)
    {
      MemberBelongs(index);
      hide BytesHeld, FilesHeld, Others, AllBelong, Belongs, Distinct, FactRegistry.Stored, FactRegistry.Answered;
      MemberIsValid(index);
      Parts(index);
      var registry := registries[index];
      ghost var others := Others(index);
      DistinctOthers(registries, index);
      error := registry.Add(kind, payload, temporary, written);
      StillBelongs(registry);
      StillAllBelong(index);
      assert others == Others(index);
      Parts(index);
    }

    method Close(index: nat)
      requires Balanced() && index < |registries|
      modifies registries, bytes, descriptors
      ensures Balanced() && registries == old(registries) && registries[index].closed
      ensures forall i :: 0 <= i < |registries| && i != index ==> unchanged(registries[i])
    {
      MemberBelongs(index);
      hide BytesHeld, FilesHeld, Others, AllBelong, Belongs, Distinct;
      MemberIsValid(index);
      Parts(index);
      var registry := registries[index];
      ghost var others := Others(index);
      DistinctOthers(registries, index);
      registry.Close();
      StillBelongs(registry);
      StillAllBelong(index);
      assert others == Others(index);
      Parts(index);
    }

    // The end of a run: closing every registry, closed or not, leaves both budgets empty.
    method CloseAll()
      requires Balanced()
      modifies registries, bytes, descriptors
      ensures Balanced() && bytes.used == 0 && descriptors.used == 0
      ensures forall r :: r in registries ==> r.closed
    {
      for i := 0 to |registries|
        invariant Balanced() && forall j :: 0 <= j < i ==> registries[j].closed
      {
        Close(i);
      }
      HeldByClosed(registries);
    }

    // Once every registry is closed, nothing is held of either budget.
    lemma NothingHeld()
      requires Balanced() && forall r :: r in registries ==> r.closed
      ensures bytes.used == 0 && descriptors.used == 0
    {
      HeldByClosed(registries);
    }
  }
}
