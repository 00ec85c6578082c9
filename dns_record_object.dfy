/** `DNSResourceRecord` as an object: its fields `impl`, `info_` and `data`,
    the buffer constructor that walks a cursor over the input, `write` into a
    caller's buffer, and copy construction and assignment. */
module DnsRecordObject {
  import opened Wrappers
  import opened Bytes
  import opened DnsRecord
  import DnsRecordProperties

  /** The first part of the buffer constructor: the owner name and the
      cursor position after it. A literal name is scanned up to its zero
      terminator, which is consumed. */
  method ReadName(buffer: seq<byte>) returns (r: Result<(NameImpl, nat), DecodeError>)
    requires DecodePre(buffer)
    ensures r == DecodeName(buffer)
  {
    if IsPointer(buffer[0]) {
      var offset := BeUint16(buffer[0], buffer[1]) % 0x4000;
      var m := BeBytes16(offset);
      var impl := NewOffseted(m[0], m[1]);
      assert impl == PointerImpl(buffer[0], buffer[1]);
      return Ok((impl, 2));
    }
    var strEnd := 0;
    while strEnd < |buffer| && buffer[strEnd] != 0
      invariant strEnd <= |buffer|
      invariant forall j :: 0 <= j < strEnd ==> buffer[j] != 0
    {
      strEnd := strEnd + 1;
    }
    if strEnd == |buffer| {
      return Err(TruncatedName);
    }
    DnsRecordProperties.LiteralName(buffer, strEnd);
    return Ok((Named(buffer[..strEnd]), strEnd + 1));
  }

  /** The buffer constructor: the name, then the fields after it. */
  method ParseRecord(buffer: seq<byte>) returns (r: Result<Record, DecodeError>)
    requires DecodePre(buffer)
    ensures r == Decode(buffer)
  {
    var name := ReadName(buffer);
    if name.Err? {
      return Err(name.error);
    }
    r := ReadFields(buffer, name.value.0, name.value.1);
  }

  /** The rest of the buffer constructor, from the cursor position after the
      name: the info block is copied, `data` is sized from the length field
      and then filled; each failed check aborts with its stage. */
  method ReadFields(buffer: seq<byte>, impl: NameImpl, start: nat) returns (r: Result<Record, DecodeError>)
    requires impl.Size() == start <= |buffer|
    ensures r == DecodeFields(buffer, impl, start)
  {
    var cursor := start;
    if cursor + INFO_SIZE > |buffer| {
      return Err(TruncatedInfo);
    }
    var info: InfoBlock := buffer[cursor..cursor + INFO_SIZE];
    cursor := cursor + INFO_SIZE;
    if cursor + 2 > |buffer| {
      return Err(TruncatedDataSize);
    }
    var data := new byte[BeUint16(buffer[cursor], buffer[cursor + 1])];
    cursor := cursor + 2;
    if cursor + data.Length > |buffer| {
      return Err(TruncatedData);
    }
    if ContainsDname(info[0], info[1]) {
      var i := 0;
      while i < data.Length
        invariant i <= data.Length
        invariant forall k :: 0 <= k < i ==> data[k] == buffer[cursor + k]
      {
        data[i] := buffer[cursor + i];
        i := i + 1;
      }
      assert data[..] == buffer[cursor..cursor + data.Length];
    } else if data.Length == 4 {
      data[0], data[1], data[2], data[3] :=
        buffer[cursor], buffer[cursor + 1], buffer[cursor + 2], buffer[cursor + 3];
      assert data[..] == buffer[cursor..cursor + 4];
    } else {
      return Err(InvalidDataLength);
    }
    return Ok(Record(Some(impl), info, data[..]));
  }

  /** Copies `src` into `buffer` from position `at`, returning the position
      after it (`memcpy` / `std::copy`). */
  method PutBytes(buffer: array<byte>, at: nat, src: seq<byte>) returns (next: nat)
    requires at + |src| <= buffer.Length
    modifies buffer
    ensures next == at + |src|
    ensures PutAt(old(buffer[..]), at, src, buffer[..])
  {
    var i := 0;
    while i < |src|
      invariant i <= |src|
      invariant forall k :: 0 <= k < buffer.Length && !(at <= k < at + i) ==> buffer[k] == old(buffer[k])
      invariant forall k :: 0 <= k < i ==> buffer[at + k] == src[k]
    {
      buffer[at + i] := src[i];
      i := i + 1;
    }
    next := at + |src|;
  }

  /** The effect of `PutBytes` on a buffer's contents `before`: `src` at
      `at`, everything else as it was. */
  ghost predicate PutAt(before: seq<byte>, at: nat, src: seq<byte>, after: seq<byte>)
  {
    at + |src| <= |before| && |after| == |before|
    && (forall i :: 0 <= i < |after| && !(at <= i < at + |src|) ==> after[i] == before[i])
    && (forall i :: 0 <= i < |src| ==> after[at + i] == src[i])
  }

  /** Four consecutive writes from `start` leave their concatenation there and
      the rest of the buffer as it was. */
  lemma FourWrites(orig: seq<byte>, start: nat, a: seq<byte>, b: seq<byte>, c: seq<byte>, d: seq<byte>,
                   s1: seq<byte>, s2: seq<byte>, s3: seq<byte>, s4: seq<byte>)
    requires PutAt(orig, start, a, s1)
    requires PutAt(s1, start + |a|, b, s2)
    requires PutAt(s2, start + |a| + |b|, c, s3)
    requires PutAt(s3, start + |a| + |b| + |c|, d, s4)
    ensures var n := |a| + |b| + |c| + |d|;
      |s4| == |orig| && s4[start..start + n] == a + b + c + d
      && s4[..start] == orig[..start] && s4[start + n..] == orig[start + n..]
  {
    var n := |a| + |b| + |c| + |d|;
    var e := a + b + c + d;
    forall i | 0 <= i < n
      ensures s4[start + i] == e[i]
    {
      if i < |a| {
        assert s1[start + i] == a[i];
      } else if i < |a| + |b| {
        assert s2[start + i] == b[i - |a|];
      } else if i < |a| + |b| + |c| {
        assert s3[start + i] == c[i - |a| - |b|];
      } else {
        assert s4[start + i] == d[i - |a| - |b| - |c|];
      }
    }
    assert s4[start..start + n] == e;
  }

  class ResourceRecord {
    var impl: Option<NameImpl>
    var info: InfoBlock
    var data: RData

    /** The record's value. */
    function Value(): Record
      reads this
    {
      Record(impl, info, data)
    }

    /** The impl+data constructor: takes `nameImpl` over and copies `len`
        bytes from `d` when `d` is non-null and `len` is non-zero. The info
        block is left unspecified. */
    constructor (nameImpl: Option<NameImpl>, d: Option<seq<byte>>, len: nat)
      requires len < 0x1_0000
      requires d.Some? ==> len <= |d.value|
      ensures impl == nameImpl
      ensures data == if d.Some? && len != 0 then d.value[..len] else []
    {
      impl := nameImpl;
      var unspecified: InfoBlock :| true;
      info := unspecified;
      data := if d.Some? && len != 0 then d.value[..len] else [];
    }

    /** The buffer constructor: a new record holding what `buffer` encodes, or
        the stage at which it throws, in which case no record is made. */
    static method FromBuffer(buffer: seq<byte>) returns (r: Result<ResourceRecord, DecodeError>)
      requires DecodePre(buffer)
      ensures r.Err? <==> Decode(buffer).Err?
      ensures r.Err? ==> r.error == Decode(buffer).error
      ensures r.Ok? ==> fresh(r.value) && r.value.Value() == Decode(buffer).value
    {
      var parsed := ParseRecord(buffer);
      match parsed
      case Err(e) =>
        r := Err(e);
      case Ok(v) =>
        var rec := new ResourceRecord(v.impl, Some(v.data), |v.data|);
        rec.info := v.info;
        r := Ok(rec);
    }

    /** The copy constructor: an equal record that shares no state with `rhs`. */
    constructor Copy(rhs: ResourceRecord)
      ensures Value() == rhs.Value()
    {
      info := rhs.info;
      data := rhs.data;
      impl := rhs.Value().CloneImpl();
    }

    /** `operator=`: the fields become those of `rhs`; `rhs` itself does not
        change. */
    method Assign(rhs: ResourceRecord)
      modifies this
      ensures Value() == old(rhs.Value())
      ensures rhs != this ==> rhs.Value() == old(rhs.Value())
    {
      var cloned := rhs.Value().CloneImpl();
      info := rhs.info;
      data := rhs.data;
      impl := cloned;
    }

    /** `write`: the encoding at `buffer[start..]`, returning its length, which
        is `size()`; the rest of `buffer` is untouched. */
    method Write(buffer: array<byte>, start: nat) returns (n: nat)
      requires start + Value().Size() <= buffer.Length
      modifies buffer
      ensures n == Value().Size()
      ensures buffer[start..start + n] == Encode(Value())
      ensures buffer[..start] == old(buffer[..start])
      ensures buffer[start + n..] == old(buffer[start + n..])
    {
      var w := if impl.Some? then impl.value.DoWrite() else [];
      var len := BeBytes16(|data|);
      ghost var s0 := buffer[..];
      var cur := PutBytes(buffer, start, w);
      ghost var s1 := buffer[..];
      cur := PutBytes(buffer, cur, info);
      ghost var s2 := buffer[..];
      cur := PutBytes(buffer, cur, len);
      ghost var s3 := buffer[..];
      cur := PutBytes(buffer, cur, data);
      FourWrites(s0, start, w, info, len, data, s1, s2, s3, buffer[..]);
      n := |w| + INFO_SIZE + 2 + |data|;
    }
  }

  /** A copy can be overwritten without affecting the record it was copied
      from: `Assign` modifies only the fresh copy. */
  method CopyThenAssign(src: ResourceRecord, other: ResourceRecord) returns (copy: ResourceRecord)
    ensures fresh(copy)
    ensures copy.Value() == other.Value()
    ensures src.Value() == old(src.Value())
  {
    copy := new ResourceRecord.Copy(src);
    assert copy.Value() == src.Value();
    copy.Assign(other);
  }
}
