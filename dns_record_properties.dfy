/** Properties of the resource-record decoder and encoder: which type codes
    carry a domain name, how the owner name is classified, the staged
    failures, the data-length rule, size agreement and the round trips. */
module DnsRecordProperties {
  import opened Wrappers
  import opened Bytes
  import opened DnsRecord

  lemma SplitSlice(b: seq<byte>, i: nat, j: nat, k: nat)
    requires i <= j <= k <= |b|
    ensures b[i..k] == b[i..j] + b[j..k]
  {
  }

  lemma Concat4(a: seq<byte>, b: seq<byte>, c: seq<byte>, d: seq<byte>)
    ensures a + b + c + d == a + (b + (c + d))
  {
  }

  // ---------------------------------------------------------------------
  // Type codes

  /** As host values: exactly the codes 2, 5, 12 and 15 among all 16-bit codes. */
  lemma ContainsDnameCodes(v: nat)
    requires v < 0x1_0000
    ensures ContainsDname(BeBytes16(v)[0], BeBytes16(v)[1]) <==> v == 2 || v == 5 || v == 12 || v == 15
  {
  }

  /** Every stage throws its own text, except that a bad data length and
      truncated data share one. */
  lemma MessagesDistinct(e1: DecodeError, e2: DecodeError)
    ensures Message(e1) == Message(e2) <==>
      e1 == e2 || ({e1, e2} == {TruncatedData, InvalidDataLength})
  {
  }

  // ---------------------------------------------------------------------
  // The owner name

  /** A first byte with either top bit set is a 2-byte pointer. */
  lemma PointerName(b: seq<byte>)
    requires DecodePre(b) && IsPointer(b[0])
    ensures DecodeName(b) == Ok((Offseted(SetTopBits(b[0]), b[1]), 2))
  {
  }

  /** Otherwise the name is the bytes before the first zero, and the zero is
      consumed. */
  lemma LiteralName(b: seq<byte>, k: nat)
    requires DecodePre(b) && !IsPointer(b[0])
    requires k < |b| && b[k] == 0 && forall j :: 0 <= j < k ==> b[j] != 0
    ensures DecodeName(b) == Ok((Named(b[..k]), k + 1))
  {
  }

  /** A literal name with no zero byte before the end of the buffer is
      rejected, and no record is produced. */
  lemma MissingTerminator(b: seq<byte>)
    requires DecodePre(b) && !IsPointer(b[0])
    ensures Decode(b) == Err(TruncatedName) <==> forall j :: 0 <= j < |b| ==> b[j] != 0
  {
  }

  // ---------------------------------------------------------------------
  // Info block, data length and data

  /** A decoded record holds the info block and the `rdlength` bytes after the
      length field verbatim, and its data length is 4 unless its type carries
      a domain name. */
  lemma DecodedFields(b: seq<byte>)
    requires DecodePre(b) && Decode(b).Ok?
    ensures var r := Decode(b).value;
      var p := r.ImplSize();
      p + INFO_SIZE + 2 + |r.data| <= |b|
      && r.info == b[p..p + INFO_SIZE]
      && |r.data| == BeUint16(b[p + INFO_SIZE], b[p + INFO_SIZE + 1])
      && r.data == b[p + INFO_SIZE + 2..p + INFO_SIZE + 2 + |r.data|]
      && (ContainsDname(r.info[0], r.info[1]) || |r.data| == 4)
  {
  }

  /** A type without a domain name and a data length other than 4 fails even
      when all the bytes are present; with a domain name any length that fits
      is accepted. */
  lemma DataLengthRule(b: seq<byte>)
    requires DecodePre(b) && DecodeName(b).Ok?
    requires var p := DecodeName(b).value.1;
      p + INFO_SIZE + 2 <= |b|
      && p + INFO_SIZE + 2 + BeUint16(b[p + INFO_SIZE], b[p + INFO_SIZE + 1]) <= |b|
    ensures var p := DecodeName(b).value.1;
      var len := BeUint16(b[p + INFO_SIZE], b[p + INFO_SIZE + 1]);
      Decode(b).Ok? <==> ContainsDname(b[p], b[p + 1]) || len == 4
    ensures Decode(b).Err? ==> Decode(b).error == InvalidDataLength
  {
  }

  // ---------------------------------------------------------------------
  // The encoding

  /** The four parts of a concatenation at the start of `w`. */
  lemma Parts4(w: seq<byte>, a: seq<byte>, b: seq<byte>, c: seq<byte>, d: seq<byte>)
    requires |w| >= |a| + |b| + |c| + |d| && w[..|a| + |b| + |c| + |d|] == a + b + c + d
    ensures w[..|a|] == a
    ensures w[|a|..|a| + |b|] == b
    ensures w[|a| + |b|..|a| + |b| + |c|] == c
    ensures w[|a| + |b| + |c|..|a| + |b| + |c| + |d|] == d
  {
    var e := a + b + c + d;
    assert forall i | 0 <= i < |a| :: w[i] == e[i] == a[i];
    assert forall i | 0 <= i < |b| :: w[|a| + i] == e[|a| + i] == b[i];
    assert forall i | 0 <= i < |c| :: w[|a| + |b| + i] == e[|a| + |b| + i] == c[i];
    assert forall i | 0 <= i < |d| :: w[|a| + |b| + |c| + i] == e[|a| + |b| + |c| + i] == d[i];
  }

  /** Where each field sits in `Encode(r)` and in anything that starts with it. */
  lemma EncodeLayout(r: Record, w: seq<byte>)
    requires |w| >= r.Size() && w[..r.Size()] == Encode(r)
    ensures var p := r.ImplSize();
      w[..p] == (if r.impl.Some? then r.impl.value.DoWrite() else [])
      && w[p..p + INFO_SIZE] == r.info
      && w[p + INFO_SIZE] == BeBytes16(|r.data|)[0]
      && w[p + INFO_SIZE + 1] == BeBytes16(|r.data|)[1]
      && w[p + INFO_SIZE + 2..r.Size()] == r.data
  {
    var nm := if r.impl.Some? then r.impl.value.DoWrite() else [];
    var len := BeBytes16(|r.data|);
    Parts4(w, nm, r.info, len, r.data);
    assert w[r.ImplSize() + INFO_SIZE..r.ImplSize() + INFO_SIZE + 2] == len;
  }

  /** A name that decodes back to itself: a literal without zero bytes whose
      first byte is not taken for a pointer, or a pointer with both top bits set. */
  predicate CanonicalName(n: NameImpl)
  {
    match n
    case Offseted(hi, _) => TopBits(hi) == 3
    case Named(name) =>
      (forall j :: 0 <= j < |name| ==> name[j] != 0) && (|name| > 0 ==> !IsPointer(name[0]))
  }

  /** A record that its own encoding decodes to. */
  predicate Decodable(r: Record)
  {
    r.impl.Some? && CanonicalName(r.impl.value)
    && (ContainsDname(r.info[0], r.info[1]) || |r.data| == 4)
  }

  /** Bytes that start with a canonical name's encoding decode to that name. */
  lemma DecodeNameOfWrite(n: NameImpl, w: seq<byte>)
    requires CanonicalName(n) && |w| >= n.Size() && w[..n.Size()] == n.DoWrite()
    ensures DecodePre(w) && DecodeName(w) == Ok((n, n.Size()))
  {
    match n
    case Offseted(hi, lo) =>
      assert w[0] == hi && w[1] == lo;
      PointerName(w);
    case Named(name) =>
      assert w[..|name|] == name;
      assert w[|name|] == 0;
      LiteralName(w, |name|);
  }

  /** Decoding what `write` emits, whatever follows it, gives the record back. */
  lemma DecodeEncode(r: Record, rest: seq<byte>)
    requires Decodable(r)
    ensures DecodePre(Encode(r) + rest) && Decode(Encode(r) + rest) == Ok(r)
  {
    var w := Encode(r) + rest;
    assert w[..r.Size()] == Encode(r);
    EncodeLayout(r, w);
    var n := r.impl.value;
    var p := n.Size();
    assert w[..p] == n.DoWrite();
    DecodeNameOfWrite(n, w);
  }

  /** Every record decoded from a buffer is one its own encoding decodes to. */
  lemma DecodedDecodable(b: seq<byte>)
    requires DecodePre(b) && Decode(b).Ok?
    ensures Decodable(Decode(b).value)
  {
    DecodedFields(b);
    if IsPointer(b[0]) {
      PointerName(b);
    } else {
      LiteralName(b, ScanName(b, 0));
    }
  }

  /** Decoding, encoding and decoding again, whatever follows the encoding,
      gives the first decoding back, also when the first byte has only one
      top bit set and the bytes themselves do not come back. */
  lemma DecodeEncodeDecode(b: seq<byte>, rest: seq<byte>)
    requires DecodePre(b) && Decode(b).Ok?
    ensures DecodePre(Encode(Decode(b).value) + rest)
    ensures Decode(Encode(Decode(b).value) + rest) == Decode(b)
  {
    DecodedDecodable(b);
    DecodeEncode(Decode(b).value, rest);
  }

  /** A record whose info block, length field and data sit verbatim in `b`
      after position `p` encodes as its name followed by those bytes. */
  lemma EncodeOfFields(r: Record, b: seq<byte>)
    requires r.impl.Some?
    requires var p := r.ImplSize(); var q := p + INFO_SIZE;
      q + 2 + |r.data| <= |b|
      && r.info == b[p..q]
      && |r.data| == BeUint16(b[q], b[q + 1])
      && r.data == b[q + 2..q + 2 + |r.data|]
    ensures Encode(r) == r.impl.value.DoWrite() + b[r.ImplSize()..r.Size()]
  {
    var p := r.ImplSize();
    var q := p + INFO_SIZE;
    var s := r.Size();
    var nm, info, len, data := r.impl.value.DoWrite(), b[p..q], b[q..q + 2], b[q + 2..s];
    BytesOfBeUint16(b[q], b[q + 1]);
    assert Encode(r) == nm + info + len + data;
    SplitSlice(b, p, q, s);
    SplitSlice(b, q, q + 2, s);
    Concat4(nm, info, len, data);
  }

  /** A decoded record re-encodes as its name's bytes followed by the rest of
      its `size()` bytes of the buffer verbatim. */
  lemma EncodeDecodedRecord(b: seq<byte>)
    requires DecodePre(b) && Decode(b).Ok?
    ensures var r := Decode(b).value;
      Encode(r) == r.impl.value.DoWrite() + b[r.ImplSize()..r.Size()]
  {
    DecodedFields(b);
    EncodeOfFields(Decode(b).value, b);
  }

  /** The bytes a decoded name writes: the pointer with both top bits forced,
      or the literal bytes and the zero that ended them. */
  lemma DecodedNameWrite(b: seq<byte>)
    requires DecodePre(b) && Decode(b).Ok?
    ensures var n := Decode(b).value.impl.value;
      n.DoWrite() == if IsPointer(b[0]) then [SetTopBits(b[0]), b[1]] else b[..n.Size()]
  {
    if IsPointer(b[0]) {
      PointerName(b);
    } else {
      var k := ScanName(b, 0);
      LiteralName(b, k);
      assert b[..k] + [0] == b[..k + 1];
    }
  }

  /** Byte identity: re-encoding a decoded record reproduces the first
      `size()` bytes of the buffer, provided its first byte is a literal byte
      or has both top bits set. */
  lemma EncodeDecode(b: seq<byte>)
    requires DecodePre(b) && Decode(b).Ok?
    requires !IsPointer(b[0]) || TopBits(b[0]) == 3
    ensures Encode(Decode(b).value) == b[..Decode(b).value.Size()]
  {
    var r := Decode(b).value;
    var p := r.ImplSize();
    EncodeDecodedRecord(b);
    DecodedNameWrite(b);
    assert r.impl.value.DoWrite() == b[..p];
    assert b[..r.Size()] == b[..p] + b[p..r.Size()];
  }

  /** With only one top bit set the first byte comes back with both: the
      record still decodes, but its encoding differs from the input in that
      byte and nowhere else. */
  lemma PointerBitsForced(b: seq<byte>)
    requires DecodePre(b) && Decode(b).Ok? && IsPointer(b[0])
    ensures var w := Encode(Decode(b).value);
      w[0] == SetTopBits(b[0]) && w[1..] == b[1..Decode(b).value.Size()]
      && (w[0] == b[0] <==> TopBits(b[0]) == 3)
  {
    var r := Decode(b).value;
    EncodeDecodedRecord(b);
    DecodedNameWrite(b);
    var w := Encode(r);
    var s := r.Size();
    assert r.impl.value.DoWrite() == [SetTopBits(b[0]), b[1]];
    assert w == [SetTopBits(b[0]), b[1]] + b[2..s];
    forall i | 1 <= i < s
      ensures w[i] == b[i]
    {
      if i >= 2 {
        assert w[i] == b[2..s][i - 2];
      }
    }
    assert w[1..] == b[1..s];
  }

  /** For any buffer whose name decodes, the first field that does not fit
      decides the error: the info block, then the length field, then the
      `rdlength` data bytes, before the data-length rule is looked at. */
  lemma StagedTruncation(b: seq<byte>)
    requires DecodePre(b) && DecodeName(b).Ok?
    ensures var p := DecodeName(b).value.1;
      (p + INFO_SIZE > |b| ==> Decode(b) == Err(TruncatedInfo))
      && (p + INFO_SIZE <= |b| < p + INFO_SIZE + 2 ==> Decode(b) == Err(TruncatedDataSize))
      && (p + INFO_SIZE + 2 <= |b|
          && p + INFO_SIZE + 2 + BeUint16(b[p + INFO_SIZE], b[p + INFO_SIZE + 1]) > |b|
          ==> Decode(b) == Err(TruncatedData))
  {
  }

  /** Every proper prefix of an encoding fails at the stage where its bytes
      run out, and never yields a record. */
  lemma TruncatedEncoding(r: Record, k: nat)
    requires Decodable(r) && k < r.Size()
    requires 1 <= k && (r.impl.value.Offseted? ==> 2 <= k)
    ensures DecodePre(Encode(r)[..k])
    ensures var p := r.ImplSize();
      var e := Decode(Encode(r)[..k]);
      e.Err? && e.error ==
        if k < p then TruncatedName
        else if k < p + INFO_SIZE then TruncatedInfo
        else if k < p + INFO_SIZE + 2 then TruncatedDataSize
        else TruncatedData
  {
    var full := Encode(r);
    var w := full[..k];
    var n := r.impl.value;
    var p := n.Size();
    EncodeLayout(r, full);
    assert full[..r.Size()] == full;
    if k < p {
      assert n.Named?;
      assert forall j :: 0 <= j < |w| ==> w[j] == n.name[j];
      assert w[0] == n.name[0];
      MissingTerminator(w);
    } else {
      assert w[..p] == full[..p];
      DecodeNameOfWrite(n, w);
      if k >= p + INFO_SIZE + 2 {
        assert w[p + INFO_SIZE] == full[p + INFO_SIZE];
        assert w[p + INFO_SIZE + 1] == full[p + INFO_SIZE + 1];
      }
    }
  }

  // ---------------------------------------------------------------------
  // Accessors on decoded records

  /** A decoded record has a name; it is a literal exactly when the first byte
      is not a pointer, and then `dname()` and `matches` see the bytes before
      the first zero; a pointer yields its forced-bit bytes from `offset()`. */
  lemma DecodedAccessors(b: seq<byte>, s: seq<byte>)
    requires DecodePre(b) && Decode(b).Ok?
    ensures var r := Decode(b).value;
      r.HasDomainName() == Ok(!IsPointer(b[0]))
      && (IsPointer(b[0]) ==> r.Offset() == Ok((SetTopBits(b[0]), b[1])) && !r.Matches(s))
      && (!IsPointer(b[0]) ==>
            r.Dname() == Ok(b[..ScanName(b, 0)]) && (r.Matches(s) <==> s == b[..ScanName(b, 0)]))
  {
    if IsPointer(b[0]) {
      PointerName(b);
    } else {
      LiteralName(b, ScanName(b, 0));
    }
  }

  // ---------------------------------------------------------------------
  // Two records worked through

  /** Owner name "example" as the single label 7 "example", type A, class IN,
      TTL 300, data 192.0.2.1: 9 + 8 + 2 + 4 = 23 bytes. */
  lemma LiteralExample()
    ensures var name: seq<byte> := [7, 0x65, 0x78, 0x61, 0x6D, 0x70, 0x6C, 0x65];
      var info: seq<byte> := [0, 1, 0, 1, 0, 0, 1, 0x2C];
      var b := name + [0] + info + [0, 4] + [192, 0, 2, 1];
      DecodePre(b)
      && Decode(b) == Ok(Record(Some(Named(name)), info, [192, 0, 2, 1]))
      && Decode(b).value.Matches(name)
      && !Decode(b).value.Matches([0x6F, 0x74, 0x68, 0x65, 0x72])
      && Decode(b).value.Size() == 23
  {
    var name: seq<byte> := [7, 0x65, 0x78, 0x61, 0x6D, 0x70, 0x6C, 0x65];
    var info: seq<byte> := [0, 1, 0, 1, 0, 0, 1, 0x2C];
    var b := name + [0] + info + [0, 4] + [192, 0, 2, 1];
    assert b[..8] == name;
    LiteralName(b, 8);
    assert b[9..17] == info;
    assert BeUint16(b[17], b[18]) == 4;
    assert b[19..23] == [192, 0, 2, 1];
  }

  /** Without the label length the first byte 'e' (0x65) has bit 0x40 set, so
      the same bytes are read as a pointer and not as the name "example". */
  lemma UnlabelledName(rest: seq<byte>)
    ensures var b := [0x65, 0x78] + rest;
      DecodePre(b) && DecodeName(b) == Ok((Offseted(0xE5, 0x78), 2))
  {
    var b := [0x65, 0x78] + rest;
    PointerName(b);
  }

  /** Pointer 0xC0 0x0C (offset 12), type CNAME, class IN, TTL 60, two data
      bytes: a pointer name, no domain name, and the same two first bytes on
      re-encoding. */
  lemma PointerExample(x: byte, y: byte)
    ensures var info: seq<byte> := [0, 5, 0, 1, 0, 0, 0, 60];
      var b := [0xC0, 0x0C] + info + [0, 2] + [x, y];
      DecodePre(b)
      && Decode(b) == Ok(Record(Some(Offseted(0xC0, 0x0C)), info, [x, y]))
      && Decode(b).value.HasDomainName() == Ok(false)
      && Encode(Decode(b).value) == b
  {
    var info: seq<byte> := [0, 5, 0, 1, 0, 0, 0, 60];
    var b := [0xC0, 0x0C] + info + [0, 2] + [x, y];
    PointerName(b);
    assert b[2..10] == info;
    assert BeUint16(b[10], b[11]) == 2;
    assert b[12..14] == [x, y];
    EncodeDecode(b);
    assert b[..14] == b;
  }

  /** The same record with first byte 0x40, which has only one top bit, decodes
      to the same record and so comes back with 0xC0. */
  lemma OneBitPointerExample(x: byte, y: byte)
    ensures var info: seq<byte> := [0, 5, 0, 1, 0, 0, 0, 60];
      var b := [0xC0, 0x0C] + info + [0, 2] + [x, y];
      var b40 := [0x40, 0x0C] + info + [0, 2] + [x, y];
      DecodePre(b40) && Decode(b40) == Decode(b) && Encode(Decode(b40).value) == b
  {
    var info: seq<byte> := [0, 5, 0, 1, 0, 0, 0, 60];
    var b := [0xC0, 0x0C] + info + [0, 2] + [x, y];
    var b40 := [0x40, 0x0C] + info + [0, 2] + [x, y];
    PointerExample(x, y);
    PointerName(b40);
    assert b40[2..10] == info;
    assert BeUint16(b40[10], b40[11]) == 2;
    assert b40[12..14] == [x, y];
  }
}
