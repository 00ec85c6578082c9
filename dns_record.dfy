/** The value level of a DNS resource record (RFC 1035, section 4.1.3): the
    owner-name representation, the record as a value, and the decoder and
    encoder of its wire form as functions. */
module DnsRecord {
  import opened Wrappers
  import opened Bytes

  /** `sizeof(info_)`: type (2 bytes), class (2 bytes) and TTL (4 bytes). */
  const INFO_SIZE: nat := 8

  /** The info block, kept as the raw wire bytes that are copied verbatim. */
  type InfoBlock = s: seq<byte> | |s| == INFO_SIZE witness [0, 0, 0, 0, 0, 0, 0, 0]

  /** Record data; its size is always a 16-bit value. */
  type RData = s: seq<byte> | |s| < 0x1_0000

  /** The type codes whose data holds a domain name: NS (2), CNAME (5),
      PTR (12) and MX (15). `t0`, `t1` are the wire bytes of the type field. */
  function ContainsDname(t0: byte, t1: byte): (b: bool)
    ensures b <==> t0 == 0 && (t1 == 2 || t1 == 5 || t1 == 12 || t1 == 15)
  {
    var t := BeUint16(t0, t1);
    t == 15 || t == 5 || t == 12 || t == 2
  }

  /** The owner name: a compression pointer (`OffsetedDNSRRImpl`), whose
      `offset_` field is kept as its two bytes in memory order, or a literal
      name (`NamedDNSRRImpl`) without its terminating zero. */
  datatype NameImpl = Offseted(hi: byte, lo: byte) | Named(name: seq<byte>)
  {
    /** The bytes `do_write` emits: the two pointer bytes, or the name
        followed by its terminating zero. */
    function DoWrite(): (w: seq<byte>)
      ensures Offseted? ==> |w| == 2
      ensures Named? ==> |w| == |name| + 1 && w[..|name|] == name && w[|name|] == 0
    {
      match this
      case Offseted(hi, lo) => [hi, lo]
      case Named(name) => name + [0]
    }

    /** `size()`: the number of bytes `do_write` emits. */
    function Size(): (n: nat)
      ensures n == |DoWrite()|
    {
      match this
      case Offseted(_, _) => 2
      case Named(name) => |name| + 1
    }

    /** `matches(dname)`: only a literal name equal to `dname` matches. */
    function Matches(dname: seq<byte>): (b: bool)
      ensures b <==> this == Named(dname)
    {
      match this
      case Offseted(_, _) => false
      case Named(name) => dname == name
    }
  }

  /** `OffsetedDNSRRImpl(off)`: `off` is a 16-bit value whose memory bytes are
      `m0`, `m1`; on a little-endian host `off | 0xc0` sets the compression
      bits in the first of them. */
  function NewOffseted(m0: byte, m1: byte): (n: NameImpl)
    ensures n.Offseted? && n.lo == m1
    ensures TopBits(n.hi) == 3 && LowBits(n.hi) == LowBits(m0)
  {
    Offseted(SetTopBits(m0), m1)
  }

  /** The stages at which decoding a record fails. */
  datatype DecodeError =
    | TruncatedName
    | TruncatedInfo
    | TruncatedDataSize
    | TruncatedData
    | InvalidDataLength

  /** The text of the exception each stage throws; a bad data length for a
      type without a domain name reuses the text of truncated data. */
  function Message(e: DecodeError): (m: string)
    ensures "Not enough size for " < m
  {
    match e
    case TruncatedName => "Not enough size for a resource domain name."
    case TruncatedInfo => "Not enough size for a resource info."
    case TruncatedDataSize => "Not enough size for resource data size."
    case TruncatedData => "Not enough size for resource data"
    case InvalidDataLength => "Not enough size for resource data"
  }

  /** A name accessor applied to the wrong representation (`std::bad_cast`). */
  datatype AccessError = BadCast

  /** The value of a `DNSResourceRecord`: its owned name representation
      (absent when `impl` is null), its info block and its data. */
  datatype Record = Record(impl: Option<NameImpl>, info: InfoBlock, data: RData)
  {
    /** `impl_size()`: the name's wire size, 0 when there is no name. */
    function ImplSize(): (n: nat)
      ensures n == if impl.Some? then |impl.value.DoWrite()| else 0
    {
      if impl.Some? then impl.value.Size() else 0
    }

    /** `size()`: the record's wire size, one term per part `write` emits. */
    function Size(): (n: nat)
      ensures n == ImplSize() + |info| + |BeBytes16(|data|)| + |data|
    {
      INFO_SIZE + |data| + 2 + ImplSize()
    }

    /** `clone_impl()`: a copy of the name representation, absent when absent. */
    function CloneImpl(): (c: Option<NameImpl>)
      ensures c.Some? <==> impl.Some?
      ensures c.Some? ==> c.value.DoWrite() == impl.value.DoWrite()
      ensures forall s :: c.Some? && c.value.Matches(s) <==> impl.Some? && impl.value.Matches(s)
    {
      impl
    }

    /** `matches(dname)`: false without a name. */
    function Matches(dname: seq<byte>): (b: bool)
      ensures b <==> impl == Some(Named(dname))
    {
      if impl.Some? then impl.value.Matches(dname) else false
    }

    /** `has_domain_name()`: whether the name is a literal; a missing name
        throws `bad_cast`. */
    function HasDomainName(): (r: Result<bool, AccessError>)
      ensures r.Err? <==> impl.None?
      ensures r.Ok? ==> (r.value <==> exists s :: Matches(s))
    {
      if impl.None? then Err(BadCast)
      else
        assert impl.value.Named? ==> Matches(impl.value.name);
        Ok(impl.value.Named?)
    }

    /** `dname()`: the literal name; a missing name or a pointer throws `bad_cast`. */
    function Dname(): (r: Result<seq<byte>, AccessError>)
      ensures r.Ok? <==> exists s :: Matches(s)
      ensures r.Ok? ==> Matches(r.value)
    {
      if impl.None? then Err(BadCast)
      else
        match impl.value
        case Named(name) => assert Matches(name); Ok(name)
        case Offseted(_, _) => Err(BadCast)
    }

    /** `offset()`: the stored `offset_` bytes of a pointer, compression bits
        included; a literal name throws `bad_cast`. A missing name is
        dereferenced without a check, so it is excluded. */
    function Offset(): (r: Result<(byte, byte), AccessError>)
      requires impl.Some?
      ensures r.Ok? <==> !HasDomainName().value
      ensures r.Ok? ==> impl.value.DoWrite() == [r.value.0, r.value.1]
    {
      match impl.value
      case Offseted(hi, lo) => Ok((hi, lo))
      case Named(_) => Err(BadCast)
    }
  }

  /** The source reads the first byte unchecked, and two bytes once that byte
      marks a pointer. */
  predicate DecodePre(b: seq<byte>)
  {
    |b| >= 1 && (IsPointer(b[0]) ==> |b| >= 2)
  }

  /** `*buffer & 0xc0`: EITHER of the top two bits marks a pointer. */
  function IsPointer(first: byte): (p: bool)
    ensures p <==> first >= 0x40
  {
    TopBits(first) != 0
  }

  /** The first zero byte at or after `i`, or `|b|` when there is none. */
  function ScanName(b: seq<byte>, i: nat): (e: nat)
    requires i <= |b|
    ensures i <= e <= |b|
    ensures forall j :: i <= j < e ==> b[j] != 0
    ensures e < |b| ==> b[e] == 0
    decreases |b| - i
  {
    if i == |b| || b[i] == 0 then i else ScanName(b, i + 1)
  }

  /** The pointer branch: `be_to_host` of the two bytes masked to 14 bits (`& 0x3fff`),
      converted back with `host_to_be` and handed to `OffsetedDNSRRImpl`. */
  function PointerImpl(b0: byte, b1: byte): (n: NameImpl)
    ensures n == Offseted(SetTopBits(b0), b1)
    ensures BeUint16(n.hi, n.lo) % 0x4000 == BeUint16(b0, b1) % 0x4000
  {
    var offset := BeUint16(b0, b1) % 0x4000;
    assert offset == LowBits(b0) * 256 + b1;
    assert offset / 256 == LowBits(b0) && offset % 256 == b1;
    var m := BeBytes16(offset);
    NewOffseted(m[0], m[1])
  }

  /** The owner name and the position just after it. */
  function DecodeName(b: seq<byte>): (r: Result<(NameImpl, nat), DecodeError>)
    requires DecodePre(b)
    ensures r.Ok? ==> r.value.0.Size() == r.value.1 <= |b|
    ensures r.Err? ==> r.error == TruncatedName
  {
    if IsPointer(b[0]) then Ok((PointerImpl(b[0], b[1]), 2))
    else
      var strEnd := ScanName(b, 0);
      if strEnd == |b| then Err(TruncatedName)
      else Ok((Named(b[..strEnd]), strEnd + 1))
  }

  /** What the buffer constructor computes: the record at the start of `b`,
      or the stage that failed. A decoded record never claims more bytes than `b` has. */
  function Decode(b: seq<byte>): (r: Result<Record, DecodeError>)
    requires DecodePre(b)
    ensures r.Ok? ==> r.value.impl.Some? && r.value.Size() <= |b|
  {
    match DecodeName(b)
    case Err(e) => Err(e)
    case Ok((impl, p)) => DecodeFields(b, impl, p)
  }

  /** The rest of the record once the name `impl` has ended at position `p`:
      the info block, the length field and the data, with the data-length
      rule for types that carry no domain name. */
  function DecodeFields(b: seq<byte>, impl: NameImpl, p: nat): (r: Result<Record, DecodeError>)
    requires impl.Size() == p <= |b|
    ensures r.Ok? ==> r.value.impl == Some(impl) && r.value.Size() <= |b|
  {
    if p + INFO_SIZE > |b| then Err(TruncatedInfo)
    else
      var info: InfoBlock := b[p..p + INFO_SIZE];
      var q := p + INFO_SIZE;
      if q + 2 > |b| then Err(TruncatedDataSize)
      else
        var len := BeUint16(b[q], b[q + 1]);
        var d := q + 2;
        if d + len > |b| then Err(TruncatedData)
        else if ContainsDname(info[0], info[1]) || len == 4 then
          Ok(Record(Some(impl), info, b[d..d + len]))
        else Err(InvalidDataLength)
  }

  /** The bytes `write` emits: the name, the info block, the big-endian data
      size and the data. Their number is `size()`. */
  function Encode(r: Record): (w: seq<byte>)
    ensures |w| == r.Size()
  {
    (if r.impl.Some? then r.impl.value.DoWrite() else [])
      + r.info + BeBytes16(|r.data|) + r.data
  }
}
