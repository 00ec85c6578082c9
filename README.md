# DNS resource record codec

A Dafny model of the DNS resource-record codec of libtins
(`src/dns_record.cpp`). A `DNSResourceRecord` is parsed from a byte buffer and
written back in the layout of section 4.1.3 of RFC 1035:

    [owner name][info block: type, class, TTL][16-bit big-endian rdlength][rdata]

The owner name is either a two-byte compression pointer (section 4.1.4 of
RFC 1035; `OffsetedDNSRRImpl`) or literal bytes ended by a zero byte
(`NamedDNSRRImpl`). The record owns at most one such representation (`impl`
may be null).

Files and modules:

- `wrappers.dfy` (`Wrappers`): `Option`, for a pointer that may be null, and
  `Result`, for a value or the exception that aborted the computation.
- `bytes.dfy` (`Bytes`): bytes as their unsigned values, the masks the codec
  applies (`& 0xc0`, `& 0x3f`, `| 0xc0`), and the big-endian 16-bit
  conversions.
- `dns_record.dfy` (`DnsRecord`): the value level. `contains_dname`, the two
  name representations as the datatype `NameImpl`, the record value `Record`
  with the pure accessors of `DNSResourceRecord`, and the decoder (`Decode`)
  and encoder (`Encode`) as functions.
- `dns_record_properties.dfy` (`DnsRecordProperties`): what the source
  promises about those functions. This covers the type codes, name
  classification, staged failures, the data-length rule, size agreement, both
  round trips, truncation, and worked examples.
- `dns_record_object.dfy` (`DnsRecordObject`): the imperative parts. The
  buffer constructor walks a cursor over the input, scans the name with a
  loop, sizes `data` and fills it (`ReadName`, `ReadFields`, `ParseRecord`,
  each proved equal to its decoding function). The class `ResourceRecord`
  holds the fields `impl`, `info` and `data`, with the impl+data constructor,
  the buffer constructor, the copy constructor, `operator=` (`Assign`) and
  `write` into a caller's array.

The info block is kept as its 8 raw wire bytes (`sizeof(info_)`: type 2,
class 2, TTL 4), because it is copied verbatim. Its type is read big-endian
from its first two bytes, as `contains_dname` does. The pointer is kept as
the two bytes of `offset_` in memory order: `[b0 | 0xC0, b1]` for wire bytes
`b0`, `b1`. This assumes a little-endian host, where `off | 0xc0` reaches the
first byte.

Where the code departs from RFC 1035, the model follows the code:

- The pointer test is `*buffer & 0xc0` being non-zero. That is EITHER top
  bit, not both. A first byte `0x40` or `0x80` is therefore read as a
  pointer and written back as `0xC0 | …`. `PointerBitsForced` and
  `OneBitPointerExample` show this. Byte identity (`EncodeDecode`) holds when
  the first byte is below `0x40` or has both top bits set.
- A literal name is whatever bytes come before the first zero. In DNS these
  are length-prefixed labels, so the first byte is a label length below 64.
  Raw text would not work: `"example"` starts with `'e'` (0x65), which has
  bit 0x40 set and is taken for a pointer (`UnlabelledName`). The worked
  example `LiteralExample` therefore uses the label form `7 "example"`, which
  gives a 23-byte record.
- A length other than 4 for a type with no domain name throws the same text
  as truncated data. The model gives it its own error value,
  `InvalidDataLength`. `Message` gives the exact texts, and
  `MessagesDistinct` shows which of them coincide.
- The decoder returns no count of consumed bytes. That count is `size()`.

## Model

| member | source | states |
|---|---|---|
| `Bytes.TopBits` | src/dns_record.cpp:45 | the two top bits of a byte are a number below 4 that, with the six low bits, make up the byte |
| `Bytes.LowBits` | src/dns_record.cpp:47 | the low six bits of a byte, the part of the first pointer byte that `& 0x3fff` keeps, are below 64 |
| `Bytes.SetTopBits` | src/dns_record.cpp:148 | `b \| 0xc0` has both top bits set and the same low bits, and equals `b` exactly when both top bits were already set |
| `Bytes.BeUint16` | src/dns_record.cpp:70 | a big-endian 16-bit field read from two bytes is below 65536 |
| `Bytes.BeBytes16` | src/dns_record.cpp:107 | the two bytes written for a 16-bit value read back as that value |
| `Bytes.BytesOfBeUint16` | src/dns_record.cpp:70 | writing back a value read from two bytes gives the same two bytes |
| `DnsRecord.ContainsDname` | src/dns_record.cpp:29-33 | `contains_dname` holds exactly when the type's high wire byte is 0 and its low byte is 2, 5, 12 or 15 |
| `DnsRecordProperties.ContainsDnameCodes` | src/dns_record.cpp:29-33 | among all 16-bit type codes, `contains_dname` holds exactly for 2, 5, 12 and 15 |
| `DnsRecord.Message` | src/dns_record.cpp:56 | every failure of the buffer constructor throws a text that begins "Not enough size for " (the texts are at 56, 62, 66, 74 and 80) |
| `DnsRecordProperties.MessagesDistinct` | src/dns_record.cpp:52-80 | two failure stages throw the same text exactly when they are the same stage, or are truncated data and a bad data length |
| `DnsRecord.NameImpl.DoWrite` | src/dns_record.cpp:153-156 | a pointer's `do_write` emits its two bytes; a literal's emits the name and then one terminating zero (the literal case is at 182-185) |
| `DnsRecord.NameImpl.Size` | src/dns_record.cpp:158-160 | an impl's `size()` is the number of bytes its `do_write` emits: 2 for a pointer, the name plus its zero for a literal (the literal `size()` is at 178-180) |
| `DnsRecord.NameImpl.Matches` | src/dns_record.cpp:191-193 | an impl matches a name exactly when it is the literal of that name; a pointer never matches |
| `DnsRecord.NewOffseted` | src/dns_record.cpp:147-151 | the stored `offset_` has both top bits set, keeps the low six bits of the first byte and keeps the second byte |
| `DnsRecord.Record.ImplSize` | src/dns_record.cpp:133-135 | `impl_size()` is the number of bytes the name writes, and 0 without a name |
| `DnsRecord.Record.Size` | src/dns_record.cpp:137-139 | `size()` counts each part `write` emits: the name's bytes, the 8-byte info block, the 2-byte length field and the data |
| `DnsRecord.Record.CloneImpl` | src/dns_record.cpp:113-115 | `clone_impl()` is absent exactly when `impl` is, and writes and matches exactly as the original |
| `DnsRecord.Record.Matches` | src/dns_record.cpp:141-143 | `matches(s)` holds exactly when the name is the literal `s`; false for a pointer and without a name |
| `DnsRecord.Record.HasDomainName` | src/dns_record.cpp:117-121 | `has_domain_name()` throws `bad_cast` exactly when there is no name, and otherwise holds exactly when some literal matches |
| `DnsRecord.Record.Dname` | src/dns_record.cpp:123-127 | `dname()` succeeds exactly when the name is a literal, and then the record matches the name it returns |
| `DnsRecord.Record.Offset` | src/dns_record.cpp:129-131 | `offset()` succeeds exactly when the name is a pointer, and returns the two bytes that name writes, compression bits included |
| `DnsRecord.ScanName` | src/dns_record.cpp:52-54 | the scan stops at the first zero byte, or at the end of the buffer when there is none |
| `DnsRecord.DecodeName` | src/dns_record.cpp:44-60 | a decoded name ends where its wire size says and within the buffer; the only failure is a truncated name |
| `DnsRecord.DecodeFields` | src/dns_record.cpp:61-80 | after the name, a decoded record keeps that name and needs no more bytes than the buffer has |
| `DnsRecord.Decode` | src/dns_record.cpp:42-81 | a decoded record always has a name, and its `size()` never exceeds the buffer |
| `DnsRecord.Encode` | src/dns_record.cpp:102-111 | `write` emits exactly `size()` bytes |
| `DnsRecord.IsPointer` | src/dns_record.cpp:45 | `*buffer & 0xc0` is non-zero exactly when the first byte is at least 0x40, that is when either top bit is set |
| `DnsRecord.PointerImpl` | src/dns_record.cpp:46-48 | the pointer branch stores the first byte with both top bits forced on, then the second byte, and keeps the 14-bit offset |
| `DnsRecordProperties.PointerName` | src/dns_record.cpp:45-50 | a first byte with either top bit set decodes as a 2-byte pointer with both bits forced |
| `DnsRecordProperties.LiteralName` | src/dns_record.cpp:51-60 | otherwise the name is the bytes before the first zero, and the zero is consumed |
| `DnsRecordProperties.MissingTerminator` | src/dns_record.cpp:52-56 | a literal name fails with a truncated name, and no record, exactly when no zero byte remains |
| `DnsRecordProperties.DecodedFields` | src/dns_record.cpp:61-80 | a decoded record's info block, length and data are the buffer's bytes after the name, verbatim; its length is 4 unless its type carries a domain name |
| `DnsRecordProperties.DataLengthRule` | src/dns_record.cpp:69-80 | when every field fits, decoding succeeds exactly when the type carries a domain name or the length is 4, and otherwise fails with a bad data length |
| `DnsRecordProperties.EncodeLayout` | src/dns_record.cpp:102-111 | the encoding holds the name, then the info block, then the big-endian data size, then the data |
| `DnsRecordProperties.DecodeNameOfWrite` | src/dns_record.cpp:45-60 | the bytes a canonical name writes decode back to that name, whatever follows them |
| `DnsRecordProperties.DecodeEncode` | src/dns_record.cpp:42-111 | decoding what `write` emits, with any bytes after it, gives back any record that has a canonical name and obeys the data-length rule |
| `DnsRecordProperties.DecodedDecodable` | src/dns_record.cpp:42-81 | every decoded record has a canonical name and obeys the data-length rule, so `DecodeEncode` applies to it |
| `DnsRecordProperties.DecodeEncodeDecode` | src/dns_record.cpp:42-111 | decoding what `write` emits for a decoded record, with any bytes after it, gives that record back, whatever the first byte was |
| `DnsRecordProperties.EncodeOfFields` | src/dns_record.cpp:102-111 | a record whose fields sit verbatim in a buffer after its name encodes as its name followed by those bytes |
| `DnsRecordProperties.EncodeDecodedRecord` | src/dns_record.cpp:61-111 | a decoded record re-encodes as its name followed by the rest of its `size()` buffer bytes, verbatim |
| `DnsRecordProperties.DecodedNameWrite` | src/dns_record.cpp:45-60 | a decoded name writes its pointer with both bits forced, or the literal bytes and their zero as they were in the buffer |
| `DnsRecordProperties.EncodeDecode` | src/dns_record.cpp:42-111 | a decoded record whose first byte is below 0x40 or has both top bits set re-encodes to exactly the first `size()` bytes of the buffer |
| `DnsRecordProperties.PointerBitsForced` | src/dns_record.cpp:45-49 | a re-encoded pointer record differs from its buffer only in the first byte, which has both top bits set, and equals it exactly when both were already set |
| `DnsRecordProperties.StagedTruncation` | src/dns_record.cpp:61-74 | for any buffer whose name decodes, a missing info block, length field or data fails with that stage's error, before the data-length rule is checked |
| `DnsRecordProperties.TruncatedEncoding` | src/dns_record.cpp:52-74 | every proper prefix of at least one byte (two for a pointer) of a canonical encoding fails at the stage where it runs out: name, info, length field or data |
| `DnsRecordProperties.DecodedAccessors` | src/dns_record.cpp:117-131 | a decoded record has a literal name exactly when its first byte is not a pointer; its `dname()` and `matches` see the bytes before the first zero, and its `offset()` gives the forced-bit pointer bytes |
| `DnsRecordProperties.LiteralExample` | src/dns_record.cpp:42-81 | the record `7 "example"`, type A, class IN, TTL 300, data 192.0.2.1 decodes to that literal name, info block and data, matches its own name bytes but not "other", and has size 23 |
| `DnsRecordProperties.UnlabelledName` | src/dns_record.cpp:45-48 | bytes starting with 'e' 'x' are read as the pointer 0xE5 0x78 |
| `DnsRecordProperties.PointerExample` | src/dns_record.cpp:42-111 | the CNAME record with pointer 0xC0 0x0C decodes to that pointer and its two data bytes, has no domain name, and re-encodes to the same bytes |
| `DnsRecordProperties.OneBitPointerExample` | src/dns_record.cpp:45-48 | the same record with first byte 0x40 decodes to the same record, and so re-encodes with 0xC0 |
| `DnsRecordObject.ReadName` | src/dns_record.cpp:44-60 | the name part of the buffer constructor, with its cursor and scanning loop, computes `DecodeName` |
| `DnsRecordObject.ReadFields` | src/dns_record.cpp:61-80 | the field part, which sizes `data` before the last check and fills it after, computes `DecodeFields` |
| `DnsRecordObject.ParseRecord` | src/dns_record.cpp:42-81 | the whole buffer constructor computes `Decode` |
| `DnsRecordObject.PutBytes` | src/dns_record.cpp:105 | the copy into the output puts `src` at the cursor and leaves the rest of the buffer as it was |
| `DnsRecordObject.ResourceRecord.constructor` | src/dns_record.cpp:35-40 | the impl+data constructor takes the name over and copies `len` bytes of `d` when `d` is non-null and `len` non-zero, else no data; the info block is unspecified |
| `DnsRecordObject.ResourceRecord.FromBuffer` | src/dns_record.cpp:42-81 | the buffer constructor yields a new record equal to the decoding, or throws the decoding's error and makes no record |
| `DnsRecordObject.ResourceRecord.Copy` | src/dns_record.cpp:83-87 | a copy-constructed record has the same name, info block and data as its source |
| `DnsRecordObject.ResourceRecord.Assign` | src/dns_record.cpp:89-96 | after assignment the record equals the source as it was before, and the source is unchanged |
| `DnsRecordObject.ResourceRecord.Write` | src/dns_record.cpp:102-111 | `write` puts the encoding at the cursor, returns `size()`, and touches no other byte |
| `DnsRecordObject.CopyThenAssign` | src/dns_record.cpp:83-96 | copy-constructing from `src` and then assigning `other` gives a fresh record equal to `other`; `src` keeps its value, which follows from `Assign`'s `modifies this` on the fresh copy rather than from the copied value |

## Left out

- `tests/src/ipv6.cpp` and the components it exercises: the IPv6 header, its
  extension-header chain, TCP, raw payloads and PDU chain lookup. Their code
  is not part of this model, and modelling them from the test's assertions
  would mean inventing it. IPv6 address text parsing and printing are an
  external utility.
- Ownership mechanics. The model has no raw `new`/`delete`, no virtual
  `clone` and no destructor. Name representations are values, so a copy is
  independent by construction. `Assign` does not model the self-assignment
  hazard, where `operator=` deletes `impl` before cloning it. Here
  self-assignment leaves the record as it was.
- The names allocated before a later check throws are not modelled, so neither
  is their leak: there are no heap objects for names.
- Undefined behaviour becomes preconditions. `DecodePre` says the buffer has at
  least one byte, and two when the first marks a pointer. `Offset` requires a
  name, because `offset()` dereferences `impl` unchecked. `Write` requires room
  in the output buffer, which the source never checks. The `ResourceRecord`
  constructor requires `len` bytes to be present in `d`, because
  `data.assign(d, d + len)` reads them unchecked. `NameImpl.DoWrite` emits
  the name followed by a zero. The source gets that zero by copying up to
  `name.end() + 1`, relying on the string's terminator.
- DnsRecord.Record.Offset: returns the two stored bytes of `offset_`, not a
  host-order integer, and does not claim the plain 14-bit offset.
- DnsRecordObject.ResourceRecord.Write: the `uint32_t` result of `write`
  and `size()` is an unbounded count. It would only wrap for names over 4 GiB.
- The layout of `info_` lives in `dns_record.h`, which is not part of this
  model. The block is treated as 8 opaque bytes, with the type in its first
  two. Its value after the impl+data constructor is left unspecified.
- `dns_record.h` is not part of this model. It holds `OffsetedDNSRRImpl::matches`
  and the `NamedDNSRRImpl(begin, end)` constructor. `endianness.h`, which holds
  `Endian::be_to_host` and `host_to_be`, is not part of this model either.
  Assumed: `OffsetedDNSRRImpl::matches` is always false,
  `NamedDNSRRImpl(begin, end)` stores the bytes in [begin, end), and the
  conversions are big-endian.
- Domain-name decompression and pointer resolution: the source does neither,
  and dname rdata is copied opaquely.
- A little-endian host is assumed for `off | 0xc0` reaching the first
  stored byte.
