/** Which codec a serialization type names, and every outcome of decoding, told from the bytes alone. */
module WireCodecs {
  import opened Types
  import opened Wire
  import opened WireStream

  /** The serialization type names a registered codec: type 1 the JSON one, type 2 the Protobuf one. */
  predicate Supported<M>(cs: Codecs<M>, t: byte) {
    (t == 1 && cs.json.Some?) || (t == 2 && cs.protobuf.Some?)
  }

  /** What the named codec makes of the metadata. */
  function EncodedBy<M>(cs: Codecs<M>, t: byte, x: M): Option<bytes>
    requires Supported(cs, t)
  {
    if t == 1 then cs.json.value.encode(x) else cs.protobuf.value.encode(x)
  }

  function DecodedBy<M>(cs: Codecs<M>, t: byte, bs: bytes): Option<M>
    requires Supported(cs, t)
  {
    if t == 1 then cs.json.value.decode(bs) else cs.protobuf.value.decode(bs)
  }

  /** When metadata makes encoding fail, and what stands behind the header when it does not: nothing without
      metadata, the bytes of the JSON codec for type 1 and those of the Protobuf codec for type 2, and then
      the payload. */
  lemma MetadataIsWritten<M>(cs: Codecs<M>, m: Message<M>)
    ensures var t, all := m.header.serializationType, Written(cs, m);
            match m.metadata
            case None => |all| >= HEADER_SIZE && all[HEADER_SIZE..] == m.payload
            case Some(x) =>
              if !Supported(cs, t) then MetadataBytes(cs, m).NoCodec? && |all| == 14
              else if EncodedBy(cs, t, x).None? then MetadataBytes(cs, m).Unencodable? && |all| == 14
              else |all| >= HEADER_SIZE && all[HEADER_SIZE..] == EncodedBy(cs, t, x).value + m.payload
  {
    hide Lead, Sizes;
    if MetadataBytes(cs, m).Bytes? {
      var md := MetadataBytes(cs, m).bs;
      var head := Lead(m.header) + Sizes(|md| % TWO_32, |m.payload| % TWO_32);
      assert Written(cs, m) == head + (md + m.payload);
    }
  }

  /** The four bytes at `at`, most significant first. */
  function Number(bs: bytes, at: nat): int
    requires at + 4 <= |bs|
  {
    Quad(bs[at], bs[at + 1], bs[at + 2], bs[at + 3])
  }

  lemma NumberIsRead(bs: bytes, at: nat)
    requires at + 4 <= |bs|
    ensures Number(bs, at) == ReadU32(bs[at..at + 4])
  {
    var four := bs[at..at + 4];
    var a, b, c := four[..3], four[..2], four[..1];
    assert a[..2] == b && b[..1] == c && c[..0] == [];
    assert FromBigEndian(c) == four[0];
    assert FromBigEndian(b) == FromBigEndian(c) * 256 + four[1];
    assert FromBigEndian(a) == FromBigEndian(b) * 256 + four[2];
  }

  lemma {:induction false} SplitNumber(bs: bytes, k: nat)
    requires k <= |bs|
    ensures FromBigEndian(bs) == FromBigEndian(bs[..k]) * Power256(|bs| - k) + FromBigEndian(bs[k..])
  {
    if k == |bs| {
      assert bs[..k] == bs;
    } else {
      var front := bs[..|bs| - 1];
      SplitNumber(front, k);
      assert front[..k] == bs[..k] && front[k..] == bs[k..][..|bs| - k - 1];
      ShiftSum(FromBigEndian(bs[..k]), Power256(|bs| - k - 1), FromBigEndian(front[k..]));
    }
  }

  lemma ShiftSum(x: int, p: int, y: int)
    ensures (x * p + y) * 256 == x * (256 * p) + y * 256
  {
  }

  /** The eight bytes at `at`. */
  lemma LongIsRead(bs: bytes, at: nat)
    requires at + 8 <= |bs|
    ensures ReadU64(bs[at..at + 8]) == Number(bs, at) * TWO_32 + Number(bs, at + 4)
  {
    hide FromBigEndian, Quad;
    var eight := bs[at..at + 8];
    SplitNumber(eight, 4);
    Powers();
    assert eight[..4] == bs[at..at + 4] && eight[4..] == bs[at + 4..at + 8];
    NumberIsRead(bs, at);
    NumberIsRead(bs, at + 4);
  }

  lemma MagicIsRead(bs: bytes)
    requires |bs| >= 2
    ensures ReadU16(bs[..2]) == MAGIC <==> bs[0] == 0x3f && bs[1] == 0x3f
  {
    var two := bs[..2];
    var one := two[..1];
    assert one[..0] == [];
    assert FromBigEndian(one) == two[0];
  }

  /** The outcome of decoding, by the bytes of the stream. */
  predicate Outcome<M(==)>(cs: Codecs<M>, bs: bytes, d: Decoded<M>) {
    if |bs| < 2 then d == Failed(Eof, [])
    else if bs[0] != 0x3f || bs[1] != 0x3f then d == Failed(InvalidMagic, bs[2..])
    else if |bs| < 22 then d == Failed(Eof, [])
    else
      var t, metadata, payload := bs[5], Number(bs, 14), Number(bs, 18);
      if |bs| < 22 + metadata then d == Failed(Eof, [])
      else if metadata > 0 && !Supported(cs, t) then d == Failed(UnsupportedSerializer, bs[22 + metadata..])
      else if metadata > 0 && DecodedBy(cs, t, bs[22..22 + metadata]).None? then
        d == Failed(CodecFailure, bs[22 + metadata..])
      else if |bs| < 22 + metadata + payload then d == Failed(Eof, [])
      else
        && d.Decoded?
        && d.rest == bs[22 + metadata + payload..]
        && d.message.payload == bs[22 + metadata..22 + metadata + payload]
        && d.message.metadata == (if metadata == 0 then None else DecodedBy(cs, t, bs[22..22 + metadata]))
        && d.message.header.magic == 0x3f3f && d.message.header.version == bs[2]
        && d.message.header.messageType == bs[3] && d.message.header.compressType == bs[4]
        && d.message.header.serializationType == t
        && d.message.header.messageID == Number(bs, 6) * TWO_32 + Number(bs, 10)
        && d.message.header.metadataSize == metadata && d.message.header.payloadSize == payload
  }

  /** Every stream decodes to the outcome that its bytes determine. */
  lemma DecodeOutcome<M>(cs: Codecs<M>, bs: bytes)
    ensures Outcome(cs, bs, Decode(cs, bs))
  {
    hide ReadU16, ReadU32, ReadU64, FromBigEndian, Quad;
    if |bs| >= 2 {
      MagicIsRead(bs);
    }
    if |bs| >= 22 {
      HeaderSlices(bs);
      LongIsRead(bs, 6);
      NumberIsRead(bs, 14);
      NumberIsRead(bs, 18);
      BodySlices(bs, Number(bs, 14), Number(bs, 18));
    }
  }

  lemma BodySlices(bs: bytes, metadata: nat, payload: nat)
    requires |bs| >= 22
    ensures var r := bs[22..];
            && (|bs| >= 22 + metadata ==>
                  r[..metadata] == bs[22..22 + metadata] && r[metadata..] == bs[22 + metadata..])
            && (|bs| >= 22 + metadata + payload ==>
                  && r[metadata..][..payload] == bs[22 + metadata..22 + metadata + payload]
                  && r[metadata..][payload..] == bs[22 + metadata + payload..])
  {
  }
}
