/** Encoded messages delimit themselves on a stream. */
module WireStream {
  import opened Types
  import opened Wire

  /** The codecs decode what they encode, and encode nothing to the empty string. */
  ghost predicate LawfulCodec<M(!new)>(c: Codec<M>) {
    forall m :: var bs := c.encode(m); bs.Some? ==> bs.value != [] && c.decode(bs.value) == Some(m)
  }

  ghost predicate Lawful<M(!new)>(cs: Codecs<M>) {
    (cs.json.Some? ==> LawfulCodec(cs.json.value)) && (cs.protobuf.Some? ==> LawfulCodec(cs.protobuf.value))
  }

  /** The message encodes without error. */
  predicate Encodes<M>(cs: Codecs<M>, m: Message<M>) {
    MetadataBytes(cs, m).Bytes?
  }

  function Sized<M>(cs: Codecs<M>, m: Message<M>): Message<M>
    requires Encodes(cs, m)
  {
    WithSizes(m, MetadataBytes(cs, m).bs)
  }

  /** Right magic, and both parts shorter than 2^32 bytes. */
  predicate Framable<M>(cs: Codecs<M>, m: Message<M>) {
    Encodes(cs, m) && m.header.magic == MAGIC && |MetadataBytes(cs, m).bs| < TWO_32 && |m.payload| < TWO_32
  }

  lemma FieldsReadBack(h: Header)
    ensures ReadU16(BigEndian(h.magic, 2)) == h.magic
    ensures ReadU64(BigEndian(h.messageID, 8)) == h.messageID
    ensures ReadU32(BigEndian(h.metadataSize, 4)) == h.metadataSize
    ensures ReadU32(BigEndian(h.payloadSize, 4)) == h.payloadSize
  {
    Powers();
    BigEndianRoundTrip(h.magic, 2);
    BigEndianRoundTrip(h.messageID, 8);
    BigEndianRoundTrip(h.metadataSize, 4);
    BigEndianRoundTrip(h.payloadSize, 4);
  }

  /** Reading the header back from any stream that starts with it. */
  lemma HeaderReadsBack(h: Header, tail: bytes)
    ensures var bs := Lead(h) + Sizes(h.metadataSize, h.payloadSize) + tail;
            |bs| >= HEADER_SIZE && HeaderOf(bs[..HEADER_SIZE]) == h && bs[HEADER_SIZE..] == tail
            && ReadU16(bs[..2]) == h.magic
  {
    hide BigEndian, ReadU16, ReadU32, ReadU64;
    var bs := Lead(h) + Sizes(h.metadataSize, h.payloadSize) + tail;
    FieldsReadBack(h);
    HeaderSlices(bs);
    assert bs[..2] == BigEndian(h.magic, 2);
    assert bs[6..14] == BigEndian(h.messageID, 8);
    assert bs[14..18] == BigEndian(h.metadataSize, 4);
    assert bs[18..22] == BigEndian(h.payloadSize, 4);
  }

  /** Decoding a frame is decoding its body under the sized header. */
  lemma FrameDecodes<M>(cs: Codecs<M>, m: Message<M>, md: bytes, tail: bytes)
    requires m.header.magic == MAGIC
    ensures Decode(cs, Frame(m, md) + tail) == DecodeBody(cs, WithSizes(m, md).header, md + m.payload + tail)
  {
    hide Lead, Sizes, HeaderOf, ReadU16, DecodeBody;
    var h := WithSizes(m, md).header;
    var body := md + m.payload + tail;
    SameLead(m.header, h);
    assert Frame(m, md) + tail == Lead(h) + Sizes(h.metadataSize, h.payloadSize) + body;
    HeaderReadsBack(h, body);
  }

  lemma SameLead(g: Header, h: Header)
    requires h == g.(metadataSize := h.metadataSize, payloadSize := h.payloadSize)
    ensures Lead(g) == Lead(h)
  {
  }

  lemma CodecReadsBack<M(!new)>(cs: Codecs<M>, m: Message<M>)
    requires Lawful(cs) && Encodes(cs, m)
    ensures var md := MetadataBytes(cs, m).bs;
            if m.metadata.None? then md == []
            else
              var codec := GetCodecByType(cs, m.header.serializationType);
              md != [] && codec.Some? && codec.value.decode(md) == m.metadata
  {
  }

  lemma BodyReadsBack<M(!new)>(cs: Codecs<M>, m: Message<M>, tail: bytes)
    requires Lawful(cs) && Framable(cs, m)
    ensures DecodeBody(cs, Sized(cs, m).header, MetadataBytes(cs, m).bs + m.payload + tail) ==
            Decoded(Sized(cs, m), tail)
  {
    hide Lawful;
    CodecReadsBack(cs, m);
    var md := MetadataBytes(cs, m).bs;
    var r := md + m.payload + tail;
    assert r[..|md|] == md && r[|md|..] == m.payload + tail;
    assert (m.payload + tail)[..|m.payload|] == m.payload;
    assert (m.payload + tail)[|m.payload|..] == tail;
  }

  lemma RoundTrip<M(!new)>(cs: Codecs<M>, m: Message<M>, tail: bytes)
    requires Lawful(cs) && Framable(cs, m)
    ensures Decode(cs, Written(cs, m) + tail) == Decoded(Sized(cs, m), tail)
  {
    hide Decode, DecodeBody, Frame, Lawful;
    FrameDecodes(cs, m, MetadataBytes(cs, m).bs, tail);
    BodyReadsBack(cs, m, tail);
  }

  /** A successful decode consumes exactly the announced lengths. */
  lemma DecodeConsumes<M>(cs: Codecs<M>, bs: bytes)
    ensures var d := Decode(cs, bs);
            d.Decoded? ==> |d.rest| + HEADER_SIZE + d.message.header.metadataSize + d.message.header.payloadSize == |bs|
                           && d.message.header.magic == MAGIC
  {
    hide ReadU16, ReadU32, ReadU64;
    if |bs| >= HEADER_SIZE {
      HeaderSlices(bs);
    }
  }

  /** A message that encodes is read back, with its sizes filled in and the rest of the stream left
      alone, exactly when its magic number is right and both parts are shorter than 2^32 bytes. */
  lemma RoundTripIff<M(!new)>(cs: Codecs<M>, m: Message<M>, tail: bytes)
    requires Lawful(cs) && Encodes(cs, m)
    ensures Decode(cs, Written(cs, m) + tail) == Decoded(Sized(cs, m), tail) <==> Framable(cs, m)
  {
    hide Decode, Lead, Sizes;
    if Framable(cs, m) {
      RoundTrip(cs, m, tail);
    } else {
      DecodeConsumes(cs, Written(cs, m) + tail);
      CutLengths(|MetadataBytes(cs, m).bs|, |m.payload|);
    }
  }

  lemma CutLengths(a: nat, b: nat)
    ensures a % TWO_32 <= a && b % TWO_32 <= b
    ensures a % TWO_32 == a <==> a < TWO_32
    ensures b % TWO_32 == b <==> b < TWO_32
  {
  }

  // Streams.

  ghost predicate AllFramable<M>(cs: Codecs<M>, ms: seq<Message<M>>) {
    forall k :: 0 <= k < |ms| ==> Framable(cs, ms[k])
  }

  function WrittenAll<M>(cs: Codecs<M>, ms: seq<Message<M>>): bytes {
    if ms == [] then [] else Written(cs, ms[0]) + WrittenAll(cs, ms[1..])
  }

  function SizedAll<M>(cs: Codecs<M>, ms: seq<Message<M>>): seq<Message<M>>
    requires AllFramable(cs, ms)
  {
    if ms == [] then [] else [Sized(cs, ms[0])] + SizedAll(cs, ms[1..])
  }

  /** The first `n` messages of a stream, and the rest. */
  function DecodeMany<M>(cs: Codecs<M>, bs: bytes, n: nat): Option<(seq<Message<M>>, bytes)>
    decreases n
  {
    if n == 0 then Some(([], bs))
    else
      var d := Decode(cs, bs);
      if d.Failed? then None
      else
        var more := DecodeMany(cs, d.rest, n - 1);
        if more.None? then None else Some(([d.message] + more.value.0, more.value.1))
  }

  /** Any list of encoded messages followed by any tail decodes to exactly those messages, with their
      sizes filled in, and leaves the tail. */
  lemma {:induction false} StreamRoundTrip<M(!new)>(cs: Codecs<M>, ms: seq<Message<M>>, tail: bytes)
    requires Lawful(cs) && AllFramable(cs, ms)
    ensures DecodeMany(cs, WrittenAll(cs, ms) + tail, |ms|) == Some((SizedAll(cs, ms), tail))
  {
    hide Decode, Written, Lawful, Framable;
    if ms == [] {
      assert WrittenAll(cs, ms) + tail == tail;
    } else {
      var more := WrittenAll(cs, ms[1..]) + tail;
      assert WrittenAll(cs, ms) + tail == Written(cs, ms[0]) + more;
      RoundTrip(cs, ms[0], more);
      StreamRoundTrip(cs, ms[1..], tail);
    }
  }

  function Quad(a: int, b: int, c: int, d: int): int {
    a * 0x100_0000 + b * 0x1_0000 + c * 0x100 + d
  }

  /** Where each header field sits, byte by byte: 2 bytes of magic, one each for version, message type,
      compression and serialization, 8 of message ID, 4 of metadata size and 4 of payload size, most
      significant first; then metadata and payload. */
  lemma FrameLayout<M>(cs: Codecs<M>, m: Message<M>)
    requires Framable(cs, m)
    ensures var bs, md := Written(cs, m), MetadataBytes(cs, m).bs;
            && |bs| == HEADER_SIZE + |md| + |m.payload|
            && bs[0] == 0x3f && bs[1] == 0x3f
            && bs[2] == m.header.version && bs[3] == m.header.messageType
            && bs[4] == m.header.compressType && bs[5] == m.header.serializationType
            && bs[6..14] == BigEndian(m.header.messageID, 8)
            && Quad(bs[14], bs[15], bs[16], bs[17]) == |md|
            && Quad(bs[18], bs[19], bs[20], bs[21]) == |m.payload|
            && bs[22..22 + |md|] == md && bs[22 + |md|..] == m.payload
  {
    hide Lead, Sizes, BigEndian, Quad;
    var md := MetadataBytes(cs, m).bs;
    LeadLayout(m.header);
    SizesLayout(|md|, |m.payload|);
    Pieces(Lead(m.header), Sizes(|md|, |m.payload|), md, m.payload);
    assert Written(cs, m) == Lead(m.header) + Sizes(|md|, |m.payload|) + (md + m.payload);
  }

  lemma Pieces(lead: bytes, sizes: bytes, md: bytes, payload: bytes)
    requires |lead| == 14 && |sizes| == 8
    ensures var bs := lead + sizes + (md + payload);
            && |bs| == 22 + |md| + |payload|
            && bs[0] == lead[0] && bs[1] == lead[1] && bs[2] == lead[2] && bs[3] == lead[3]
            && bs[4] == lead[4] && bs[5] == lead[5]
            && bs[6..14] == lead[6..14]
            && bs[14] == sizes[0] && bs[15] == sizes[1] && bs[16] == sizes[2] && bs[17] == sizes[3]
            && bs[18] == sizes[4] && bs[19] == sizes[5] && bs[20] == sizes[6] && bs[21] == sizes[7]
            && bs[22..22 + |md|] == md && bs[22 + |md|..] == payload
  {
  }

  lemma LeadLayout(h: Header)
    requires h.magic == MAGIC
    ensures var bs := Lead(h);
            && bs[0] == 0x3f && bs[1] == 0x3f
            && bs[2] == h.version && bs[3] == h.messageType && bs[4] == h.compressType && bs[5] == h.serializationType
            && bs[6..14] == BigEndian(h.messageID, 8)
  {
    hide BigEndian;
    MagicBytes();
  }

  lemma SizesLayout(a: u32, b: u32)
    ensures var bs := Sizes(a, b);
            Quad(bs[0], bs[1], bs[2], bs[3]) == a && Quad(bs[4], bs[5], bs[6], bs[7]) == b
  {
    hide BigEndian, Quad;
    FourBytes(a);
    FourBytes(b);
    var x, y := BigEndian(a, 4), BigEndian(b, 4);
    var bs := x + y;
    assert bs[0] == x[0] && bs[1] == x[1] && bs[2] == x[2] && bs[3] == x[3];
    assert bs[4] == y[0] && bs[5] == y[1] && bs[6] == y[2] && bs[7] == y[3];
  }

  lemma FourBytes(n: u32)
    ensures var b := BigEndian(n, 4); Quad(b[0], b[1], b[2], b[3]) == n
  {
    var b := BigEndian(n, 4);
    var n1, n2, n3 := n / 256, n / 256 / 256, n / 256 / 256 / 256;
    assert b == BigEndian(n1, 3) + [n % 256];
    assert BigEndian(n1, 3) == BigEndian(n2, 2) + [n1 % 256];
    assert BigEndian(n2, 2) == BigEndian(n3, 1) + [n2 % 256];
    assert BigEndian(n3, 1) == BigEndian(n3 / 256, 0) + [n3 % 256];
  }

  // Truncation.

  lemma BodyOfPrefix<M(!new)>(cs: Codecs<M>, m: Message<M>, n: nat)
    requires Lawful(cs) && Framable(cs, m)
    requires n < |MetadataBytes(cs, m).bs| + |m.payload|
    ensures var md := MetadataBytes(cs, m).bs;
            DecodeBody(cs, WithSizes(m, md).header, (md + m.payload)[..n]) == Failed(Eof, [])
  {
    hide Lawful, MetadataBytes;
    CodecReadsBack(cs, m);
    var md := MetadataBytes(cs, m).bs;
    var r := (md + m.payload)[..n];
    if n >= |md| {
      assert r[..|md|] == md;
    }
  }

  /** Every strict prefix of an encoded message fails to decode, with an end-of-stream error. */
  lemma TruncationFails<M(!new)>(cs: Codecs<M>, m: Message<M>, n: nat)
    requires Lawful(cs) && Framable(cs, m) && n < |Written(cs, m)|
    ensures Decode(cs, Written(cs, m)[..n]) == Failed(Eof, [])
  {
    hide HeaderOf, ReadU16, Lead, Sizes, DecodeBody;
    var md := MetadataBytes(cs, m).bs;
    var h := WithSizes(m, md).header;
    var bs := Written(cs, m)[..n];
    SameLead(m.header, h);
    HeaderReadsBack(h, md + m.payload);
    var whole := Lead(h) + Sizes(h.metadataSize, h.payloadSize) + (md + m.payload);
    assert Written(cs, m) == whole;
    if n >= 2 {
      assert bs[..2] == whole[..2];
    }
    if n >= HEADER_SIZE {
      assert bs[..HEADER_SIZE] == whole[..HEADER_SIZE];
      assert bs[HEADER_SIZE..] == (md + m.payload)[..n - HEADER_SIZE];
      BodyOfPrefix(cs, m, n - HEADER_SIZE);
    }
  }

  // A failed encode is not harmless.

  lemma LeadingBytes(h: Header, k: Header, rest: bytes)
    requires h.magic == MAGIC && k.magic == MAGIC && |rest| >= 8
    ensures var bs := Lead(h) + (Lead(k) + rest);
            && |bs| >= HEADER_SIZE && HeaderOf(bs[..HEADER_SIZE]).metadataSize >= 0x3f3f_0000
            && HeaderOf(bs[..HEADER_SIZE]).serializationType == h.serializationType
  {
    hide ReadU16, ReadU32, ReadU64, BigEndian;
    var bs := Lead(h) + (Lead(k) + rest);
    HeaderSlices(bs);
    MagicBytes();
    assert bs[5] == h.serializationType;
    assert bs[14] == Lead(k)[0] == BigEndian(MAGIC, 2)[0];
    assert bs[15] == Lead(k)[1] == BigEndian(MAGIC, 2)[1];
    FirstBytesCount(bs[14..18]);
  }

  lemma MagicBytes()
    ensures BigEndian(MAGIC, 2) == [0x3f, 0x3f]
  {
    assert BigEndian(0x3f, 1) == [0x3f];
  }

  lemma FirstBytesCount(four: bytes)
    requires |four| == 4 && four[0] == 0x3f && four[1] == 0x3f
    ensures ReadU32(four) >= 0x3f3f_0000
  {
    var a, b, c := four[..3], four[..2], four[..1];
    assert a[..2] == b && b[..1] == c && c[..0] == [];
    assert FromBigEndian(c) == four[0];
    assert FromBigEndian(b) == FromBigEndian(c) * 256 + four[1];
    assert FromBigEndian(a) == FromBigEndian(b) * 256 + four[2];
  }

  /** When encoding fails, the bytes already written spoil the stream: its reader takes the start of the
      next message for the sizes and waits for more than a thousand million bytes of metadata. Decoding
      fails if the stream is shorter than that, and in any case if the failure was the lack of a codec. */
  lemma FailedEncodeSpoilsStream<M>(cs: Codecs<M>, m: Message<M>, next: Message<M>, tail: bytes)
    requires !Encodes(cs, m) && Framable(cs, next)
    requires MetadataBytes(cs, m).NoCodec? || |Written(cs, next) + tail| < 8 + 0x3f3f_0000
    ensures Decode(cs, Written(cs, m) + (Written(cs, next) + tail)).Failed?
  {
    hide HeaderOf, ReadU16, Lead, Sizes, DecodeBody;
    var md := MetadataBytes(cs, next).bs;
    var body := md + next.payload;
    var rest := Sizes(|md|, |next.payload|) + body + tail;
    var bs := Lead(m.header) + (Lead(next.header) + rest);
    assert Written(cs, next) + tail == Lead(next.header) + rest;
    assert Written(cs, m) + (Written(cs, next) + tail) == bs;
    MagicOf(m.header, Lead(next.header) + rest);
    if m.header.magic == MAGIC {
      LeadingBytes(m.header, next.header, rest);
      BodyUnreadable(cs, HeaderOf(bs[..HEADER_SIZE]), bs[HEADER_SIZE..]);
    }
  }

  lemma BodyUnreadable<M>(cs: Codecs<M>, h: Header, r: bytes)
    requires h.metadataSize > 0 && (GetCodecByType(cs, h.serializationType).None? || |r| < h.metadataSize)
    ensures DecodeBody(cs, h, r).Failed?
  {
  }

  lemma MagicOf(h: Header, rest: bytes)
    ensures ReadU16((Lead(h) + rest)[..2]) == h.magic
  {
    FieldsReadBack(h);
    assert (Lead(h) + rest)[..2] == BigEndian(h.magic, 2);
  }
}
