/** The framing of protocol/protocol.go: a 22-byte big-endian header, then metadata and payload of the
    lengths it announces. The metadata codecs are parameters. */
module Wire {
  import opened Types

  type byte = x: int | 0 <= x < 0x100
  type u16 = x: int | 0 <= x < 0x1_0000
  type u32 = x: int | 0 <= x < 0x1_0000_0000
  type u64 = x: int | 0 <= x < 0x1_0000_0000_0000_0000
  type bytes = seq<byte>

  const MAGIC: u16 := 0x3f3f
  const HEADER_SIZE := 22
  const TWO_32 := 0x1_0000_0000

  datatype Header = Header(magic: u16, version: byte, messageType: byte, compressType: byte,
                           serializationType: byte, messageID: u64, metadataSize: u32, payloadSize: u32)

  /** A nil payload and an empty one are the same. */
  datatype Message<M> = Message(header: Header, metadata: Option<M>, payload: bytes)

  datatype Codec<!M> = Codec(encode: M -> Option<bytes>, decode: bytes -> Option<M>)

  /** The registered codecs. */
  datatype Codecs<!M> = Codecs(json: Option<Codec<M>>, protobuf: Option<Codec<M>>)

  datatype WireError = Eof | InvalidMagic | UnsupportedSerializer | CodecFailure | WriterFailure

  function GetCodecByType<M>(cs: Codecs<M>, t: byte): Option<Codec<M>> {
    if t == 1 then cs.json else if t == 2 then cs.protobuf else None
  }

  // Big-endian integers.

  function Power256(w: nat): nat { if w == 0 then 1 else 256 * Power256(w - 1) }

  function BigEndian(n: nat, w: nat): (bs: bytes)
    ensures |bs| == w
  {
    if w == 0 then [] else BigEndian(n / 256, w - 1) + [n % 256]
  }

  function FromBigEndian(bs: bytes): nat {
    if bs == [] then 0 else FromBigEndian(bs[..|bs| - 1]) * 256 + bs[|bs| - 1]
  }

  lemma {:induction false} BigEndianRoundTrip(n: nat, w: nat)
    requires n < Power256(w)
    ensures FromBigEndian(BigEndian(n, w)) == n
  {
    if w == 0 {
    } else {
      BigEndianRoundTrip(n / 256, w - 1);
      assert BigEndian(n, w)[..w - 1] == BigEndian(n / 256, w - 1);
    }
  }

  lemma {:induction false} BigEndianBound(bs: bytes)
    ensures FromBigEndian(bs) < Power256(|bs|)
  {
    if bs == [] {
    } else {
      BigEndianBound(bs[..|bs| - 1]);
    }
  }

  lemma Powers()
    ensures Power256(2) == 0x1_0000 && Power256(4) == TWO_32 && Power256(8) == 0x1_0000_0000_0000_0000
  {
    assert Power256(3) == 0x100_0000;
    assert Power256(5) == 0x100_0000_0000;
    assert Power256(6) == 0x1_0000_0000_0000;
    assert Power256(7) == 0x100_0000_0000_0000;
  }

  function ReadU16(bs: bytes): u16
    requires |bs| == 2
  {
    BigEndianBound(bs); Powers(); FromBigEndian(bs)
  }

  function ReadU32(bs: bytes): u32
    requires |bs| == 4
  {
    BigEndianBound(bs); Powers(); FromBigEndian(bs)
  }

  function ReadU64(bs: bytes): u64
    requires |bs| == 8
  {
    BigEndianBound(bs); Powers(); FromBigEndian(bs)
  }

  // Encoding.

  /** The fourteen bytes that are written before the metadata is serialised. */
  function Lead(h: Header): (bs: bytes)
    ensures |bs| == 14
  {
    BigEndian(h.magic, 2) + [h.version, h.messageType, h.compressType, h.serializationType] + BigEndian(h.messageID, 8)
  }

  function Sizes(metadataSize: u32, payloadSize: u32): (bs: bytes)
    ensures |bs| == 8
  {
    BigEndian(metadataSize, 4) + BigEndian(payloadSize, 4)
  }

  datatype Metadatum = NoCodec | Unencodable | Bytes(bs: bytes)

  function MetadataBytes<M>(cs: Codecs<M>, m: Message<M>): Metadatum {
    if m.metadata.None? then Bytes([])
    else
      var codec := GetCodecByType(cs, m.header.serializationType);
      if codec.None? then NoCodec
      else
        var bs := codec.value.encode(m.metadata.value);
        if bs.None? then Unencodable else Bytes(bs.value)
  }

  /** The message with its header sizes filled in; lengths are cut to 32 bits. */
  function WithSizes<M>(m: Message<M>, metadata: bytes): Message<M> {
    m.(header := m.header.(metadataSize := |metadata| % TWO_32, payloadSize := |m.payload| % TWO_32))
  }

  function Frame<M>(m: Message<M>, metadata: bytes): bytes {
    Lead(m.header) + Sizes(|metadata| % TWO_32, |m.payload| % TWO_32) + (metadata + m.payload)
  }

  /** What reaches the writer: after a metadata failure, the first fourteen bytes are already out. */
  function Written<M>(cs: Codecs<M>, m: Message<M>): bytes {
    match MetadataBytes(cs, m)
    case Bytes(md) => Frame(m, md)
    case _ => Lead(m.header)
  }

  /** `whole` is being sent, behind `start`, to a writer that takes `limit` more bytes. */
  datatype Sending = Sending(start: bytes, whole: bytes, limit: nat)

  /** A writer that takes `room` more bytes; a write that does not fit is cut short and fails. */
  class Writer {
    var output: bytes
    var room: nat

    constructor (room: nat)
      ensures output == [] && this.room == room
    {
      output, this.room := [], room;
    }

    ghost predicate Sent(s: Sending, at: nat)
      reads this
    {
      at <= |s.whole| && at <= s.limit && output == s.start + s.whole[..at] && room == s.limit - at
    }

    ghost predicate Full(s: Sending)
      reads this
    {
      s.limit < |s.whole| && output == s.start + s.whole[..s.limit] && room == 0
    }

    /** Writes the next piece of `s.whole`, of which `at` bytes have been sent. */
    method Write(bs: bytes, ghost s: Sending, ghost at: nat) returns (ok: bool)
      requires Sent(s, at) && at + |bs| <= |s.whole| && bs == s.whole[at..at + |bs|]
      modifies this
      ensures ok <==> at + |bs| <= s.limit
      ensures if ok then Sent(s, at + |bs|) else Full(s)
    {
      ok := |bs| <= room;
      if ok {
        output, room := output + bs, room - |bs|;
        assert s.whole[..at] + bs == s.whole[..at + |bs|];
      } else {
        assert s.whole[..at] + bs[..room] == s.whole[..at + room];
        output, room := output + bs[..room], 0;
      }
    }
  }

  method WriteLead(h: Header, w: Writer, ghost s: Sending) returns (ok: bool)
    requires w.Sent(s, 0) && |s.whole| >= 14 && s.whole[..14] == Lead(h)
    modifies w
    ensures ok <==> 14 <= s.limit
    ensures if ok then w.Sent(s, 14) else w.Full(s)
  {
    hide BigEndian;
    ghost var marks := [h.version, h.messageType, h.compressType, h.serializationType];
    LeadSlices(h);
    forall i, j | 0 <= i <= j <= 14 ensures s.whole[i..j] == Lead(h)[i..j] {
      assert s.whole[..14][i..j] == s.whole[i..j];
    }
    ok := w.Write(BigEndian(h.magic, 2), s, 0);
    if !ok { return; }
    ok := w.Write([h.version], s, 2);
    if !ok { return; }
    ok := w.Write([h.messageType], s, 3);
    if !ok { return; }
    ok := w.Write([h.compressType], s, 4);
    if !ok { return; }
    ok := w.Write([h.serializationType], s, 5);
    if !ok { return; }
    ok := w.Write(BigEndian(h.messageID, 8), s, 6);
  }

  lemma LeadSlices(h: Header)
    ensures var bs := Lead(h);
            && bs[0..2] == BigEndian(h.magic, 2) && bs[2..3] == [h.version] && bs[3..4] == [h.messageType]
            && bs[4..5] == [h.compressType] && bs[5..6] == [h.serializationType]
            && bs[6..14] == BigEndian(h.messageID, 8)
  {
    hide BigEndian;
  }

  lemma FrameSlices<M>(m: Message<M>, md: bytes)
    ensures var bs, n, l := Frame(m, md), HEADER_SIZE + |md|, HEADER_SIZE + |md| + |m.payload|;
            && |bs| == l && bs[..14] == Lead(m.header)
            && bs[14..18] == BigEndian(|md| % TWO_32, 4) && bs[18..22] == BigEndian(|m.payload| % TWO_32, 4)
            && bs[22..n] == md && bs[n..l] == m.payload
  {
    hide BigEndian, Lead;
  }

  method EncodeMessage<M>(cs: Codecs<M>, m: Message<M>, w: Writer) returns (sized: Message<M>, err: Option<WireError>)
    modifies w
    ensures var all, room := Written(cs, m), old(w.room);
            if |all| <= room then
              && w.output == old(w.output) + all && w.room == room - |all|
              && match MetadataBytes(cs, m)
                 case NoCodec => err == Some(UnsupportedSerializer) && sized == m
                 case Unencodable => err == Some(CodecFailure) && sized == m
                 case Bytes(md) => err == None && sized == WithSizes(m, md)
            else
              && w.output == old(w.output) + all[..room] && w.room == 0
              && err == Some(WriterFailure)
              && match MetadataBytes(cs, m)
                 case Bytes(md) =>
                   && sized.metadata == m.metadata && sized.payload == m.payload
                   && sized.header == m.header.(
                        metadataSize := if room >= 14 then |md| % TWO_32 else m.header.metadataSize,
                        payloadSize := if room >= 18 then |m.payload| % TWO_32 else m.header.payloadSize)
                 case _ => sized == m
  {
    hide Lead, BigEndian, Frame;
    ghost var s := Sending(w.output, Written(cs, m), w.room);
    sized, err := m, Some(WriterFailure);
    if MetadataBytes(cs, m).Bytes? {
      FrameSlices(m, MetadataBytes(cs, m).bs);
    }
    assert s.whole[..14] == Lead(m.header);
    var ok := WriteLead(m.header, w, s);
    if !ok { return; }
    var metadata: bytes := [];
    if m.metadata.Some? {
      var codec := GetCodecByType(cs, m.header.serializationType);
      if codec.None? {
        assert s.whole[..14] == s.whole;
        err := Some(UnsupportedSerializer);
        return;
      }
      var encoded := codec.value.encode(m.metadata.value);
      if encoded.None? {
        assert s.whole[..14] == s.whole;
        err := Some(CodecFailure);
        return;
      }
      metadata := encoded.value;
    }
    sized, ok := WriteRest(m, metadata, w, s);
    if ok {
      assert s.whole[..|s.whole|] == s.whole;
      err := None;
    }
  }

  method WriteRest<M>(m: Message<M>, metadata: bytes, w: Writer, ghost s: Sending) returns (sized: Message<M>, ok: bool)
    requires w.Sent(s, 14) && s.whole == Frame(m, metadata)
    modifies w
    ensures ok <==> |s.whole| <= s.limit
    ensures if ok then w.Sent(s, |s.whole|) else w.Full(s)
    ensures sized == if s.limit >= 18 then WithSizes(m, metadata)
                     else m.(header := m.header.(metadataSize := |metadata| % TWO_32))
  {
    hide BigEndian, Frame;
    FrameSlices(m, metadata);
    sized := m.(header := m.header.(metadataSize := |metadata| % TWO_32));
    ok := w.Write(BigEndian(sized.header.metadataSize, 4), s, 14);
    if !ok { return; }
    sized := sized.(header := sized.header.(payloadSize := |m.payload| % TWO_32));
    ok := w.Write(BigEndian(sized.header.payloadSize, 4), s, 18);
    if !ok { return; }
    if |metadata| > 0 {
      ok := w.Write(metadata, s, HEADER_SIZE);
      if !ok { return; }
    }
    if |m.payload| > 0 {
      ok := w.Write(m.payload, s, HEADER_SIZE + |metadata|);
    }
  }

  // Decoding.

  /** A message and the unread rest, or an error and what the failed read left. */
  datatype Decoded<M> = Decoded(message: Message<M>, rest: bytes) | Failed(error: WireError, rest: bytes)

  function HeaderOf(bs: bytes): Header
    requires |bs| == HEADER_SIZE
  {
    Header(ReadU16(bs[..2]), bs[2], bs[3], bs[4], bs[5], ReadU64(bs[6..14]), ReadU32(bs[14..18]), ReadU32(bs[18..22]))
  }

  function DecodePayload<M>(h: Header, metadata: Option<M>, r: bytes): Decoded<M> {
    if |r| < h.payloadSize then Failed(Eof, [])
    else Decoded(Message(h, metadata, r[..h.payloadSize]), r[h.payloadSize..])
  }

  function DecodeBody<M>(cs: Codecs<M>, h: Header, r: bytes): Decoded<M> {
    if h.metadataSize == 0 then DecodePayload(h, None, r)
    else if |r| < h.metadataSize then Failed(Eof, [])
    else
      var after := r[h.metadataSize..];
      var codec := GetCodecByType(cs, h.serializationType);
      if codec.None? then Failed(UnsupportedSerializer, after)
      else
        var md := codec.value.decode(r[..h.metadataSize]);
        if md.None? then Failed(CodecFailure, after) else DecodePayload(h, md, after)
  }

  function Decode<M>(cs: Codecs<M>, bs: bytes): Decoded<M> {
    if |bs| < 2 then Failed(Eof, [])
    else if ReadU16(bs[..2]) != MAGIC then Failed(InvalidMagic, bs[2..])
    else if |bs| < HEADER_SIZE then Failed(Eof, [])
    else DecodeBody(cs, HeaderOf(bs[..HEADER_SIZE]), bs[HEADER_SIZE..])
  }

  class Reader {
    var data: bytes

    constructor (data: bytes)
      ensures this.data == data
    {
      this.data := data;
    }

    /** io.ReadFull: a short read consumes what there is. `all` is the stream of which `at` bytes
        have been read. */
    method ReadFull(n: nat, ghost all: bytes, ghost at: nat) returns (ok: bool, bs: bytes)
      requires at <= |all| && data == all[at..]
      modifies this
      ensures ok <==> at + n <= |all|
      ensures ok ==> bs == all[at..at + n] && data == all[at + n..]
      ensures !ok ==> data == []
    {
      ok := n <= |data|;
      if ok {
        bs, data := data[..n], data[n..];
      } else {
        bs, data := data, [];
      }
    }
  }

  lemma HeaderSlices(bs: bytes)
    requires |bs| >= HEADER_SIZE
    ensures HeaderOf(bs[..HEADER_SIZE]) ==
            Header(ReadU16(bs[..2]), bs[2], bs[3], bs[4], bs[5], ReadU64(bs[6..14]),
                   ReadU32(bs[14..18]), ReadU32(bs[18..22]))
  {
    var h := bs[..HEADER_SIZE];
    assert h[..2] == bs[..2] && h[6..14] == bs[6..14] && h[14..18] == bs[14..18] && h[18..22] == bs[18..22];
  }

  /** The single-byte fields. */
  method ReadMarks(r: Reader, ghost all: bytes) returns (ok: bool, x: bytes)
    requires 2 <= |all| && r.data == all[2..]
    modifies r
    ensures ok <==> 6 <= |all|
    ensures ok ==> x == all[2..6] && r.data == all[6..]
    ensures !ok ==> r.data == []
  {
    x := [];
    for k := 0 to 4
      invariant 2 + k <= |all| && r.data == all[2 + k..] && x == all[2..2 + k]
    {
      var b;
      ok, b := r.ReadFull(1, all, 2 + k);
      if !ok {
        return;
      }
      x := x + b;
    }
    ok := true;
  }

  method ReadHeader(r: Reader) returns (h: Header, err: Option<WireError>)
    modifies r
    ensures var bs := old(r.data);
            if |bs| < 2 then err == Some(Eof) && r.data == []
            else if ReadU16(bs[..2]) != MAGIC then err == Some(InvalidMagic) && r.data == bs[2..]
            else if |bs| < HEADER_SIZE then err == Some(Eof) && r.data == []
            else err == None && h == HeaderOf(bs[..HEADER_SIZE]) && r.data == bs[HEADER_SIZE..]
  {
    hide ReadU16, ReadU32, ReadU64, HeaderOf;
    ghost var bs := r.data;
    assert bs[0..] == bs;
    h, err := Header(0, 0, 0, 0, 0, 0, 0, 0), Some(Eof);
    var ok, magic := r.ReadFull(2, bs, 0);
    if !ok { return; }
    assert magic == bs[..2];
    if ReadU16(magic) != MAGIC { err := Some(InvalidMagic); return; }
    var marks, id, metadataSize, payloadSize;
    ok, marks := ReadMarks(r, bs);
    if !ok { return; }
    ok, id := r.ReadFull(8, bs, 6);
    if !ok { return; }
    ok, metadataSize := r.ReadFull(4, bs, 14);
    if !ok { return; }
    ok, payloadSize := r.ReadFull(4, bs, 18);
    if !ok { return; }
    h := Header(ReadU16(magic), marks[0], marks[1], marks[2], marks[3], ReadU64(id),
                ReadU32(metadataSize), ReadU32(payloadSize));
    HeaderSlices(bs);
    err := None;
  }

  method DecodeMessage<M>(cs: Codecs<M>, r: Reader) returns (d: Decoded<M>)
    modifies r
    ensures d == Decode(cs, old(r.data)) && r.data == d.rest
  {
    var h, err := ReadHeader(r);
    if err.Some? {
      return Failed(err.value, r.data);
    }
    var metadata: Option<M> := None;
    if h.metadataSize > 0 {
      var ok, bs := r.ReadFull(h.metadataSize, r.data, 0);
      if !ok {
        return Failed(Eof, r.data);
      }
      var codec := GetCodecByType(cs, h.serializationType);
      if codec.None? {
        return Failed(UnsupportedSerializer, r.data);
      }
      metadata := codec.value.decode(bs);
      if metadata.None? {
        return Failed(CodecFailure, r.data);
      }
    }
    var payload: bytes := [];
    if h.payloadSize > 0 {
      var ok, bs := r.ReadFull(h.payloadSize, r.data, 0);
      if !ok {
        return Failed(Eof, r.data);
      }
      payload := bs;
    }
    return Decoded(Message(h, metadata, payload), r.data);
  }
}
