/** The datagrams two SFU nodes exchange: frames, keyed media payloads and the HELLO payload, and what
    survives the sender's size check and the receiver's read buffer. */
module WireFormat {
  import opened Wrappers

  newtype byte = x: int | 0 <= x < 256

  type Bytes = seq<byte>

  type Session = s: Bytes | |s| == 16 witness seq(16, _ => 0)

  /** A SHA-256 authentication code. */
  type Mac = s: Bytes | |s| == 32 witness seq(32, _ => 0)

  datatype Frame = Frame(kind: byte, session: Session, payload: Bytes)

  datatype Keyed = Keyed(key: Bytes, packet: Bytes)

  datatype Hello = Hello(src: Bytes, dst: Bytes, mac: Mac)

  const MAGIC: byte := 0x9C
  const VERSION: byte := 0x01
  const HEADER_SIZE: nat := 21
  const READ_BUFFER: nat := 2048
  const FRAME_RTP: byte := 0x01

  /** Conversion of a length to one byte drops the higher bits. */
  function LowByte(n: nat): (r: byte) { (n % 256) as byte }

  function Uint16(n: nat): (r: Bytes) { [LowByte(n / 256), LowByte(n)] }

  function FromUint16(b: Bytes): (r: nat)
    requires |b| == 2
  {
    b[0] as nat * 256 + b[1] as nat
  }

  lemma Uint16RoundTrip(n: nat)
    ensures FromUint16(Uint16(n)) == n % 65536
  {
    assert n % 65536 == n / 256 % 256 * 256 + n % 256;
  }

  lemma Uint16Exact(b: Bytes)
    requires |b| == 2
    ensures Uint16(FromUint16(b)) == b && FromUint16(b) < 65536
  {
    var hi, lo := b[0] as nat, b[1] as nat;
    assert (hi * 256 + lo) / 256 == hi && (hi * 256 + lo) % 256 == lo;
  }

  // ------------------------------------------------------------------
  // Frames
  // ------------------------------------------------------------------

  function EncodeFrame(f: Frame): (b: Bytes)
    ensures |b| == HEADER_SIZE + |f.payload|
  {
    [MAGIC, VERSION, f.kind] + f.session + Uint16(|f.payload|) + f.payload
  }

  /** The encoder's buffer, filled field by field. */
  method FillFrame(f: Frame) returns (buf: array<byte>)
    ensures fresh(buf) && buf[..] == EncodeFrame(f)
  {
    hide Uint16;
    var count := Uint16(|f.payload|);
    assert |count| == 2 by { assert |EncodeFrame(f)| == HEADER_SIZE + |f.payload|; }
    buf := new byte[HEADER_SIZE + |f.payload|];
    buf[0], buf[1], buf[2] := MAGIC, VERSION, f.kind;
    assert buf[..3] == [MAGIC, VERSION, f.kind];
    CopyInto(buf, 3, f.session);
    CopyInto(buf, 19, count);
    CopyInto(buf, 21, f.payload);
    assert buf[..] == buf[..21 + |f.payload|];
  }

  method CopyInto(buf: array<byte>, at: nat, src: Bytes)
    requires at + |src| <= buf.Length
    modifies buf
    ensures buf[..] == old(buf[..at]) + src + old(buf[at + |src|..])
    ensures buf[..at + |src|] == old(buf[..at]) + src
  {
    for i := 0 to |src|
      invariant buf[..] == old(buf[..at]) + src[..i] + old(buf[at + i..])
    {
      buf[at + i] := src[i];
    }
  }

  /** Every byte string decodes or is refused; what decodes re-encodes to the front of the datagram. */
  function DecodeFrame(b: Bytes): (r: Option<Frame>)
    ensures r.Some? ==> EncodeFrame(r.value) <= b
  {
    if |b| < HEADER_SIZE || b[0] != MAGIC || b[1] != VERSION then None
    else
      var plen := FromUint16(b[19..21]);
      if HEADER_SIZE + plen > |b| then None
      else
        Uint16Exact(b[19..21]);
        assert b[..21 + plen] == [b[0], b[1], b[2]] + b[3..19] + b[19..21] + b[21..21 + plen];
        Some(Frame(b[2], b[3..19], b[21..21 + plen]))
  }

  /** A frame followed by anything decodes to its first bytes, as many as sixteen bits can count. */
  lemma DecodesToCounted(f: Frame, rest: Bytes)
    ensures DecodeFrame(EncodeFrame(f) + rest) == Some(f.(payload := f.payload[..|f.payload| % 65536]))
  {
    var b := EncodeFrame(f) + rest;
    Uint16RoundTrip(|f.payload|);
    assert b[19] == Uint16(|f.payload|)[0] && b[20] == Uint16(|f.payload|)[1];
    assert b[19..21] == [b[19], b[20]];
    assert b[3..19] == f.session;
    assert b[21..21 + |f.payload| % 65536] == f.payload[..|f.payload| % 65536];
  }

  /** Frames round-trip exactly when their payload is below 64 KiB. */
  lemma FrameRoundTrip(f: Frame)
    ensures DecodeFrame(EncodeFrame(f)) == Some(f) <==> |f.payload| < 65536
  {
    DecodesToCounted(f, []);
    assert EncodeFrame(f) + [] == EncodeFrame(f);
  }

  /** A datagram cut short anywhere is refused. */
  lemma TruncatedFrameIsRefused(f: Frame, n: nat)
    requires |f.payload| < 65536 && n < |EncodeFrame(f)|
    ensures DecodeFrame(EncodeFrame(f)[..n]) == None
  {
    if HEADER_SIZE <= n {
      Uint16RoundTrip(|f.payload|);
      var b := EncodeFrame(f);
      assert b[19] == Uint16(|f.payload|)[0] && b[20] == Uint16(|f.payload|)[1];
      assert b[..n][19..21] == [b[19], b[20]];
    }
  }

  // ------------------------------------------------------------------
  // Keyed payloads
  // ------------------------------------------------------------------

  function Shortened(key: Bytes): (r: Bytes) { if |key| > 255 then key[..255] else key }

  function EncodeKeyed(k: Keyed): (b: Bytes)
    ensures |b| == 1 + |Shortened(k.key)| + |k.packet|
  {
    [LowByte(|Shortened(k.key)|)] + Shortened(k.key) + k.packet
  }

  /** What decodes re-encodes to exactly the payload it came from. */
  function DecodeKeyed(b: Bytes): (r: Option<Keyed>)
    ensures r.Some? ==> EncodeKeyed(r.value) == b
  {
    if |b| < 1 || 1 + b[0] as nat > |b| then None
    else
      var kl := b[0] as nat;
      assert b == [LowByte(kl)] + b[1..1 + kl] + b[1 + kl..];
      Some(Keyed(b[1..1 + kl], b[1 + kl..]))
  }

  /** The packet always comes back whole; the key does exactly when it is at most 255 bytes. */
  lemma KeyedRoundTrip(k: Keyed)
    ensures DecodeKeyed(EncodeKeyed(k)) == Some(k.(key := Shortened(k.key)))
    ensures DecodeKeyed(EncodeKeyed(k)) == Some(k) <==> |k.key| <= 255
  {
    var b, n := EncodeKeyed(k), |Shortened(k.key)|;
    assert b[1..1 + n] == Shortened(k.key) && b[1 + n..] == k.packet;
  }

  // ------------------------------------------------------------------
  // HELLO
  // ------------------------------------------------------------------

  function EncodeHello(h: Hello): (r: Bytes) {
    [LowByte(|h.src|)] + h.src + [LowByte(|h.dst|)] + h.dst + h.mac
  }

  /** A parsed HELLO re-encodes to exactly its payload, so no payload reads two ways. */
  function ParseHello(p: Bytes): (r: Option<Hello>)
    ensures r.Some? ==> EncodeHello(r.value) == p
  {
    if |p| < 1 || 1 + p[0] as nat + 1 > |p| then None
    else
      var off := 1 + p[0] as nat;
      var dl := p[off] as nat;
      if off + 1 + dl + 32 != |p| then None
      else
        assert p == [p[0]] + p[1..off] + [p[off]] + p[off + 1..off + 1 + dl] + p[off + 1 + dl..];
        Some(Hello(p[1..off], p[off + 1..off + 1 + dl], p[off + 1 + dl..]))
  }

  /** HELLOs round-trip exactly when both node ids are at most 255 bytes. */
  lemma HelloRoundTrip(h: Hello)
    ensures ParseHello(EncodeHello(h)) == Some(h) <==> |h.src| <= 255 && |h.dst| <= 255
  {
    var p := EncodeHello(h);
    if |h.src| <= 255 {
      var off := 1 + |h.src|;
      assert p[1..off] == h.src && p[off] == LowByte(|h.dst|);
      assert p[off + 1..off + 1 + |h.dst|] == h.dst && p[off + 1 + |h.dst|..] == h.mac;
    }
  }

  // ------------------------------------------------------------------
  // From one node to the other
  // ------------------------------------------------------------------

  /** The sender's size check; a limit of zero or less is no limit. */
  predicate Sendable(limit: int, packet: Bytes) { limit > 0 ==> |packet| <= limit }

  /** What the peer reads from one datagram: no more than its buffer holds. */
  function Receive(datagram: Bytes): (r: Option<Keyed>) {
    var read := if |datagram| > READ_BUFFER then datagram[..READ_BUFFER] else datagram;
    match DecodeFrame(read)
    case None => None
    case Some(f) => DecodeKeyed(f.payload)
  }

  function SendKeyed(kind: byte, session: Session, k: Keyed): (r: Bytes) {
    EncodeFrame(Frame(kind, session, EncodeKeyed(k)))
  }

  /** What a datagram cut to `n` bytes decodes to: the counted part of the payload, if it is there. */
  lemma DecodesCut(f: Frame, n: nat)
    requires HEADER_SIZE <= n <= |EncodeFrame(f)|
    ensures var counted := |f.payload| % 65536;
      DecodeFrame(EncodeFrame(f)[..n]) == if HEADER_SIZE + counted <= n then Some(f.(payload := f.payload[..counted])) else None
  {
    var b, counted := EncodeFrame(f), |f.payload| % 65536;
    Uint16RoundTrip(|f.payload|);
    assert b[19] == Uint16(|f.payload|)[0] && b[20] == Uint16(|f.payload|)[1];
    assert b[..n][19..21] == Uint16(|f.payload|);
    assert b[..n][3..19] == f.session;
    if HEADER_SIZE + counted <= n { assert b[..n][21..21 + counted] == f.payload[..counted]; }
  }

  /** A media packet arrives whole exactly when its frame fits the read buffer. Otherwise nothing
      arrives, unless the payload is so long that its sixteen-bit count wraps to what fits, and then at
      most a part does. */
  lemma ArrivesExactlyWhenItFits(kind: byte, session: Session, k: Keyed)
    ensures var payload, whole := EncodeKeyed(k), Some(k.(key := Shortened(k.key)));
      && (Receive(SendKeyed(kind, session, k)) == whole <==> HEADER_SIZE + |payload| <= READ_BUFFER)
      && Receive(SendKeyed(kind, session, k)) ==
           if HEADER_SIZE + |payload| <= READ_BUFFER then whole
           else if HEADER_SIZE + |payload| % 65536 <= READ_BUFFER then DecodeKeyed(payload[..|payload| % 65536])
           else None
  {
    var f := Frame(kind, session, EncodeKeyed(k));
    FrameRoundTrip(f);
    KeyedRoundTrip(k);
    if |EncodeFrame(f)| > READ_BUFFER {
      DecodesCut(f, READ_BUFFER);
      hide DecodeFrame, EncodeFrame;
      PartIsNotWhole(k, |f.payload| % 65536);
    }
    hide DecodeFrame, EncodeFrame, DecodeKeyed, EncodeKeyed;
  }

  lemma PartIsNotWhole(k: Keyed, n: nat)
    requires n <= |EncodeKeyed(k)|
    ensures n < |EncodeKeyed(k)| ==> DecodeKeyed(EncodeKeyed(k)[..n]) != Some(k.(key := Shortened(k.key)))
  {
    if n < |EncodeKeyed(k)| {
      var r := DecodeKeyed(EncodeKeyed(k)[..n]);
      assert r.Some? ==> |EncodeKeyed(r.value)| == n;
    }
  }

  ghost predicate AlwaysArrives(limit: int) {
    forall kind: byte, session: Session, k: Keyed :: Sendable(limit, k.packet) ==>
      Receive(SendKeyed(kind, session, k)) == Some(k.(key := Shortened(k.key)))
  }

  /** Everything the sender accepts arrives exactly when the packet limit is set and at most 1771. */
  lemma SafePacketLimits(limit: int)
    ensures AlwaysArrives(limit) <==> 0 < limit <= 1771
  {
    if 0 < limit <= 1771 {
      forall kind: byte, session: Session, k: Keyed | Sendable(limit, k.packet)
        ensures Receive(SendKeyed(kind, session, k)) == Some(k.(key := Shortened(k.key)))
      {
        ArrivesExactlyWhenItFits(kind, session, k);
        hide Receive, SendKeyed;
      }
    } else {
      var session: Session := seq(16, _ => 0);
      var k := Keyed(seq(255, _ => 0), seq(1772, _ => 0));
      ArrivesExactlyWhenItFits(FRAME_RTP, session, k);
      hide Receive, SendKeyed, EncodeKeyed;
      assert Sendable(limit, k.packet);
    }
  }

  // ------------------------------------------------------------------
  // Where the bytes are
  // ------------------------------------------------------------------

  /** Magic, version and type, sixteen bytes of session, the payload's length with the high byte first
      as far as two bytes count, and the payload from byte 21 on. */
  lemma FrameLayout(f: Frame)
    ensures var b := EncodeFrame(f);
      && |b| == 21 + |f.payload| && b[0] == 0x9C && b[1] == 0x01 && b[2] == f.kind && b[3..19] == f.session
      && b[19] as nat * 256 + b[20] as nat == |f.payload| % 65536 && b[21..] == f.payload
  {
    var b := EncodeFrame(f);
    Uint16RoundTrip(|f.payload|);
    assert b[19..21] == Uint16(|f.payload|) && b[19] == b[19..21][0] && b[20] == b[19..21][1];
  }

  /** The key's length, the key, of which 255 bytes at most, and the packet. */
  lemma KeyedLayout(k: Keyed)
    ensures var b, n := EncodeKeyed(k), if |k.key| < 255 then |k.key| else 255;
      |b| == 1 + n + |k.packet| && b[0] as nat == n && b[1..1 + n] == k.key[..n] && b[1 + n..] == k.packet
  {
    var n := |Shortened(k.key)|;
    assert Shortened(k.key) == k.key[..n];
    assert EncodeKeyed(k)[1..1 + n] == Shortened(k.key) && EncodeKeyed(k)[1 + n..] == k.packet;
  }

  /** Each node id after its length, of which one byte is kept, and the code last. */
  lemma HelloLayout(h: Hello)
    ensures var p, d := EncodeHello(h), 1 + |h.src|;
      && |p| == d + 1 + |h.dst| + 32 && p[0] as nat == |h.src| % 256 && p[1..d] == h.src
      && p[d] as nat == |h.dst| % 256 && p[d + 1..d + 1 + |h.dst|] == h.dst && p[d + 1 + |h.dst|..] == h.mac
  {
    var p, d := EncodeHello(h), 1 + |h.src|;
    assert p[1..d] == h.src && p[d + 1..d + 1 + |h.dst|] == h.dst && p[d + 1 + |h.dst|..] == h.mac;
  }
}
