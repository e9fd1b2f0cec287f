/** The PONG frame of the LumaSync v1 serial handshake, and the reader that finds one in a
    byte stream however the port cuts that stream into reads. */
module Pong {

  type byte = bv8

  const MAGIC_HI: byte := 0xAA
  const MAGIC_LO: byte := 0x55
  const OPCODE_PING: byte := 0x10
  const OPCODE_PONG: byte := 0x11
  const PONG_FRAME_LEN: nat := 7

  const FRAMING_LUMASYNC_V1: byte := 0x1
  const FRAMING_ADALIGHT: byte := 0x2
  const LAYOUT_RGB: byte := 0x0
  const LAYOUT_RGBW: byte := 0x1

  const MIN_FW_VERSION: bv16 := 0x0100
  const MAX_FW_MAJOR: byte := 1

  datatype FirmwareProfile = LumaSyncV1 | Adalight
  datatype PixelLayout = Rgb | Rgbw

  datatype PongResponse = PongResponse(version: bv16, profile: FirmwareProfile, layout: PixelLayout) {
    function Major(): byte {
      (version >> 8) as byte
    }

    predicate IsVersionSupported() {
      version >= MIN_FW_VERSION && Major() <= MAX_FW_MAJOR
    }
  }

  datatype HandshakeError =
    | BadMagic
    | WrongOpcode
    | BadChecksum
    | TooShort
    | UnknownProfile
    | UnknownPixelLayout

  datatype Decoded = Accepted(pong: PongResponse) | Refused(error: HandshakeError)

  function XorFold(bytes: seq<byte>): byte {
    if bytes == [] then 0 else XorFold(bytes[..|bytes| - 1]) ^ bytes[|bytes| - 1]
  }

  function EncodePing(): seq<byte> {
    var header := [MAGIC_HI, MAGIC_LO, OPCODE_PING, 0];
    header + [XorFold(header)]
  }

  function DecodeProfile(format: byte): (r: (bool, FirmwareProfile)) {
    if format & 0x0F == FRAMING_LUMASYNC_V1 then (true, LumaSyncV1)
    else if format & 0x0F == FRAMING_ADALIGHT then (true, Adalight)
    else (false, LumaSyncV1)
  }

  function DecodeLayout(format: byte, profile: FirmwareProfile): (r: (bool, PixelLayout)) {
    if format >> 4 == LAYOUT_RGB then (true, Rgb)
    else if format >> 4 == LAYOUT_RGBW && profile == LumaSyncV1 then (true, Rgbw)
    else (false, Rgb)
  }

  /** `decode_handshake_pong`: the checks in the order the host makes them. */
  function Decode(bytes: seq<byte>): Decoded {
    if |bytes| < 7 then Refused(TooShort)
    else if bytes[0] != MAGIC_HI || bytes[1] != MAGIC_LO then Refused(BadMagic)
    else if bytes[2] != OPCODE_PONG then Refused(WrongOpcode)
    else if bytes[6] != XorFold(bytes[..6]) then Refused(BadChecksum)
    else
      var version := ((bytes[4] as bv16) << 8) | (bytes[3] as bv16);
      var (knownProfile, profile) := DecodeProfile(bytes[5]);
      if !knownProfile then Refused(UnknownProfile)
      else
        var (knownLayout, layout) := DecodeLayout(bytes[5], profile);
        if !knownLayout then Refused(UnknownPixelLayout)
        else Accepted(PongResponse(version, profile, layout))
  }

  // -------------------------------------------------------------------------
  // The documented encoder, and why decoding inverts it
  // -------------------------------------------------------------------------

  /** The format byte of the frame table: framing in the low nibble, layout in the high one. */
  function FormatByte(profile: FirmwareProfile, layout: PixelLayout): byte {
    var framing := if profile == LumaSyncV1 then FRAMING_LUMASYNC_V1 else FRAMING_ADALIGHT;
    var pixels := if layout == Rgb then LAYOUT_RGB else LAYOUT_RGBW;
    (pixels << 4) | framing
  }

  /** Adalight has no four-byte pixel. */
  predicate WellFormed(p: PongResponse) {
    p.layout == Rgbw ==> p.profile == LumaSyncV1
  }

  function Body(p: PongResponse): seq<byte> {
    [MAGIC_HI, MAGIC_LO, OPCODE_PONG, (p.version & 0xFF) as byte, (p.version >> 8) as byte,
     FormatByte(p.profile, p.layout)]
  }

  function Encode(p: PongResponse): seq<byte> {
    Body(p) + [XorFold(Body(p))]
  }

  lemma VersionBytes(v: bv16, lo: byte, hi: byte)
    ensures (((v >> 8) as byte as bv16) << 8) | ((v & 0xFF) as byte as bv16) == v
    ensures ((((hi as bv16) << 8) | (lo as bv16)) & 0xFF) as byte == lo
    ensures ((((hi as bv16) << 8) | (lo as bv16)) >> 8) as byte == hi
  {
  }

  lemma FormatByteInverts(format: byte)
    ensures forall p, l :: WellFormed(PongResponse(0, p, l)) ==>
      DecodeProfile(FormatByte(p, l)) == (true, p) && DecodeLayout(FormatByte(p, l), p) == (true, l)
    ensures DecodeProfile(format).0 && DecodeLayout(format, DecodeProfile(format).1).0 ==>
      FormatByte(DecodeProfile(format).1, DecodeLayout(format, DecodeProfile(format).1).1) == format
  {
  }

  lemma DecodeInvertsEncode(p: PongResponse)
    requires WellFormed(p)
    ensures |Encode(p)| == PONG_FRAME_LEN
    ensures Decode(Encode(p)) == Accepted(p)
  {
    var f := Encode(p);
    assert f[..6] == Body(p);
    VersionBytes(p.version, 0, 0);
    FormatByteInverts(f[5]);
    assert WellFormed(PongResponse(0, p.profile, p.layout));
  }

  lemma EncodeInvertsDecode(f: seq<byte>)
    requires |f| == PONG_FRAME_LEN && Decode(f).Accepted?
    ensures WellFormed(Decode(f).pong)
    ensures Encode(Decode(f).pong) == f
  {
    var p := Decode(f).pong;
    VersionBytes(0, f[3], f[4]);
    FormatByteInverts(f[5]);
    assert Body(p) == f[..6];
  }

  /** Accepted 7-byte frames and well-formed responses are in bijection. */
  lemma AcceptedFramesAreExactlyTheEncodings(f: seq<byte>)
    requires |f| == PONG_FRAME_LEN
    ensures Decode(f).Accepted? <==> exists p :: WellFormed(p) && Encode(p) == f
  {
    if Decode(f).Accepted? {
      EncodeInvertsDecode(f);
    } else {
      forall p | WellFormed(p)
        ensures Encode(p) != f
      {
        DecodeInvertsEncode(p);
      }
    }
  }

  lemma XorOfNothing()
    ensures XorFold([]) == 0
  {
  }

  lemma XorOfOneMore(bytes: seq<byte>, b: byte)
    ensures XorFold(bytes + [b]) == XorFold(bytes) ^ b
  {
    assert (bytes + [b])[..|bytes|] == bytes;
  }

  /** The ping is five bytes, the last of them right. */
  lemma ThePing()
    ensures EncodePing() == [0xAA, 0x55, 0x10, 0x00, 0xEF]
  {
    XorOfNothing();
    XorOfOneMore([], MAGIC_HI);
    XorOfOneMore([MAGIC_HI], MAGIC_LO);
    XorOfOneMore([MAGIC_HI, MAGIC_LO], OPCODE_PING);
    XorOfOneMore([MAGIC_HI, MAGIC_LO, OPCODE_PING], 0);
    hide XorFold;
    assert [] + [MAGIC_HI] == [MAGIC_HI];
    assert [MAGIC_HI] + [MAGIC_LO] == [MAGIC_HI, MAGIC_LO];
    assert [MAGIC_HI, MAGIC_LO] + [OPCODE_PING] == [MAGIC_HI, MAGIC_LO, OPCODE_PING];
    assert [MAGIC_HI, MAGIC_LO, OPCODE_PING] + [0] == [MAGIC_HI, MAGIC_LO, OPCODE_PING, 0];
    PingSum();
  }

  lemma PingSum()
    ensures 0 ^ MAGIC_HI ^ MAGIC_LO ^ OPCODE_PING ^ 0 == 0xEF
  {
  }

  /** One changed byte anywhere in an accepted frame is always noticed. */
  lemma OneChangedByteIsRejected(f: seq<byte>, k: nat, b: byte)
    requires |f| == PONG_FRAME_LEN && Decode(f).Accepted?
    requires k < PONG_FRAME_LEN && b != f[k]
    ensures Decode(f[k := b]).Refused?
    ensures Decode(f[k := b]).error == if k < 2 then BadMagic else if k == 2 then WrongOpcode else BadChecksum
  {
    var g := f[k := b];
    if k == 6 {
      assert g[..6] == f[..6];
    } else if k >= 3 {
      ChecksumSeesEveryByte(f[..6], k, b);
      assert g[..6] == f[..6][k := b];
    }
    hide XorFold;
  }

  lemma {:induction false} ChecksumSeesEveryByte(body: seq<byte>, k: nat, b: byte)
    requires k < |body| && b != body[k]
    ensures XorFold(body[k := b]) != XorFold(body)
  {
    var n := |body| - 1;
    if k == n {
      assert body[k := b][..n] == body[..n];
      XorCancels(XorFold(body[..n]), b, body[n]);
    } else {
      assert body[k := b][..n] == body[..n][k := b];
      ChecksumSeesEveryByte(body[..n], k, b);
      XorCancels(body[n], XorFold(body[..n][k := b]), XorFold(body[..n]));
    }
  }

  lemma XorCancels(x: byte, y: byte, z: byte)
    requires y != z
    ensures x ^ y != x ^ z
    ensures y ^ x != z ^ x
  {
  }

  /** The window the host speaks to is exactly every 1.x release. */
  lemma VersionWindow(p: PongResponse)
    ensures p.IsVersionSupported() <==> 0x0100 <= p.version <= 0x01FF
  {
  }
}
