/** The LED packets of the serial link, over pixels already corrected: what the wire budget counts, and
    what the firmware reads back. */
module WirePackets {
  import opened Arith
  import opened Frames
  import opened WireBudget

  const U16_MAX: nat := 0xFFFF
  const LED_MAGIC: seq<u8> := [0xAA, 0x55]
  const ADALIGHT_MAGIC: seq<u8> := [0x41, 0x64, 0x61]
  const ADALIGHT_CHECK: u8 := 0x55

  // -------------------------------------------------------------------------
  // The checksum
  // -------------------------------------------------------------------------

  function Power(bits: nat): nat {
    if bits == 0 then 1 else 2 * Power(bits - 1)
  }

  lemma EightBits()
    ensures Power(8) == 256
  {
    assert Power(4) == 16 && Power(6) == 64;
  }

  /** Exclusive or, bit by bit from the lowest. */
  function XorBits(a: nat, b: nat, bits: nat): nat {
    if bits == 0 then 0 else 2 * XorBits(a / 2, b / 2, bits - 1) + (a % 2 + b % 2) % 2
  }

  lemma {:induction false} XorFits(a: nat, b: nat, bits: nat)
    ensures XorBits(a, b, bits) < Power(bits)
  {
    if bits > 0 {
      XorFits(a / 2, b / 2, bits - 1);
    }
  }

  lemma {:induction false} XorTellsApart(a: nat, b: nat, c: nat, bits: nat)
    requires a < Power(bits) && b < Power(bits) && a != b
    ensures XorBits(a, c, bits) != XorBits(b, c, bits)
    ensures XorBits(c, a, bits) != XorBits(c, b, bits)
  {
    if bits > 0 && a / 2 != b / 2 {
      XorTellsApart(a / 2, b / 2, c / 2, bits - 1);
    }
  }

  function Xor(a: u8, b: u8): u8 {
    XorFits(a, b, 8);
    EightBits();
    XorBits(a, b, 8)
  }

  function XorSum(bytes: seq<u8>): u8 {
    if bytes == [] then 0 else Xor(XorSum(bytes[..|bytes| - 1]), bytes[|bytes| - 1])
  }

  /** A byte changed is a sum changed. */
  lemma {:induction false} SumSeesEveryByte(bytes: seq<u8>, k: nat, b: u8)
    requires k < |bytes| && b != bytes[k]
    ensures XorSum(bytes[k := b]) != XorSum(bytes)
  {
    hide Xor;
    var n := |bytes| - 1;
    if k == n {
      assert bytes[k := b][..n] == bytes[..n];
      BytesTellApart(b, bytes[n], XorSum(bytes[..n]));
    } else {
      assert bytes[k := b][..n] == bytes[..n][k := b];
      SumSeesEveryByte(bytes[..n], k, b);
      BytesTellApart(XorSum(bytes[..n][k := b]), XorSum(bytes[..n]), bytes[n]);
    }
  }

  lemma BytesTellApart(a: u8, b: u8, c: u8)
    requires a != b
    ensures Xor(a, c) != Xor(b, c) && Xor(c, a) != Xor(c, b)
  {
    EightBits();
    XorTellsApart(a, b, c, 8);
    hide XorBits, Power;
  }

  // -------------------------------------------------------------------------
  // Packets
  // -------------------------------------------------------------------------

  /** `extract_rgbw`: what all three channels have in common moves to the white one. */
  function ExtractRgbw(p: Rgb): (bytes: seq<u8>)
    ensures |bytes| == 4
  {
    var w := Min(Min(p.r, p.g), p.b);
    [p.r - w, p.g - w, p.b - w, w]
  }

  function OnWire(p: Rgb, width: nat): (bytes: seq<u8>)
    requires width == 3 || width == 4
    ensures |bytes| == width
  {
    if width == 3 then [p.r, p.g, p.b] else ExtractRgbw(p)
  }

  function Packed(pixels: seq<Rgb>, width: nat): (bytes: seq<u8>)
    requires width == 3 || width == 4
    ensures |bytes| == |pixels| * width
  {
    if pixels == [] then []
    else
      OneMorePixel(|pixels|, width);
      Packed(pixels[..|pixels| - 1], width) + OnWire(pixels[|pixels| - 1], width)
  }

  lemma OneMorePixel(n: nat, width: nat)
    requires n > 0
    ensures (n - 1) * width + width == n * width
  {
  }

  /** A number in a header's u16. */
  function AsU16(n: nat): nat {
    Min(n, U16_MAX)
  }

  function Low(n: nat): u8 {
    n % 256
  }

  function High(n: nat): u8 {
    n / 256 % 256
  }

  function LumaSyncBody(brightness: u8, pixels: seq<Rgb>, width: nat): seq<u8>
    requires width == 3 || width == 4
  {
    LED_MAGIC + [brightness, Low(AsU16(|pixels|)), High(AsU16(|pixels|))] + Packed(pixels, width)
  }

  function LumaSyncPacket(brightness: u8, pixels: seq<Rgb>, width: nat): seq<u8>
    requires width == 3 || width == 4
  {
    var body := LumaSyncBody(brightness, pixels, width);
    body + [XorSum(body)]
  }

  function AdalightPacket(pixels: seq<Rgb>): seq<u8> {
    var last := AsU16(SaturatingSub(|pixels|, 1));
    ADALIGHT_MAGIC + [High(last), Low(last), Xor(Xor(High(last), Low(last)), ADALIGHT_CHECK)] + Packed(pixels, 3)
  }

  // -------------------------------------------------------------------------
  // The encoders
  // -------------------------------------------------------------------------

  /** The pixel loop both framings share. */
  method AppendPixels(packet: seq<u8>, pixels: seq<Rgb>, width: nat) returns (extended: seq<u8>)
    requires width == 3 || width == 4
    ensures extended == packet + Packed(pixels, width)
  {
    hide OnWire;
    extended := packet;
    for k := 0 to |pixels|
      invariant extended == packet + Packed(pixels[..k], width)
    {
      assert pixels[..k + 1][..k] == pixels[..k];
      extended := extended + OnWire(pixels[k], width);
    }
    assert pixels[..|pixels|] == pixels;
  }

  method Checksum(packet: seq<u8>) returns (sum: u8)
    ensures sum == XorSum(packet)
  {
    hide Xor;
    sum := 0;
    for k := 0 to |packet|
      invariant sum == XorSum(packet[..k])
    {
      assert packet[..k + 1][..k] == packet[..k];
      sum := Xor(sum, packet[k]);
    }
    assert packet[..|packet|] == packet;
  }

  /** `encode_lumasync_v1_packet` and, at four bytes a pixel, `encode_sk6812_packet`. */
  method EncodeLumaSync(brightness: u8, pixels: seq<Rgb>, width: nat) returns (packet: seq<u8>)
    requires width == 3 || width == 4
    ensures packet == LumaSyncPacket(brightness, pixels, width)
  {
    var count := AsU16(|pixels|);
    packet := AppendPixels(LED_MAGIC + [brightness, Low(count), High(count)], pixels, width);
    var sum := Checksum(packet);
    packet := packet + [sum];
  }

  method EncodeAdalight(pixels: seq<Rgb>) returns (packet: seq<u8>)
    ensures packet == AdalightPacket(pixels)
  {
    var last := AsU16(SaturatingSub(|pixels|, 1));
    packet := AppendPixels(
      ADALIGHT_MAGIC + [High(last), Low(last), Xor(Xor(High(last), Low(last)), ADALIGHT_CHECK)], pixels, 3);
  }

  // -------------------------------------------------------------------------
  // What the budget counts
  // -------------------------------------------------------------------------

  /** Every packet is as long as the budget says, in either framing and either pixel width. */
  lemma PacketsAreAsLongAsBudgeted(brightness: u8, pixels: seq<Rgb>, width: nat)
    requires width == 3 || width == 4
    ensures |LumaSyncPacket(brightness, pixels, width)| == FrameWireBytes(|pixels|, width)
    ensures |AdalightPacket(pixels)| == FrameWireBytes(|pixels|, 3)
  {
    hide Packed, XorSum, Xor, Low, High, AsU16;
  }

  // -------------------------------------------------------------------------
  // What the firmware reads
  // -------------------------------------------------------------------------

  /** Pixel `k` stands whole at its place in the packed pixels. */
  lemma {:induction false} PixelsStandInOrder(pixels: seq<Rgb>, width: nat, k: nat, at: nat)
    requires (width == 3 || width == 4) && k < |pixels| && at == k * width
    ensures at + width <= |Packed(pixels, width)|
    ensures Packed(pixels, width)[at..at + width] == OnWire(pixels[k], width)
  {
    hide OnWire;
    var init := pixels[..|pixels| - 1];
    PackedLast(pixels, width);
    if k < |init| {
      PixelsStandInOrder(init, width, k, at);
      SliceOfPrefix(Packed(init, width), OnWire(pixels[|init|], width), at, at + width);
    } else {
      assert at == |Packed(init, width)|;
    }
  }

  lemma PackedLast(pixels: seq<Rgb>, width: nat)
    requires (width == 3 || width == 4) && pixels != []
    ensures Packed(pixels, width) == Packed(pixels[..|pixels| - 1], width) + OnWire(pixels[|pixels| - 1], width)
  {
  }

  lemma SliceOfPrefix(s: seq<u8>, t: seq<u8>, i: nat, j: nat)
    requires i <= j <= |s|
    ensures (s + t)[i..j] == s[i..j]
  {
  }

  /** The light a four-byte pixel asks for is the pixel's own: white and the rest of each channel add
      up to it, and as much as can be is left to white. */
  lemma WhiteTakesWhatIsCommon(p: Rgb)
    ensures
      var b := ExtractRgbw(p);
      && b[0] + b[3] == p.r && b[1] + b[3] == p.g && b[2] + b[3] == p.b
      && (b[0] == 0 || b[1] == 0 || b[2] == 0)
  {
  }

  /** The count in a LumaSync header, and the one an Adalight header stands for. */
  function CountOf(packet: seq<u8>): nat
    requires |packet| >= 5
  {
    var high: nat, low: nat := packet[4], packet[3];
    256 * high + low
  }

  function AdalightCountOf(packet: seq<u8>): nat
    requires |packet| >= 5
  {
    var high: nat, low: nat := packet[3], packet[4];
    256 * high + low + 1
  }

  lemma BytesOfCount(n: nat)
    requires n <= U16_MAX
    ensures 256 * High(n) + Low(n) == n
  {
  }

  /** LumaSync counts right exactly up to 65535 pixels; Adalight exactly from 1 to 65536, an empty frame
      reading as one of a single pixel. */
  lemma HeadersCount(brightness: u8, pixels: seq<Rgb>, width: nat)
    requires width == 3 || width == 4
    ensures CountOf(LumaSyncPacket(brightness, pixels, width)) == |pixels| <==> |pixels| <= U16_MAX
    ensures AdalightCountOf(AdalightPacket(pixels)) == |pixels| <==> 1 <= |pixels| <= U16_MAX + 1
  {
    hide Packed, XorSum, Xor, Low, High;
    BytesOfCount(AsU16(|pixels|));
    BytesOfCount(AsU16(SaturatingSub(|pixels|, 1)));
  }

  /** The pixels follow the header, whole and in order. */
  lemma PixelsAreRead(brightness: u8, pixels: seq<Rgb>, width: nat, k: nat, at: nat)
    requires (width == 3 || width == 4) && k < |pixels| && at == k * width
    ensures at + width < |LumaSyncPacket(brightness, pixels, width)| - 5
    ensures LumaSyncPacket(brightness, pixels, width)[5 + at..5 + at + width] == OnWire(pixels[k], width)
  {
    PixelsStandInOrder(pixels, width, k, at);
    hide Packed, XorSum, Low, High, AsU16, OnWire;
    var packet, pack := LumaSyncPacket(brightness, pixels, width), Packed(pixels, width);
    assert packet[5..5 + |pack|] == pack;
    assert packet[5 + at..5 + at + width] == packet[5..5 + |pack|][at..at + width];
  }

  /** One byte changed anywhere in a LumaSync packet shows in its checksum. */
  lemma OneChangedByteShows(brightness: u8, pixels: seq<Rgb>, width: nat, k: nat, b: u8)
    requires width == 3 || width == 4
    requires
      var packet := LumaSyncPacket(brightness, pixels, width);
      k < |packet| && b != packet[k]
    ensures
      var damaged := LumaSyncPacket(brightness, pixels, width)[k := b];
      damaged[|damaged| - 1] != XorSum(damaged[..|damaged| - 1])
  {
    hide LumaSyncBody, XorSum;
    var body := LumaSyncBody(brightness, pixels, width);
    var damaged := LumaSyncPacket(brightness, pixels, width)[k := b];
    if k < |body| {
      assert damaged[..|body|] == body[k := b];
      SumSeesEveryByte(body, k, b);
    } else {
      assert damaged[..|body|] == body;
    }
  }
}
