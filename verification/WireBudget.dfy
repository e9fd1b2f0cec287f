/** How long a frame takes on the serial link, and how often the worker sends one. */
module WireBudget {
  import opened Arith

  const SERIAL_LINK_BYTES_PER_SEC: nat := 11520
  const LED_FRAME_HEADER_BYTES: nat := 6
  const U64_MAX: nat := 0xFFFF_FFFF_FFFF_FFFF

  function FrameWireBytes(leds: nat, bytesPerPixel: nat): nat {
    leds * Max(bytesPerPixel, 1) + LED_FRAME_HEADER_BYTES
  }

  function SaturatingMul(a: nat, b: nat): nat {
    if a * b <= U64_MAX then a * b else U64_MAX
  }

  /** `frame_wire_time_ms`, of a frame of so many bytes. */
  function WireTimeMs(bytes: nat): nat {
    Max(DivCeil(SaturatingMul(bytes, 1000), SERIAL_LINK_BYTES_PER_SEC), 1)
  }

  function Clamp(n: nat, lo: nat, hi: nat): nat {
    if n < lo then lo else if n > hi then hi else n
  }

  /** `derive_base_interval_ms_for`, of a frame of so many bytes. */
  function BaseIntervalMs(bytes: nat): nat {
    var maxFps := SERIAL_LINK_BYTES_PER_SEC / Max(bytes, 1);
    var targetFps := Clamp(maxFps, 10, 60);
    Max(1000 / targetFps, 16)
  }

  /** What the link can shift in `ms` milliseconds covers the frame. */
  predicate Covers(ms: nat, bytes: nat) {
    ms * SERIAL_LINK_BYTES_PER_SEC >= bytes * 1000
  }

  /** The wire time is the least positive whole millisecond the link needs. */
  lemma WireTimeIsLeast(bytes: nat, ms: nat)
    requires bytes * 1000 <= U64_MAX && ms >= 1
    ensures WireTimeMs(bytes) >= 1
    ensures Covers(ms, bytes) <==> WireTimeMs(bytes) <= ms
  {
  }

  /** Past what a u64 holds the wire time stays where it is. */
  lemma WireTimeSaturates(bytes: nat)
    requires bytes * 1000 >= U64_MAX
    ensures
      var ms := WireTimeMs(bytes);
      (ms - 1) * SERIAL_LINK_BYTES_PER_SEC < U64_MAX <= ms * SERIAL_LINK_BYTES_PER_SEC
  {
  }

  /** The rate is the greatest whole one from 10 to 60 that the link carries, or 10 if it carries none:
      the interval is no longer than a carried rate needs, nor shorter than one not carried allows. */
  lemma TheRateIsTheGreatestCarried(bytes: nat, fps: nat)
    requires bytes >= 1 && 10 <= fps <= 60
    ensures fps * bytes <= SERIAL_LINK_BYTES_PER_SEC ==> BaseIntervalMs(bytes) <= Max(1000 / fps, 16)
    ensures fps * bytes > SERIAL_LINK_BYTES_PER_SEC && fps > 10 ==> BaseIntervalMs(bytes) >= 1000 / (fps - 1)
  {
    var most := SERIAL_LINK_BYTES_PER_SEC / bytes;
    QuotientOf(SERIAL_LINK_BYTES_PER_SEC, bytes);
    if fps * bytes <= SERIAL_LINK_BYTES_PER_SEC {
      IntScaleOrder(fps, most + 1, bytes);
      QuotientFalls(1000, fps, Clamp(most, 10, 60));
    } else {
      IntScaleOrder(most, fps, bytes);
      if fps > 10 {
        QuotientFalls(1000, Clamp(most, 10, 60), fps - 1);
      }
    }
  }

  predicate IsQuotient(n: nat, a: nat, p: nat) {
    p * a <= n < (p + 1) * a
  }

  lemma QuotientOf(n: nat, a: nat)
    requires a > 0
    ensures IsQuotient(n, a, n / a)
  {
  }

  lemma FewerFit(n: nat, a: nat, b: nat, p: nat, q: nat)
    requires 0 < a <= b && IsQuotient(n, a, p) && IsQuotient(n, b, q)
    ensures q <= p
  {
    IntScaleOrder(q, p + 1, a);
    ProductIsNat(q, b - a);
    assert q * b == q * a + q * (b - a);
  }

  lemma QuotientFalls(n: nat, a: nat, b: nat)
    requires 0 < a <= b
    ensures n / b <= n / a
  {
    hide IsQuotient;
    QuotientOf(n, a);
    QuotientOf(n, b);
    FewerFit(n, a, b, n / a, n / b);
  }

  /** The interval stays between 16 and 100 ms and never shrinks as frames grow, whether by LEDs or
      by bytes per pixel. */
  lemma IntervalIsBoundedAndMonotone(leds: nat, bpp: nat, leds': nat, bpp': nat)
    requires leds <= leds' && bpp <= bpp'
    ensures 16 <= BaseIntervalMs(FrameWireBytes(leds, bpp)) <= 100
    ensures BaseIntervalMs(FrameWireBytes(leds, bpp)) <= BaseIntervalMs(FrameWireBytes(leds', bpp'))
  {
    var a, b := FrameWireBytes(leds, bpp), FrameWireBytes(leds', bpp');
    BytesGrow(leds, bpp, leds', bpp');
    QuotientFalls(SERIAL_LINK_BYTES_PER_SEC, a, b);
    IntervalFalls(SERIAL_LINK_BYTES_PER_SEC / a, SERIAL_LINK_BYTES_PER_SEC / b);
  }

  lemma BytesGrow(leds: nat, bpp: nat, leds': nat, bpp': nat)
    requires leds <= leds' && bpp <= bpp'
    ensures FrameWireBytes(leds, bpp) <= FrameWireBytes(leds', bpp')
  {
    assert leds * Max(bpp, 1) <= leds' * Max(bpp, 1) <= leds' * Max(bpp', 1);
  }

  lemma IntervalFalls(fps: nat, slower: nat)
    requires slower <= fps
    ensures 16 <= Max(1000 / Clamp(fps, 10, 60), 16) <= Max(1000 / Clamp(slower, 10, 60), 16) <= 100
  {
    QuotientFalls(1000, Clamp(slower, 10, 60), Clamp(fps, 10, 60));
    QuotientFalls(1000, 10, Clamp(slower, 10, 60));
  }

  /** The interval is within a millisecond of what the link needs exactly up to 1163 bytes; past that
      the 10 fps floor holds it at 100 ms however long the frame. */
  lemma IntervalFitsUpTo1163Bytes(bytes: nat)
    requires 1 <= bytes && bytes * 1000 <= U64_MAX
    ensures WireTimeMs(bytes) <= BaseIntervalMs(bytes) + 1 <==> bytes <= 1163
    ensures bytes > 1152 ==> BaseIntervalMs(bytes) == 100
  {
    if bytes <= 192 {
      WireTimeIsLeast(bytes, 17);
      IntervalFalls(SERIAL_LINK_BYTES_PER_SEC / bytes, 0);
    } else if bytes <= 1152 {
      var fps := SERIAL_LINK_BYTES_PER_SEC / bytes;
      QuotientFalls(SERIAL_LINK_BYTES_PER_SEC, bytes, 1152);
      QuotientFalls(SERIAL_LINK_BYTES_PER_SEC, 192, bytes);
      NextWholeIntervalCovers(bytes, fps);
      WireTimeIsLeast(bytes, 1000 / fps + 1);
    } else {
      QuotientFalls(SERIAL_LINK_BYTES_PER_SEC, 1153, bytes);
      WireTimeIsLeast(bytes, 101);
    }
  }

  /** One millisecond past the whole part of a frame period covers any frame the rate allows. */
  lemma NextWholeIntervalCovers(bytes: nat, fps: nat)
    requires fps > 0 && fps * bytes <= SERIAL_LINK_BYTES_PER_SEC
    ensures Covers(1000 / fps + 1, bytes)
  {
  }

  /** Past the floor the shortfall grows without bound: pacing alone cannot keep a long strip inside
      its link. */
  lemma ShortfallIsUnbounded(shortfall: nat)
    requires (1152 + 12 * shortfall) * 1000 <= U64_MAX
    ensures WireTimeMs(1152 + 12 * shortfall) >= BaseIntervalMs(1152 + 12 * shortfall) + shortfall
  {
  }
}
