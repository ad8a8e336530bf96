/** Mu-law companding of linear samples (ITU-T G.711 section 3). */
module G711 {
  import opened Common

  const BIAS := 0x84
  /** The largest magnitude that is not clipped. */
  const CLIP := 32635
  const SATURATED := 32124
  const SEG_END: seq<int> := [0xFF, 0x1FF, 0x3FF, 0x7FF, 0xFFF, 0x1FFF, 0x3FFF, 0x7FFF]

  function Abs(x: int): nat { if x < 0 then -x else x }

  /** 2 to the power of a segment number. */
  function Pow2(seg: nat): (p: nat)
    requires seg < 8
    ensures p >= 1
  {
    if seg == 0 then 1 else 2 * Pow2(seg - 1)
  }

  // ---------------------------------------------------------------------------------------------
  // The code

  /** The first entry of a table that is not below a value; its size when there is none. */
  ghost predicate IsSearched(val: int, table: seq<int>, i: nat) {
    i <= |table| && (i < |table| ==> val <= table[i]) && forall j | 0 <= j < i :: val > table[j]
  }

  method Search(val: int, table: seq<int>) returns (i: nat)
    ensures IsSearched(val, table, i)
  {
    i := 0;
    while i < |table|
      invariant i <= |table| && forall j | 0 <= j < i :: val > table[j]
    {
      if val <= table[i] {
        return;
      }
      i := i + 1;
    }
  }

  function Segment(v: int): (s: nat)
    ensures s <= 8
  {
    if v <= 0xFF then 0 else if v <= 0x1FF then 1 else if v <= 0x3FF then 2 else if v <= 0x7FF then 3
    else if v <= 0xFFF then 4 else if v <= 0x1FFF then 5 else if v <= 0x3FFF then 6 else if v <= 0x7FFF then 7 else 8
  }

  lemma SearchFindsSegment(v: int, i: nat)
    requires IsSearched(v, SEG_END, i)
    ensures i == Segment(v)
  {
    var s := Segment(v);
    if i < s {
      assert v <= SEG_END[i];
    } else if s < i {
      assert v > SEG_END[s];
    }
  }

  /** Segment and quantization bits, before the complement. */
  function Quantized(v: nat): (u: nat)
    requires Segment(v) < 8
    ensures u < 0x80
  {
    var s := Segment(v);
    s * 16 + v / (8 * Pow2(s)) % 16
  }

  function Linear2Ulaw(x: int): (u: Byte) {
    var v := Abs(x) + BIAS;
    var code := if Segment(v) < 8 then Quantized(v) else 0x7F;
    if x < 0 then 0x7F - code else 0xFF - code
  }

  /** Magnitude of a complemented code. */
  function Expanded(code: nat): (t: nat)
    requires code < 0x80
  {
    (code % 16 * 8 + BIAS) * Pow2(code / 16)
  }

  function Ulaw2Linear(u: Byte): (x: int) {
    var c := 0xFF - u;
    if c >= 0x80 then BIAS - Expanded(c - 0x80) else Expanded(c) - BIAS
  }

  /** What a code decodes to: its complement's top bit is the sign, the next three bits number the segment
      and the last four the step in it, the middle of which is meant. */
  lemma DecodedValue(u: Byte, s: nat, q: nat)
    requires s < 8 && q < 16 && (255 - u) % 128 == 16 * s + q
    ensures var magnitude := (2 * q + 33) * (4 * [1, 2, 4, 8, 16, 32, 64, 128][s]) - 132;
      Ulaw2Linear(u) == if u < 128 then -magnitude else magnitude
  {
    Powers();
    var p := Pow2(s);
    assert [1, 2, 4, 8, 16, 32, 64, 128][s] == p by {
      if s == 0 {} else if s == 1 {} else if s == 2 {} else if s == 3 {} else if s == 4 {} else if s == 5 {} else if s == 6 {} else {}
    }
    var c := 255 - u;
    var code := c % 128;
    assert code == if c >= 128 then c - 128 else c;
    assert code / 16 == s && code % 16 == q;
    assert (q * 8 + BIAS) * p == (2 * q + 33) * (4 * p) by { Same(q, p); }
    hide Pow2;
  }

  lemma Same(q: nat, p: nat)
    ensures (q * 8 + 132) * p == (2 * q + 33) * (4 * p)
  {}

  method Linear2UlawByTable(pcm: int) returns (u: Byte)
    ensures u == Linear2Ulaw(pcm)
  {
    hide Quantized;
    var val, mask := pcm, 0;
    if val < 0 {
      val := BIAS - val;
      mask := 0x7F;
    } else {
      val := val + BIAS;
      mask := 0xFF;
    }
    var seg := Search(val, SEG_END);
    SearchFindsSegment(val, seg);
    if seg >= 8 {
      u := mask - 0x7F;
    } else {
      u := mask - Quantized(val);
    }
  }

  // ---------------------------------------------------------------------------------------------
  // Within a segment

  /** The sixteen steps of segment `s` are 8 * 2^s wide, from 128 * 2^s on. */
  lemma SegmentBounds(v: nat)
    requires BIAS <= v && Segment(v) < 8
    ensures var s := Segment(v);
            var q := v / (8 * Pow2(s));
      && (s == 0 ==> v <= 0xFF) && 128 * Pow2(s) <= v < 256 * Pow2(s)
      && 16 <= q < 32 && q * (8 * Pow2(s)) <= v < (q + 1) * (8 * Pow2(s))
  {
    Powers();
    var s := Segment(v);
    if s == 0 {
    } else if s == 1 {
    } else if s == 2 {
    } else if s == 3 {
    } else if s == 4 {
    } else if s == 5 {
    } else if s == 6 {
    } else {
    }
  }

  lemma Powers()
    ensures Pow2(0) == 1 && Pow2(1) == 2 && Pow2(2) == 4 && Pow2(3) == 8
    ensures Pow2(4) == 16 && Pow2(5) == 32 && Pow2(6) == 64 && Pow2(7) == 128
  {
    assert Pow2(1) == 2;
    assert Pow2(3) == 8;
    assert Pow2(5) == 32;
  }

  /** The only segment with such bounds. */
  lemma SegmentOf(v: nat, s: nat)
    requires s < 8 && 128 * Pow2(s) <= v < 256 * Pow2(s)
    ensures Segment(v) == s
  {
    Powers();
    if s == 0 {
    } else if s == 1 {
    } else if s == 2 {
    } else if s == 3 {
    } else if s == 4 {
    } else if s == 5 {
    } else if s == 6 {
    } else {
    }
  }

  lemma Middle(q: nat, p: nat)
    requires q >= 16
    ensures ((q - 16) * 8 + BIAS) * p == q * (8 * p) + 4 * p
  {}

  /** A magnitude comes back as the middle of its step. */
  lemma ExpandedIsMiddle(v: nat)
    requires BIAS <= v && Segment(v) < 8
    ensures var s := Segment(v);
      Expanded(Quantized(v)) == v / (8 * Pow2(s)) * (8 * Pow2(s)) + 4 * Pow2(s)
  {
    hide Segment, Pow2;
    SegmentBounds(v);
    var s := Segment(v);
    var q := v / (8 * Pow2(s));
    assert Quantized(v) == s * 16 + (q - 16);
    assert Quantized(v) % 16 == q - 16 && Quantized(v) / 16 == s;
    Middle(q, Pow2(s));
  }

  // ---------------------------------------------------------------------------------------------
  // Samples through the code and back

  function RoundTrip(x: int): (y: int) { Ulaw2Linear(Linear2Ulaw(x)) }

  function Magnitude(a: nat): (m: int) {
    if Segment(a + BIAS) < 8 then Expanded(Quantized(a + BIAS)) - BIAS else SATURATED
  }

  /** The sign is kept and the magnitude goes its own way. */
  lemma RoundTripByMagnitude(x: int)
    ensures RoundTrip(x) == if x < 0 then -Magnitude(-x) else Magnitude(x)
  {
    hide Quantized, Segment;
    assert Expanded(0x7F) - BIAS == SATURATED by { Powers(); }
  }

  lemma ClipIsSegmentEnd(a: nat)
    ensures a <= CLIP <==> Segment(a + BIAS) < 8
  {}

  /** Within the range a sample moves by at most half a step of its segment; beyond it, to the limit. */
  lemma ErrorIsHalfAStep(x: int)
    ensures Abs(x) <= CLIP ==>
      Segment(Abs(x) + BIAS) < 8 && Abs(RoundTrip(x) - x) <= 4 * Pow2(Segment(Abs(x) + BIAS))
    ensures x > CLIP ==> RoundTrip(x) == SATURATED
    ensures x < -CLIP ==> RoundTrip(x) == -SATURATED
  {
    hide Segment, Pow2, Expanded, Quantized, RoundTrip;
    RoundTripByMagnitude(x);
    var v := Abs(x) + BIAS;
    ClipIsSegmentEnd(Abs(x));
    if Abs(x) <= CLIP {
      ExpandedIsMiddle(v);
      SegmentBounds(v);
      var d := 8 * Pow2(Segment(v));
      NextStep(v / d, d);
    }
  }

  lemma NextStep(q: nat, d: nat)
    ensures (q + 1) * d == q * d + d
  {}

  /** A larger magnitude does not come back smaller. */
  lemma MagnitudeMonotone(a: nat, b: nat)
    requires a <= b
    ensures 0 <= Magnitude(a) <= Magnitude(b)
  {
    hide Segment, Pow2, Expanded, Quantized;
    var v, w := a + BIAS, b + BIAS;
    ClipIsSegmentEnd(a);
    ClipIsSegmentEnd(b);
    if a <= CLIP {
      InStep(v);
      if b <= CLIP {
        InStep(w);
        if Segment(v) == Segment(w) {
          StepsInOrder(v, w);
        } else {
          LaterSegment(v, w);
        }
      } else {
        TopOfSegments(Segment(v));
      }
    }
  }

  /** The value that comes back lies in the same segment, and not below the bias. */
  lemma InStep(v: nat)
    requires BIAS <= v && Segment(v) < 8
    ensures var s, t := Segment(v), Expanded(Quantized(v));
      && 128 * Pow2(s) <= t && t + 4 * Pow2(s) <= 256 * Pow2(s) && t >= BIAS
  {
    SegmentBounds(v);
    ExpandedIsMiddle(v);
    hide Segment, Pow2, Expanded, Quantized;
    var s := Segment(v);
    var q, d := v / (8 * Pow2(s)), 8 * Pow2(s);
    Between(q, d);
  }

  lemma Between(q: nat, d: nat)
    requires 16 <= q < 32
    ensures 16 * d <= q * d <= 31 * d
  {}

  lemma StepsInOrder(v: nat, w: nat)
    requires BIAS <= v <= w && Segment(v) == Segment(w) < 8
    ensures Expanded(Quantized(v)) <= Expanded(Quantized(w))
  {
    ExpandedIsMiddle(v);
    ExpandedIsMiddle(w);
    hide Segment, Pow2, Expanded, Quantized;
    var d := 8 * Pow2(Segment(v));
    DivMonotone(v, w, d);
  }

  lemma TimesKeepsOrder(a: nat, b: nat, d: nat)
    ensures a <= b ==> a * d <= b * d
  {}

  lemma DivMonotone(v: nat, w: nat, d: nat)
    requires v <= w && d >= 1
    ensures v / d * d <= w / d * d
  {
    TimesKeepsOrder(v / d, w / d, d);
    TimesKeepsOrder(w / d + 1, v / d, d);
    NextStep(w / d, d);
  }

  lemma LaterSegment(v: nat, w: nat)
    requires v <= w && Segment(v) < 8 && Segment(w) < 8 && Segment(v) != Segment(w)
    ensures 256 * Pow2(Segment(v)) <= 128 * Pow2(Segment(w))
  {
    assert Segment(v) < Segment(w);
    hide Segment;
    PowersGrow(Segment(v), Segment(w));
  }

  lemma {:induction false} PowersGrow(a: nat, b: nat)
    requires a < b < 8
    ensures 2 * Pow2(a) <= Pow2(b)
  {
    if a + 1 < b {
      PowersGrow(a, b - 1);
    }
  }

  lemma TopOfSegments(s: nat)
    requires s < 8
    ensures 256 * Pow2(s) - 4 * Pow2(s) - BIAS <= SATURATED
  {
    Powers();
    if s < 7 {
      PowersGrow(s, 7);
    }
  }

  /** Companding keeps the order of samples. */
  lemma RoundTripMonotone(x: int, y: int)
    requires x <= y
    ensures RoundTrip(x) <= RoundTrip(y)
  {
    hide Magnitude, RoundTrip;
    RoundTripByMagnitude(x);
    RoundTripByMagnitude(y);
    MagnitudeMonotone(0, Abs(x));
    MagnitudeMonotone(0, Abs(y));
    if 0 <= x {
      MagnitudeMonotone(x, y);
    } else if y < 0 {
      MagnitudeMonotone(-y, -x);
    }
  }

  // ---------------------------------------------------------------------------------------------
  // Codes through a sample and back

  lemma ExpandedKeepsCode(code: nat)
    requires code < 0x80
    ensures var t := Expanded(code);
      && t >= BIAS && (t == BIAS <==> code == 0)
      && Segment(t) == code / 16 && Quantized(t) == code
  {
    hide Segment, Pow2;
    var m, s := code % 16, code / 16;
    var p := Pow2(s);
    Middle(m + 16, p);
    Between(m + 16, 8 * p);
    assert Expanded(code) == (m + 16) * (8 * p) + 4 * p;
    SegmentOf(Expanded(code), s);
    SmallestIsBias(m, s);
    StepOf(m + 16, p);
  }

  lemma SmallestIsBias(m: nat, s: nat)
    requires s < 8
    ensures (m * 8 + BIAS) * Pow2(s) >= BIAS
    ensures (m * 8 + BIAS) * Pow2(s) == BIAS <==> m == 0 && s == 0
  {
    if s > 0 {
      assert Pow2(s) >= 2;
    }
    hide Pow2;
    TimesKeepsOrder(2, Pow2(s), m * 8 + BIAS);
  }

  lemma StepOf(q: nat, p: nat)
    requires p >= 1
    ensures (q * (8 * p) + 4 * p) / (8 * p) == q
  {
    var n, d := q * (8 * p) + 4 * p, 8 * p;
    TimesKeepsOrder(n / d + 1, q, d);
    NextStep(n / d, d);
    TimesKeepsOrder(q + 1, n / d, d);
    NextStep(q, d);
  }

  /** Every code survives decoding and encoding but one: 0x7F, the negative zero. */
  lemma CodesComeBack(u: Byte)
    ensures Linear2Ulaw(Ulaw2Linear(u)) == u <==> u != 0x7F
  {
    hide Expanded, Quantized, Segment;
    ExpandedKeepsCode((0xFF - u) % 0x80);
  }
}
