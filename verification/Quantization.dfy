/**
 Quantization of world values to levels of a few bits, and its inverse. Values
 are real numbers: the arithmetic is the program's, without float rounding.
 */
module Quantization {
  import opened Bits
  import opened Cursors
  import opened BitStream

  datatype QuantSpec = QuantSpec(headerBits: nat, maxTotalBits: nat, max: real, range: real)
  datatype QuantConfig = QuantConfig(headerBits: nat, maxTotalBits: nat, baseBits: nat, max: real, range: real)

  function MakeQuantConfig(spec: QuantSpec): QuantConfig {
    var resolution := Pow2(spec.headerBits);
    var baseBits :=
      if spec.maxTotalBits == 0 then spec.headerBits
      else if spec.maxTotalBits > resolution then spec.maxTotalBits - resolution + 1
      else 1;
    QuantConfig(spec.headerBits, spec.maxTotalBits, baseBits, spec.max, spec.range)
  }

  function QuantizedBits(cfg: QuantConfig, priority: nat): nat {
    if cfg.maxTotalBits == 0 then cfg.baseBits else cfg.baseBits + priority
  }

  /** `1U << bits` is defined, and clamping has a lower bound below its upper bound. */
  predicate Usable(cfg: QuantConfig, priority: nat) {
    1 <= QuantizedBits(cfg, priority) < 32 && cfg.range >= 0.0
  }

  function Clamp(x: real, lo: real, hi: real): real {
    if x < lo then lo else if hi < x then hi else x
  }

  function Clamped(value: real, cfg: QuantConfig): real {
    Clamp(value, cfg.max - cfg.range, cfg.max)
  }

  /** x scaled by d / r. */
  function Scale(x: real, d: real, r: real): real
    requires r != 0.0
  {
    x * d / r
  }

  /** Number of steps between the extreme levels. */
  function Steps(bits: nat): real
    requires bits >= 1
  {
    (Pow2(bits) - 2) as real
  }

  function Quantize(value: real, cfg: QuantConfig, priority: nat): (level: nat)
    requires Usable(cfg, priority)
  {
    var denom := Steps(QuantizedBits(cfg, priority));
    if value == 0.0 then 0
    else if denom <= 0.0 || cfg.range == 0.0 then 1
    else Ramp(cfg.max - Clamped(value, cfg), denom, cfg.range)
  }

  /** The level of a value lying x below the top of a range r cut into d steps. */
  function Ramp(x: real, d: real, r: real): (level: nat)
    requires 0.0 <= x <= r && r > 0.0 && d > 0.0
    ensures level >= 1 && level as real <= d + 1.0
  {
    ScaleBounds(x, d, r);
    FloorBounds(Scale(x, d, r), d);
    Scale(x, d, r).Floor + 1
  }

  lemma {:induction false} FloorBounds(y: real, d: real)
    requires 0.0 <= y <= d
    ensures 0 <= y.Floor && y.Floor as real <= d
  {
  }

  /** The client's reading of a level. */
  function Dequantize(level: nat, cfg: QuantConfig, priority: nat): real
    requires QuantizedBits(cfg, priority) >= 2
  {
    Pow2Monotone(2, QuantizedBits(cfg, priority));
    assert Pow2(2) == 4;
    if level == 0 then 0.0
    else Clamped(cfg.max - Scale((level - 1) as real, cfg.range, Steps(QuantizedBits(cfg, priority))), cfg)
  }

  lemma {:induction false} ScaleBounds(x: real, d: real, r: real)
    requires 0.0 <= x <= r && r > 0.0 && d > 0.0
    ensures 0.0 <= Scale(x, d, r) <= d
  {
    var y := Scale(x, d, r);
    assert y * r == x * d;
    ProductOrder(x, r, d);
    if y > d {
      ProductStrict(d, y, r);
    }
    if y < 0.0 {
      ProductStrict(y, 0.0, r);
    }
  }

  lemma {:induction false} ProductOrder(x: real, y: real, k: real)
    requires x <= y && k >= 0.0
    ensures x * k <= y * k
  {
  }

  lemma {:induction false} ProductStrict(x: real, y: real, k: real)
    requires x < y && k > 0.0
    ensures x * k < y * k
  {
  }

  /** A quotient of a product recovers the factor. */
  lemma {:induction false} ScaleInverse(k: real, r: real, d: real)
    requires r > 0.0 && d > 0.0
    ensures Scale(Scale(k, r, d), d, r) == k
  {
    assert k * r / d * d == k * r;
  }

  /** A proper quantizer: a non-empty range cut into at least two steps. */
  predicate Proper(cfg: QuantConfig, priority: nat) {
    2 <= QuantizedBits(cfg, priority) < 32 && cfg.range > 0.0
  }

  lemma {:induction false} StepsPositive(bits: nat)
    requires bits >= 2
    ensures Steps(bits) >= 2.0
  {
    Pow2Monotone(2, bits);
    assert Pow2(2) == 4;
  }

  /** Levels: zero is level 0 and nothing else is; every level fits its field. */
  lemma {:induction false} QuantizeLevels(value: real, cfg: QuantConfig, priority: nat)
    requires Usable(cfg, priority)
    ensures Quantize(value, cfg, priority) == 0 <==> value == 0.0
    ensures Quantize(value, cfg, priority) < Pow2(QuantizedBits(cfg, priority)) <= Pow2(31)
  {
    var bits := QuantizedBits(cfg, priority);
    Pow2Monotone(1, bits);
    Pow2Monotone(bits, 31);
    assert Pow2(1) == 2;
  }

  /** Away from zero, larger values never get larger levels. */
  lemma {:induction false} QuantizeAntitone(v: real, w: real, cfg: QuantConfig, priority: nat)
    requires Usable(cfg, priority) && v != 0.0 && w != 0.0 && Clamped(v, cfg) <= Clamped(w, cfg)
    ensures Quantize(v, cfg, priority) >= Quantize(w, cfg, priority)
  {
    var d := Steps(QuantizedBits(cfg, priority));
    if d > 0.0 && cfg.range > 0.0 {
      RampMonotone(cfg.max - Clamped(w, cfg), cfg.max - Clamped(v, cfg), d, cfg.range);
    }
  }

  lemma {:induction false} RampMonotone(x: real, y: real, d: real, r: real)
    requires 0.0 <= x <= y <= r && r > 0.0 && d > 0.0
    ensures Ramp(x, d, r) <= Ramp(y, d, r)
  {
    ProductOrder(x, y, d);
    QuotientOrder(x * d, y * d, r);
    FloorOrder(Scale(x, d, r), Scale(y, d, r));
  }

  lemma {:induction false} FloorOrder(x: real, y: real)
    requires x <= y
    ensures x.Floor <= y.Floor
  {
  }

  lemma {:induction false} QuotientOrder(x: real, y: real, r: real)
    requires x <= y && r > 0.0
    ensures x / r <= y / r
  {
    var p, q := x / r, y / r;
    assert p * r == x && q * r == y;
    if q < p {
      ProductStrict(q, p, r);
    }
  }

  /** The value a level stands for, before clamping, is already in range. */
  lemma {:induction false} LevelInRange(level: nat, cfg: QuantConfig, priority: nat)
    requires Proper(cfg, priority) && 1 <= level < Pow2(QuantizedBits(cfg, priority))
    ensures Steps(QuantizedBits(cfg, priority)) > 0.0
    ensures Dequantize(level, cfg, priority)
            == cfg.max - Scale((level - 1) as real, cfg.range, Steps(QuantizedBits(cfg, priority)))
    ensures cfg.max - cfg.range <= Dequantize(level, cfg, priority) <= cfg.max
  {
    var d := Steps(QuantizedBits(cfg, priority));
    StepsPositive(QuantizedBits(cfg, priority));
    ScaleBounds((level - 1) as real, cfg.range, d);
  }

  /** The decoded value is at or above the clamped input by less than one step. */
  lemma {:induction false} QuantizeError(value: real, cfg: QuantConfig, priority: nat)
    requires Proper(cfg, priority) && value != 0.0
    ensures Steps(QuantizedBits(cfg, priority)) > 0.0
    ensures 0.0 <= Dequantize(Quantize(value, cfg, priority), cfg, priority) - Clamped(value, cfg)
                < Scale(1.0, cfg.range, Steps(QuantizedBits(cfg, priority)))
  {
    var d := Steps(QuantizedBits(cfg, priority));
    var level := Quantize(value, cfg, priority);
    StepsPositive(QuantizedBits(cfg, priority));
    QuantizeLevels(value, cfg, priority);
    LevelInRange(level, cfg, priority);
    RampError(cfg.max - Clamped(value, cfg), d, cfg.range);
  }

  lemma {:induction false} RampError(x: real, d: real, r: real)
    requires 0.0 <= x <= r && r > 0.0 && d > 0.0
    ensures 0.0 <= x - Scale((Ramp(x, d, r) - 1) as real, r, d) < Scale(1.0, r, d)
  {
    FloorStep(x, d, r);
  }

  lemma {:induction false} RampInverse(k: nat, d: real, r: real)
    requires r > 0.0 && d > 0.0 && k as real <= d
    ensures 0.0 <= Scale(k as real, r, d) <= r && Ramp(Scale(k as real, r, d), d, r) == k + 1
  {
    ScaleBounds(k as real, r, d);
    ScaleInverse(k as real, r, d);
  }

  lemma {:induction false} FloorStep(x: real, d: real, r: real)
    requires r > 0.0 && d > 0.0
    ensures var k := Scale(x, d, r).Floor as real; 0.0 <= x - Scale(k, r, d) < Scale(1.0, r, d)
  {
    var y := Scale(x, d, r);
    ScaleInverse(x, d, r);
    ScaleDifference(y, y.Floor as real, r, d);
    ScaleOrder(y - y.Floor as real, r, d);
  }

  lemma {:induction false} QuotientUnique(p: real, n: real, d: real)
    requires d > 0.0 && p * d == n
    ensures n / d == p
  {
  }

  lemma {:induction false} ScaleDifference(a: real, b: real, r: real, d: real)
    requires d > 0.0
    ensures Scale(a, r, d) - Scale(b, r, d) == Scale(a - b, r, d)
  {
    var p, q := a * r / d, b * r / d;
    assert p * d == a * r && q * d == b * r;
    assert (p - q) * d == p * d - q * d;
    assert (a - b) * r == a * r - b * r;
    QuotientUnique(p - q, (a - b) * r, d);
  }

  lemma {:induction false} ScaleOrder(a: real, r: real, d: real)
    requires 0.0 <= a < 1.0 && r > 0.0 && d > 0.0
    ensures 0.0 <= Scale(a, r, d) < Scale(1.0, r, d)
  {
    ProductOrder(0.0, a, r);
    ProductStrict(a, 1.0, r);
    QuotientOrder(0.0, a * r, d);
    QuotientOrder(a * r, r, d);
    QuotientUnique(r / d, r, d);
    if a * r / d == r / d {
      assert a * r / d * d == a * r && r / d * d == r;
    }
  }

  /** The only level besides 0 that stands for zero, if there is one, read off the settings. */
  predicate StandsForZero(level: nat, cfg: QuantConfig, priority: nat)
    requires QuantizedBits(cfg, priority) >= 1
  {
    (level - 1) as real * cfg.range == cfg.max * Steps(QuantizedBits(cfg, priority))
  }

  lemma {:induction false} ZeroLevelExact(level: nat, cfg: QuantConfig, priority: nat)
    requires Proper(cfg, priority) && 1 <= level < Pow2(QuantizedBits(cfg, priority))
    ensures Dequantize(level, cfg, priority) == 0.0 <==> StandsForZero(level, cfg, priority)
  {
    hide Dequantize, Steps;
    var d := Steps(QuantizedBits(cfg, priority));
    LevelInRange(level, cfg, priority);
    var p := (level - 1) as real * cfg.range;
    assert p / d * d == p;
    if cfg.max * d == p {
      QuotientUnique(cfg.max, p, d);
    }
  }

  /**
   A level is recovered from its value exactly when it is 0 or does not stand for
   zero, which is when (level - 1) * range differs from max * steps.
   */
  lemma {:induction false} LevelRoundTrip(level: nat, cfg: QuantConfig, priority: nat)
    requires Proper(cfg, priority) && level < Pow2(QuantizedBits(cfg, priority))
    ensures Quantize(Dequantize(level, cfg, priority), cfg, priority) == level
            <==> level == 0 || !StandsForZero(level, cfg, priority)
  {
    hide StandsForZero;
    if level > 0 {
      ZeroLevelExact(level, cfg, priority);
      if Dequantize(level, cfg, priority) != 0.0 {
        var d := Steps(QuantizedBits(cfg, priority));
        StepsPositive(QuantizedBits(cfg, priority));
        LevelInRange(level, cfg, priority);
        RampInverse(level - 1, d, cfg.range);
      }
    }
  }

  /** Sending a received value again changes nothing. */
  lemma {:induction false} RequantizeStable(level: nat, cfg: QuantConfig, priority: nat)
    requires Proper(cfg, priority) && level < Pow2(QuantizedBits(cfg, priority))
    ensures var v := Dequantize(level, cfg, priority);
            Dequantize(Quantize(v, cfg, priority), cfg, priority) == v
  {
    LevelRoundTrip(level, cfg, priority);
    if level > 0 {
      ZeroLevelExact(level, cfg, priority);
    }
  }

  /** At full priority a value takes the announced total, but never less than the header can ask for. */
  lemma {:induction false} FullPriorityWidth(spec: QuantSpec)
    requires spec.maxTotalBits > 0
    ensures var cfg := MakeQuantConfig(spec);
            QuantizedBits(cfg, Pow2(spec.headerBits) - 1)
            == if spec.maxTotalBits > Pow2(spec.headerBits) then spec.maxTotalBits else Pow2(spec.headerBits)
  {
  }

  // ---- Writing quantized values ----------------------------------------------------

  datatype Vec3 = Vec3(x: real, y: real, z: real)

  function LevelField(value: real, cfg: QuantConfig, priority: nat): Field
    requires Usable(cfg, priority)
  {
    Field(Quantize(value, cfg, priority), QuantizedBits(cfg, priority))
  }

  function FullPriority(cfg: QuantConfig): nat {
    Pow2(cfg.headerBits) - 1
  }

  function Vec3Fields(v: Vec3, cfg: QuantConfig): seq<Field>
    requires Usable(cfg, FullPriority(cfg))
  {
    var p := FullPriority(cfg);
    [Field(p, cfg.headerBits), LevelField(v.x, cfg, p), LevelField(v.y, cfg, p), LevelField(v.z, cfg, p)]
  }

  /** The priority actually used: none without a header, else at most what the header holds. */
  function EffectivePriority(cfg: QuantConfig, priority: nat): nat {
    if cfg.maxTotalBits == 0 then 0 else Min(priority, FullPriority(cfg))
  }

  function QuantizedFields(value: real, cfg: QuantConfig, priority: nat): seq<Field>
    requires Usable(cfg, EffectivePriority(cfg, priority))
  {
    var p := EffectivePriority(cfg, priority);
    (if cfg.maxTotalBits == 0 then [] else [Field(p, cfg.headerBits)]) + [LevelField(value, cfg, p)]
  }

  method WriteQuantizedPayload(w: BitWriter, value: real, cfg: QuantConfig, priority: nat)
    requires w.Valid() && Usable(cfg, priority)
    modifies w
    ensures w.Valid() && w.fields == old(w.fields) + [LevelField(value, cfg, priority)]
  {
    QuantizeLevels(value, cfg, priority);
    Pow2Values();
    w.WriteBits(Quantize(value, cfg, priority), QuantizedBits(cfg, priority));
  }

  method WriteQuantized(w: BitWriter, value: real, cfg: QuantConfig, priority: nat)
    requires w.Valid() && cfg.headerBits < 32 && Usable(cfg, EffectivePriority(cfg, priority))
    modifies w
    ensures w.Valid() && w.fields == old(w.fields) + QuantizedFields(value, cfg, priority)
  {
    var effective := priority;
    if cfg.maxTotalBits == 0 {
      effective := 0;
    } else {
      FitsU32(FullPriority(cfg), cfg.headerBits);
      effective := Min(effective, FullPriority(cfg));
      w.WriteBits(effective, cfg.headerBits);
    }
    WriteQuantizedPayload(w, value, cfg, effective);
  }

  method WriteVec3(w: BitWriter, v: Vec3, cfg: QuantConfig)
    requires w.Valid() && cfg.headerBits < 32 && Usable(cfg, FullPriority(cfg))
    modifies w
    ensures w.Valid() && w.fields == old(w.fields) + Vec3Fields(v, cfg)
  {
    var priority := FullPriority(cfg);
    FitsU32(priority, cfg.headerBits);
    w.WriteBits(priority, cfg.headerBits);
    WriteQuantizedPayload(w, v.x, cfg, priority);
    WriteQuantizedPayload(w, v.y, cfg, priority);
    WriteQuantizedPayload(w, v.z, cfg, priority);
  }
}
