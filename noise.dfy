/**
 * The layered noise function of the ground (`_createNoiseFunc`): `octaves`
 * layers of a 2D coherent-noise primitive, layer i sampled at frequency
 * frequency·lacunarityⁱ and weighted by amplitude·persistenceⁱ.
 * The primitive (simplex-noise's `noise2D`) is a parameter.
 */
module Noise {

  datatype NoiseParams = NoiseParams(
    frequency: real,
    amplitude: real,
    persistence: real,
    lacunarity: real,
    octaves: int)

  /** The frequency of layer i: frequency·lacunarityⁱ. */
  function Freq(p: NoiseParams, i: nat): real {
    if i == 0 then p.frequency else Freq(p, i - 1) * p.lacunarity
  }

  /** The weight of layer i: amplitude·persistenceⁱ. */
  function Amp(p: NoiseParams, i: nat): real {
    if i == 0 then p.amplitude else Amp(p, i - 1) * p.persistence
  }

  /** Layer i at (x, y): the primitive at the layer's frequency, times its weight. */
  function Octave(noise2D: (real, real) -> real, p: NoiseParams, x: real, y: real, i: nat): real {
    Weighted(noise2D, x, y, Freq(p, i), Amp(p, i))
  }

  function Weighted(noise2D: (real, real) -> real, x: real, y: real, freq: real, amp: real): real {
    noise2D(x * freq, y * freq) * amp
  }

  lemma WeightedStep(noise2D: (real, real) -> real, p: NoiseParams, x: real, y: real, i: nat, freq: real, amp: real)
    requires freq == Freq(p, i) && amp == Amp(p, i)
    ensures Layers(noise2D, p, x, y, i + 1) == Layers(noise2D, p, x, y, i) + noise2D(x * freq, y * freq) * amp
  {
    assert Octave(noise2D, p, x, y, i) == Weighted(noise2D, x, y, freq, amp);
  }

  /** The sum of the first n layers at (x, y). */
  function Layers(noise2D: (real, real) -> real, p: NoiseParams, x: real, y: real, n: nat): real {
    if n == 0 then 0.0
    else Layers(noise2D, p, x, y, n - 1) + Octave(noise2D, p, x, y, n - 1)
  }

  /** The value the noise closure returns: all octaves, none when `octaves` is not positive. */
  function Height(noise2D: (real, real) -> real, p: NoiseParams, x: real, y: real): real {
    Layers(noise2D, p, x, y, if p.octaves < 0 then 0 else p.octaves)
  }

  /** The closure the ground builds: an accumulating loop over the octaves. */
  method Sample(noise2D: (real, real) -> real, p: NoiseParams, x: real, y: real) returns (value: real)
    ensures value == Height(noise2D, p, x, y)
  {
    var freq := p.frequency;
    var amp := p.amplitude;
    value := 0.0;
    var i := 0;
    while i < p.octaves
      invariant 0 <= i && (p.octaves >= 0 ==> i <= p.octaves)
      invariant p.octaves < 0 ==> i == 0
      invariant freq == Freq(p, i) && amp == Amp(p, i)
      invariant value == Layers(noise2D, p, x, y, i)
    {
      WeightedStep(noise2D, p, x, y, i, freq, amp);
      value := value + noise2D(x * freq, y * freq) * amp;
      freq := freq * p.lacunarity;
      amp := amp * p.persistence;
      i := i + 1;
    }
  }

  /** With no octaves the terrain is flat at height 0. */
  lemma NoOctavesIsFlat(noise2D: (real, real) -> real, p: NoiseParams, x: real, y: real)
    requires p.octaves <= 0
    ensures Height(noise2D, p, x, y) == 0.0
  {}

  /** The largest magnitude n layers can reach when the primitive stays in [-1, 1]. */
  function AmpTotal(p: NoiseParams, n: nat): real {
    if n == 0 then 0.0 else AmpTotal(p, n - 1) + Amp(p, n - 1)
  }

  lemma {:induction false} AmpNonNegative(p: NoiseParams, i: nat)
    requires p.amplitude >= 0.0 && p.persistence >= 0.0
    ensures Amp(p, i) >= 0.0
  {
    if i > 0 {
      AmpNonNegative(p, i - 1);
      MulNonNegative(Amp(p, i - 1), p.persistence);
    }
  }

  lemma MulNonNegative(a: real, b: real)
    requires 0.0 <= a && 0.0 <= b
    ensures 0.0 <= a * b
  {}

  lemma WeightedBound(v: real, w: real)
    requires -1.0 <= v <= 1.0 && 0.0 <= w
    ensures -w <= v * w <= w
  {
    MulNonNegative(1.0 - v, w);
    MulNonNegative(1.0 + v, w);
  }

  /**
   * Simplex noise lies in [-1, 1]; then the layered height is bounded by the sum of
   * the layer weights (2·amplitude for persistence 1/2).
   */
  lemma {:induction false} LayersBounded(noise2D: (real, real) -> real, p: NoiseParams, x: real, y: real, n: nat)
    requires forall u, v :: -1.0 <= noise2D(u, v) <= 1.0
    requires p.amplitude >= 0.0 && p.persistence >= 0.0
    ensures -AmpTotal(p, n) <= Layers(noise2D, p, x, y, n) <= AmpTotal(p, n)
  {
    if n > 0 {
      LayersBounded(noise2D, p, x, y, n - 1);
      AmpNonNegative(p, n - 1);
      var freq, amp := Freq(p, n - 1), Amp(p, n - 1);
      WeightedBound(noise2D(x * freq, y * freq), amp);
      assert Octave(noise2D, p, x, y, n - 1) == Weighted(noise2D, x, y, freq, amp);
    }
  }
}
