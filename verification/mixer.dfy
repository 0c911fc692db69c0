/** The mix compositor: crossfade gains derived from the priority level, the
    unconditional safety bypass and the final clip. */
module Mixer {
  import opened Signal

  /** The output bound: every sample leaves the engine within [-0.9, 0.9]. */
  const Ceiling: real := 0.9

  /** Gain of the stationary bus: the priority level itself. */
  function GainStat(fader: real): (r: real)
    ensures fader == 0.0 ==> r == 0.0
    ensures fader == 1.0 ==> r == 1.0
  {
    fader
  }

  /** Gain of the wire bus: the complement of the priority level, squared. */
  function GainWire(fader: real): (r: real)
    ensures r >= 0.0
  {
    (1.0 - fader) * (1.0 - fader)
  }

  /** For a level in [0, 1] both gains lie in [0, 1], and the wire gain never
      exceeds the complement of the stationary gain: the squared taper removes
      the wire bus faster than the stationary bus comes in. */
  lemma GainsInUnit(fader: real)
    requires 0.0 <= fader <= 1.0
    ensures 0.0 <= GainStat(fader) <= 1.0
    ensures 0.0 <= GainWire(fader) <= 1.0
    ensures GainWire(fader) <= 1.0 - GainStat(fader)
  {
    var c := 1.0 - fader;
    ScaledBetween(c, c);
    assert GainWire(fader) == c * c;
    assert GainWire(fader) <= c;
    assert 1.0 - GainStat(fader) == c;
  }

  /** The stationary gain rises and the wire gain falls as the level rises. */
  lemma GainsMonotone(f1: real, f2: real)
    requires 0.0 <= f1 <= f2 <= 1.0
    ensures GainStat(f1) <= GainStat(f2)
    ensures GainWire(f2) <= GainWire(f1)
  {
    SquareComparison(1.0 - f2, 1.0 - f1);
  }

  /** One mixed sample before the clip: both crossfaded buses plus the safety
      bus at weight 1. */
  function MixSample(stat: real, wire: real, safe: real, fader: real): (r: real)
    ensures fader == 0.0 ==> r == wire + safe
    ensures fader == 1.0 ==> r == stat + safe
  {
    stat * GainStat(fader) + wire * GainWire(fader) + safe
  }

  /** The safety sample enters the mix unscaled, whatever the level: changing
      it by d changes the unclipped mix by exactly d. */
  lemma SafetyCarriesFullWeight(stat: real, wire: real, safe: real, d: real, fader: real)
    ensures MixSample(stat, wire, safe + d, fader) == MixSample(stat, wire, safe, fader) + d
  {
  }

  /** The mixed, clipped output block: one sample per frame. */
  function Compose(stat: Samples, wire: Samples, safe: Samples, fader: real): (r: Samples)
    requires |stat| == |wire| == |safe|
    ensures |r| == |stat|
    ensures forall k :: 0 <= k < |r| ==> -Ceiling <= r[k] <= Ceiling
    ensures forall k :: 0 <= k < |r| && -Ceiling <= MixSample(stat[k], wire[k], safe[k], fader) <= Ceiling
              ==> r[k] == MixSample(stat[k], wire[k], safe[k], fader)
    ensures forall k :: 0 <= k < |r| && MixSample(stat[k], wire[k], safe[k], fader) > Ceiling ==> r[k] == Ceiling
    ensures forall k :: 0 <= k < |r| && MixSample(stat[k], wire[k], safe[k], fader) < -Ceiling ==> r[k] == -Ceiling
  {
    seq(|stat|, k requires 0 <= k < |stat| => Clip(MixSample(stat[k], wire[k], safe[k], fader), -Ceiling, Ceiling))
  }

  /** With silent stationary and wire buses the output is the clipped safety
      bus, whatever the level. */
  lemma SafetyBypass(frames: nat, safe: Samples, fader: real)
    requires |safe| == frames
    ensures forall k :: 0 <= k < frames ==>
              Compose(Zeros(frames), Zeros(frames), safe, fader)[k] == Clip(safe[k], -Ceiling, Ceiling)
  {
  }
}
