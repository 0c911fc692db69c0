/** The envelope follower: one persistent priority level ("fader") in [0, 1]
    that moves toward 1.0 while the stationary microphones are above the
    threshold and toward 0.0 otherwise, with a fast attack and a slow release. */
module Envelope {
  import opened Signal

  /** The smoothing coefficients and the linear threshold, derived once when
      the engine is built (from decibels and time constants) and taken here as
      given values. */
  predicate ValidCoefficients(threshold: real, attack: real, release: real)
  {
    threshold >= 0.0 && 0.0 < attack <= 1.0 && 0.0 < release <= 1.0
  }

  /** The target level of one block. `peakMs` is the stationary peak as a
      mean square, so it is compared with the squared linear threshold. */
  function Target(peakMs: real, threshold: real): (r: real)
    ensures r == 1.0 || r == 0.0
    ensures r == 1.0 <==> peakMs > threshold * threshold
  {
    if peakMs > threshold * threshold then 1.0 else 0.0
  }

  /** Comparing the mean square `Sq(rms)` with the squared threshold is the
      same as comparing the RMS with the threshold itself. */
  lemma TargetOfSquare(rms: real, threshold: real)
    requires rms >= 0.0 && threshold >= 0.0
    ensures Target(Sq(rms), threshold) == 1.0 <==> rms > threshold
  {
    SquareComparison(threshold, rms);
  }

  /** The attack coefficient is used exactly when the target lies above the
      current level; otherwise, including a level already at the target, the
      release coefficient is used. */
  function Coefficient(target: real, fader: real, attack: real, release: real): (r: real)
    ensures target > fader ==> r == attack
    ensures target <= fader ==> r == release
  {
    if target > fader then attack else release
  }

  /** One-pole smoothing step before clipping. */
  function Step(fader: real, target: real, alpha: real): (r: real)
    ensures alpha == 0.0 ==> r == fader
    ensures alpha == 1.0 ==> r == target
  {
    fader + (target - fader) * alpha
  }

  /** The level after one block: smoothed toward the target, then clipped to
      [0, 1]. */
  function NextFader(fader: real, target: real, attack: real, release: real): (r: real)
    ensures 0.0 <= r <= 1.0
  {
    Clip(Step(fader, target, Coefficient(target, fader, attack, release)), 0.0, 1.0)
  }

  /** With a level in [0, 1], a 0/1 target and coefficients in (0, 1], the
      smoothing step never leaves [0, 1], so the clip changes nothing. */
  lemma ClipIsNoOp(fader: real, target: real, attack: real, release: real)
    requires 0.0 <= fader <= 1.0 && (target == 0.0 || target == 1.0)
    requires 0.0 < attack <= 1.0 && 0.0 < release <= 1.0
    ensures var s := Step(fader, target, Coefficient(target, fader, attack, release));
            0.0 <= s <= 1.0 && NextFader(fader, target, attack, release) == s
  {
    var alpha := Coefficient(target, fader, attack, release);
    if target == 1.0 {
      StepUp(fader, target, alpha);
    } else {
      StepDown(fader, target, alpha);
    }
  }

  /** A smoothing step up toward the target with a coefficient in [0, 1]
      stays between the level and the target. */
  lemma StepUp(fader: real, target: real, alpha: real)
    requires 0.0 <= fader <= target && 0.0 <= alpha <= 1.0
    ensures fader <= Step(fader, target, alpha) <= target
  {
    var d := target - fader;
    ScaledBetween(d, alpha);
    assert Step(fader, target, alpha) == fader + d * alpha;
  }

  /** A smoothing step down toward 0.0 with a coefficient in [0, 1] stays
      between 0.0 and the level. */
  lemma StepDown(fader: real, target: real, alpha: real)
    requires 0.0 == target <= fader && 0.0 <= alpha <= 1.0
    ensures target <= Step(fader, target, alpha) <= fader
  {
    var m := fader * alpha;
    ScaledBetween(fader, alpha);
    assert 0.0 <= m <= fader;
    assert Step(fader, target, alpha) == fader - m;
  }

  /** The level never moves away from the target: it does not fall while the
      target is 1.0 and does not rise while the target is 0.0. */
  lemma MovesTowardTarget(fader: real, target: real, attack: real, release: real)
    requires 0.0 <= fader <= 1.0 && (target == 0.0 || target == 1.0)
    requires 0.0 < attack <= 1.0 && 0.0 < release <= 1.0
    ensures target == 1.0 ==> NextFader(fader, target, attack, release) >= fader
    ensures target == 0.0 ==> NextFader(fader, target, attack, release) <= fader
  {
    ClipIsNoOp(fader, target, attack, release);
    var alpha := Coefficient(target, fader, attack, release);
    if target == 1.0 {
      StepUp(fader, target, alpha);
    } else {
      StepDown(fader, target, alpha);
    }
  }

  /** x raised to the n-th power. */
  function Pow(x: real, n: nat): real
  {
    if n == 0 then 1.0 else x * Pow(x, n - 1)
  }

  /** One attack step closes the distance to 1.0 by the factor (1 - attack);
      a level already at 1.0 stays there. */
  lemma AttackStep(g: real, attack: real, release: real)
    requires 0.0 <= g <= 1.0 && 0.0 < attack <= 1.0 && 0.0 < release <= 1.0
    ensures 1.0 - NextFader(g, 1.0, attack, release) == (1.0 - g) * (1.0 - attack)
  {
    ClipIsNoOp(g, 1.0, attack, release);
    if g < 1.0 {
      Distribute(1.0 - g, attack);
    } else {
      assert NextFader(g, 1.0, attack, release) == 1.0;
    }
  }

  /** One release step scales the level by (1 - release). */
  lemma ReleaseStep(g: real, attack: real, release: real)
    requires 0.0 <= g <= 1.0 && 0.0 < attack <= 1.0 && 0.0 < release <= 1.0
    ensures NextFader(g, 0.0, attack, release) == g * (1.0 - release)
  {
    ClipIsNoOp(g, 0.0, attack, release);
    Distribute(g, release);
  }

  lemma Distribute(d: real, alpha: real)
    ensures d - d * alpha == d * (1.0 - alpha)
  {
  }

  /** The arithmetic of one inductive step: a distance that is p times the
      initial distance d, shrunk by q, is (q * p) times d. */
  lemma Chain(x: real, y: real, p: real, pn: real, d: real, q: real)
    requires x == y * q && y == p * d && pn == q * p
    ensures x == pn * d
  {
  }

  /** Consecutive entries of `levels` are one block apart, each computed from
      the previous one with the same target. */
  ghost predicate Followed(levels: seq<real>, target: real, attack: real, release: real)
  {
    forall i {:trigger NextFader(levels[i], target, attack, release)} ::
      0 <= i < |levels| - 1 ==> levels[i + 1] == NextFader(levels[i], target, attack, release)
  }

  /** Every prefix of such a run is such a run. */
  lemma FollowedPrefix(levels: seq<real>, target: real, attack: real, release: real, n: nat)
    requires n <= |levels| && Followed(levels, target, attack, release)
    ensures Followed(levels[..n], target, attack, release)
  {
    var prefix := levels[..n];
    forall i | 0 <= i < |prefix| - 1
      ensures prefix[i + 1] == NextFader(prefix[i], target, attack, release)
    {
      assert prefix[i] == levels[i] && prefix[i + 1] == levels[i + 1];
      assert levels[i + 1] == NextFader(levels[i], target, attack, release);
    }
  }

  /** Every level of such a run lies in [0, 1] when the first one does. */
  lemma FollowedBounded(levels: seq<real>, target: real, attack: real, release: real, i: nat)
    requires i < |levels| && 0.0 <= levels[0] <= 1.0 && Followed(levels, target, attack, release)
    ensures 0.0 <= levels[i] <= 1.0
  {
    if i > 0 {
      assert levels[i] == NextFader(levels[i - 1], target, attack, release);
    }
  }

  /** One block of an attack run shrinks the distance to 1.0 by (1 - attack). */
  lemma AttackGap(levels: seq<real>, attack: real, release: real, i: nat)
    requires i + 1 < |levels| && 0.0 <= levels[0] <= 1.0 && 0.0 < attack <= 1.0 && 0.0 < release <= 1.0
    requires Followed(levels, 1.0, attack, release)
    ensures 1.0 - levels[i + 1] == (1.0 - levels[i]) * (1.0 - attack)
  {
    FollowedBounded(levels, 1.0, attack, release, i);
    AttackStep(levels[i], attack, release);
    assert levels[i + 1] == NextFader(levels[i], 1.0, attack, release);
  }

  /** One block of a release run scales the level by (1 - release). */
  lemma ReleaseGap(levels: seq<real>, attack: real, release: real, i: nat)
    requires i + 1 < |levels| && 0.0 <= levels[0] <= 1.0 && 0.0 < attack <= 1.0 && 0.0 < release <= 1.0
    requires Followed(levels, 0.0, attack, release)
    ensures levels[i + 1] == levels[i] * (1.0 - release)
  {
    FollowedBounded(levels, 0.0, attack, release, i);
    ReleaseStep(levels[i], attack, release);
    assert levels[i + 1] == NextFader(levels[i], 0.0, attack, release);
  }

  /** A run of blocks in which the stationary microphones stay above the
      threshold: the distance to full priority after n blocks is
      (1 - attack)^n times the initial distance. */
  lemma {:induction false} AttackConvergence(levels: seq<real>, attack: real, release: real)
    requires |levels| > 0 && 0.0 <= levels[0] <= 1.0 && 0.0 < attack <= 1.0 && 0.0 < release <= 1.0
    requires Followed(levels, 1.0, attack, release)
    ensures 1.0 - levels[|levels| - 1] == Pow(1.0 - attack, |levels| - 1) * (1.0 - levels[0])
  {
    var n := |levels| - 1;
    if n > 0 {
      var prefix := levels[..n];
      FollowedPrefix(levels, 1.0, attack, release, n);
      AttackConvergence(prefix, attack, release);
      assert prefix[n - 1] == levels[n - 1] && prefix[0] == levels[0];
      AttackGap(levels, attack, release, n - 1);
      Chain(1.0 - levels[n], 1.0 - levels[n - 1], Pow(1.0 - attack, n - 1), Pow(1.0 - attack, n), 1.0 - levels[0], 1.0 - attack);
    }
  }

  /** A run of blocks in which the stationary microphones stay below the
      threshold: the level after n blocks is (1 - release)^n times the initial
      level. */
  lemma {:induction false} ReleaseConvergence(levels: seq<real>, attack: real, release: real)
    requires |levels| > 0 && 0.0 <= levels[0] <= 1.0 && 0.0 < attack <= 1.0 && 0.0 < release <= 1.0
    requires Followed(levels, 0.0, attack, release)
    ensures levels[|levels| - 1] == Pow(1.0 - release, |levels| - 1) * levels[0]
  {
    var n := |levels| - 1;
    if n > 0 {
      var prefix := levels[..n];
      FollowedPrefix(levels, 0.0, attack, release, n);
      ReleaseConvergence(prefix, attack, release);
      assert prefix[n - 1] == levels[n - 1] && prefix[0] == levels[0];
      ReleaseGap(levels, attack, release, n - 1);
      Chain(levels[n], levels[n - 1], Pow(1.0 - release, n - 1), Pow(1.0 - release, n), levels[0], 1.0 - release);
    }
  }
}
