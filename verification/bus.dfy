/** Bus assignment, stationary peak detection and leader-weighted summation:
    how the engine folds the signals of all microphones into one signal per
    role (stationary, wire, safety). */
module Bus {
  import opened Signal

  /** The three role buses of the mix. */
  datatype Role = Stationary | Wire | Safety

  /** A microphone is routed by its location text: "DESK" feeds the stationary
      bus, "SAFETY" the safety bus, and any other location the wire bus. */
  function RouteOf(location: string): (r: Role)
    ensures r == Stationary <==> location == "DESK"
    ensures r == Safety <==> location == "SAFETY"
  {
    if location == "DESK" then Stationary
    else if location == "SAFETY" then Safety
    else Wire
  }

  /** The positions, in microphone-list order, of the microphones routed to
      `role`. */
  function Members(locations: seq<string>, role: Role): (r: seq<nat>)
    ensures forall j :: 0 <= j < |r| ==> r[j] < |locations| && RouteOf(locations[r[j]]) == role
    ensures forall i :: 0 <= i < |locations| && RouteOf(locations[i]) == role ==> i in r
  {
    if locations == [] then []
    else
      var n := |locations| - 1;
      var earlier := Members(locations[..n], role);
      if RouteOf(locations[n]) == role then earlier + [n] else earlier
  }

  /** A bus keeps the order of the microphone list. */
  lemma {:induction false} MembersInOrder(locations: seq<string>, role: Role)
    ensures forall j, j' :: 0 <= j < j' < |Members(locations, role)| ==>
              Members(locations, role)[j] < Members(locations, role)[j']
  {
    if locations != [] {
      var n := |locations| - 1;
      var m, earlier := Members(locations, role), Members(locations[..n], role);
      MembersInOrder(locations[..n], role);
      assert m == earlier + (if RouteOf(locations[n]) == role then [n] else []);
      forall j, j' | 0 <= j < j' < |m|
        ensures m[j] < m[j']
      {
        if j' == |earlier| {
          assert m[j] == earlier[j] < |locations[..n]| == n == m[j'];
        } else {
          assert m[j] == earlier[j] && m[j'] == earlier[j'];
        }
      }
    }
  }

  /** The signals placed on `role`'s bus, in microphone-list order. */
  function BusSignals(signals: seq<Samples>, locations: seq<string>, role: Role): (r: seq<Samples>)
    requires |signals| == |locations|
    ensures |r| == |Members(locations, role)|
    ensures forall j :: 0 <= j < |r| ==> r[j] == signals[Members(locations, role)[j]]
  {
    var m := Members(locations, role);
    seq(|m|, j requires 0 <= j < |m| => signals[m[j]])
  }

  /** Appending one more microphone appends its signal to exactly the bus its
      location routes to; this is the step of the assignment loop. */
  lemma BusSignalsSnoc(signals: seq<Samples>, locations: seq<string>, role: Role)
    requires |signals| == |locations| > 0
    ensures var n := |signals| - 1;
            BusSignals(signals, locations, role)
            == BusSignals(signals[..n], locations[..n], role)
               + (if RouteOf(locations[n]) == role then [signals[n]] else [])
  {
    var n := |signals| - 1;
    var m, m' := Members(locations, role), Members(locations[..n], role);
    assert m == m' + (if RouteOf(locations[n]) == role then [n] else []);
  }

  /** Every microphone lands on exactly one bus: the one its location names. */
  lemma ExactlyOneBus(locations: seq<string>, i: nat)
    requires i < |locations|
    ensures i in Members(locations, RouteOf(locations[i]))
    ensures forall role :: role != RouteOf(locations[i]) ==> i !in Members(locations, role)
  {
  }

  /** A bus no microphone is routed to is empty. */
  lemma {:induction false} NoMembers(locations: seq<string>, role: Role)
    requires forall i :: 0 <= i < |locations| ==> RouteOf(locations[i]) != role
    ensures Members(locations, role) == []
  {
    if locations != [] {
      NoMembers(locations[..|locations| - 1], role);
    }
  }

  /** The three buses together hold every microphone once. */
  lemma {:induction false} BusSizes(locations: seq<string>)
    ensures |Members(locations, Stationary)| + |Members(locations, Wire)| + |Members(locations, Safety)|
            == |locations|
  {
    if locations != [] {
      BusSizes(locations[..|locations| - 1]);
    }
  }

  /** The largest of `prior` and `x`, as Python's `max(prior, x)`. */
  function Max(prior: real, x: real): (r: real)
    ensures r >= prior && r >= x
    ensures r == prior || r == x
  {
    if x > prior then x else prior
  }

  /** The stationary peak: starting from 0.0, the running maximum of the
      energies of the DESK microphones, in list order. */
  function DeskPeak(energies: seq<real>, locations: seq<string>): (r: real)
    requires |energies| == |locations|
    ensures r >= 0.0
    ensures forall i :: 0 <= i < |energies| && locations[i] == "DESK" ==> energies[i] <= r
    ensures r == 0.0 || exists i :: 0 <= i < |energies| && locations[i] == "DESK" && r == energies[i]
  {
    if energies == [] then 0.0
    else
      var n := |energies| - 1;
      var earlier := DeskPeak(energies[..n], locations[..n]);
      if locations[n] == "DESK" then Max(earlier, energies[n]) else earlier
  }

  /** With non-negative energies and at least one DESK microphone, the peak is
      the energy of one of them: the maximum over the DESK microphones. */
  lemma DeskPeakIsMaximum(energies: seq<real>, locations: seq<string>, d: nat)
    requires |energies| == |locations|
    requires forall i :: 0 <= i < |energies| ==> energies[i] >= 0.0
    requires d < |locations| && locations[d] == "DESK"
    ensures exists i :: 0 <= i < |energies| && locations[i] == "DESK" && DeskPeak(energies, locations) == energies[i]
  {
    var p := DeskPeak(energies, locations);
    if p == 0.0 {
      assert energies[d] == p;
    }
  }

  /** Without DESK microphones the peak stays at its initial 0.0. */
  lemma {:induction false} DeskPeakWithoutDesk(energies: seq<real>, locations: seq<string>)
    requires |energies| == |locations|
    requires forall i :: 0 <= i < |locations| ==> locations[i] != "DESK"
    ensures DeskPeak(energies, locations) == 0.0
  {
    if energies != [] {
      var n := |energies| - 1;
      DeskPeakWithoutDesk(energies[..n], locations[..n]);
    }
  }

  /** The larger of two squares is the square of the larger value. */
  lemma MaxOfSquares(x: real, y: real)
    requires x >= 0.0 && y >= 0.0
    ensures Max(Sq(x), Sq(y)) == Sq(Max(x, y))
  {
    SquareComparison(x, y);
  }

  /** Taking the peak over mean squares gives the square of the peak over the
      RMS values: the running maximum commutes with squaring. */
  lemma {:induction false} DeskPeakOfSquares(rms: seq<real>, ms: seq<real>, locations: seq<string>)
    requires |rms| == |ms| == |locations|
    requires forall i :: 0 <= i < |rms| ==> rms[i] >= 0.0 && ms[i] == Sq(rms[i])
    ensures DeskPeak(ms, locations) == Sq(DeskPeak(rms, locations))
  {
    if rms != [] {
      var n := |rms| - 1;
      DeskPeakOfSquares(rms[..n], ms[..n], locations[..n]);
      var p, q := DeskPeak(rms[..n], locations[..n]), DeskPeak(ms[..n], locations[..n]);
      if locations[n] == "DESK" {
        assert DeskPeak(rms, locations) == Max(p, rms[n]);
        assert DeskPeak(ms, locations) == Max(q, ms[n]);
        MaxOfSquares(p, rms[n]);
      }
    }
  }

  /** The state of the assignment loop: the signals collected on each bus so
      far and the running stationary peak. */
  datatype Buses = Buses(stat: seq<Samples>, wire: seq<Samples>, safe: seq<Samples>, peak: real)

  /** One microphone's turn in the assignment loop: its signal joins the bus
      its location routes to, and a stationary microphone's energy updates the
      running peak. */
  function Take(b: Buses, role: Role, signal: Samples, energy: real): (r: Buses)
    ensures |r.stat| + |r.wire| + |r.safe| == |b.stat| + |b.wire| + |b.safe| + 1
    ensures r.peak >= b.peak
    ensures role == Stationary ==> r.stat == b.stat + [signal] && r.peak >= energy
    ensures role == Wire ==> r.wire == b.wire + [signal] && r.peak == b.peak
    ensures role == Safety ==> r.safe == b.safe + [signal] && r.peak == b.peak
    ensures role != Stationary ==> r.stat == b.stat
    ensures role != Wire ==> r.wire == b.wire
    ensures role != Safety ==> r.safe == b.safe
    ensures role == Stationary ==> r.peak == Max(b.peak, energy)
  {
    match role
    case Stationary => b.(stat := b.stat + [signal], peak := Max(b.peak, energy))
    case Wire => b.(wire := b.wire + [signal])
    case Safety => b.(safe := b.safe + [signal])
  }

  /** The loop state after the first n microphones, from empty buses and a
      peak of 0.0. */
  function Collect(signals: seq<Samples>, energies: seq<real>, locations: seq<string>, n: nat): (r: Buses)
    requires |signals| == |energies| == |locations| && n <= |signals|
    ensures |r.stat| + |r.wire| + |r.safe| == n
    ensures r.peak >= 0.0
  {
    if n == 0 then Buses([], [], [], 0.0)
    else Take(Collect(signals, energies, locations, n - 1), RouteOf(locations[n - 1]), signals[n - 1], energies[n - 1])
  }

  /** One more microphone is one more `Take`. */
  lemma CollectStep(signals: seq<Samples>, energies: seq<real>, locations: seq<string>, n: nat)
    requires |signals| == |energies| == |locations| && n < |signals|
    ensures Collect(signals, energies, locations, n + 1)
            == Take(Collect(signals, energies, locations, n), RouteOf(locations[n]), signals[n], energies[n])
  {
  }

  /** The assignment loop routes every signal to the bus of its location, in
      list order, and ends with the stationary peak. */
  lemma {:induction false} CollectIsRouting(signals: seq<Samples>, energies: seq<real>, locations: seq<string>)
    requires |signals| == |energies| == |locations|
    ensures Collect(signals, energies, locations, |signals|)
            == Buses(BusSignals(signals, locations, Stationary), BusSignals(signals, locations, Wire),
                     BusSignals(signals, locations, Safety), DeskPeak(energies, locations))
  {
    var n := |signals|;
    if n > 0 {
      var s, e, l := signals[..n - 1], energies[..n - 1], locations[..n - 1];
      CollectIsRouting(s, e, l);
      CollectPrefix(signals, energies, locations, n - 1);
      BusSignalsSnoc(signals, locations, Stationary);
      BusSignalsSnoc(signals, locations, Wire);
      BusSignalsSnoc(signals, locations, Safety);
    }
  }

  /** Collecting the first n microphones looks only at the first n. */
  lemma {:induction false} CollectPrefix(signals: seq<Samples>, energies: seq<real>, locations: seq<string>, n: nat)
    requires |signals| == |energies| == |locations| && n <= |signals|
    ensures Collect(signals, energies, locations, n) == Collect(signals[..n], energies[..n], locations[..n], n)
    decreases n
  {
    if n > 0 {
      CollectPrefix(signals, energies, locations, n - 1);
      CollectPrefix(signals[..n], energies[..n], locations[..n], n - 1);
      assert signals[..n][..n - 1] == signals[..n - 1];
      assert energies[..n][..n - 1] == energies[..n - 1];
      assert locations[..n][..n - 1] == locations[..n - 1];
    }
  }

  /** `np.argmax`: the first position of the largest value. */
  function ArgMax(xs: seq<real>): (r: nat)
    requires |xs| > 0
    ensures r < |xs|
    ensures forall j :: 0 <= j < |xs| ==> xs[j] <= xs[r]
    ensures forall j :: 0 <= j < r ==> xs[j] < xs[r]
  {
    if |xs| == 1 then 0
    else
      var n := |xs| - 1;
      var best := ArgMax(xs[..n]);
      if xs[n] > xs[best] then n else best
  }

  /** Any two lists ordered alike have the same argmax. */
  lemma ArgMaxOfOrderPreserving(xs: seq<real>, ys: seq<real>)
    requires |xs| == |ys| > 0
    requires forall i, j :: 0 <= i < |xs| && 0 <= j < |xs| ==> (xs[i] < xs[j] <==> ys[i] < ys[j])
    ensures ArgMax(xs) == ArgMax(ys)
  {
    var a, b := ArgMax(xs), ArgMax(ys);
    if a < b {
      assert false;
    } else if b < a {
      assert false;
    }
  }

  /** Squaring non-negative RMS values does not move the argmax, so choosing
      the leader by mean square picks the same signal as choosing it by RMS. */
  lemma ArgMaxOfSquares(rms: seq<real>, ms: seq<real>)
    requires |rms| == |ms| > 0
    requires forall j :: 0 <= j < |rms| ==> rms[j] >= 0.0 && ms[j] == rms[j] * rms[j]
    ensures ArgMax(ms) == ArgMax(rms)
  {
    forall i, j | 0 <= i < |rms| && 0 <= j < |rms|
      ensures rms[i] < rms[j] <==> ms[i] < ms[j]
    {
      SquareComparison(rms[i], rms[j]);
    }
    ArgMaxOfOrderPreserving(rms, ms);
  }

  /** The mean-square energy of every signal of a bus. */
  function Energies(signals: seq<Samples>): (r: seq<real>)
    ensures |r| == |signals|
    ensures forall j :: 0 <= j < |signals| ==> r[j] == MeanSquare(signals[j])
  {
    seq(|signals|, j requires 0 <= j < |signals| => MeanSquare(signals[j]))
  }

  /** The weight of signal i when `leader` is the loudest: 1.0 for the leader,
      0.4 for every other signal. */
  function Weight(i: nat, leader: nat): (r: real)
    ensures r == 1.0 || r == 0.4
    ensures r == 1.0 <==> i == leader
  {
    if i == leader then 1.0 else 0.4
  }

  /** Whether every signal has exactly `frames` samples. */
  predicate AllFrames(signals: seq<Samples>, frames: nat)
  {
    forall j :: 0 <= j < |signals| ==> |signals[j]| == frames
  }

  /** A bus carries signals of the block's length when every microphone
      signal has it. */
  lemma BusFrames(signals: seq<Samples>, locations: seq<string>, role: Role, frames: nat)
    requires |signals| == |locations| && AllFrames(signals, frames)
    ensures AllFrames(BusSignals(signals, locations, role), frames)
  {
  }

  /** The weighted sum of the first n signals, accumulated in list order. */
  function WeightedSum(signals: seq<Samples>, leader: nat, frames: nat, n: nat): (r: Samples)
    requires AllFrames(signals, frames) && n <= |signals|
    ensures |r| == frames
  {
    if n == 0 then Zeros(frames)
    else Add(WeightedSum(signals, leader, frames, n - 1), Scaled(signals[n - 1], Weight(n - 1, leader)))
  }

  /** `smart_sum` as a function: the zero signal for an empty bus, otherwise
      the weighted sum around the first signal of largest energy. */
  function LeaderWeightedSum(signals: seq<Samples>, frames: nat): (r: Samples)
    requires AllFrames(signals, frames)
    ensures |r| == frames
  {
    if |signals| == 0 then Zeros(frames)
    else WeightedSum(signals, ArgMax(Energies(signals)), frames, |signals|)
  }

  /** `smart_sum`: leader-weighted summation of one bus. */
  method SmartSum(signals: seq<Samples>, frames: nat) returns (combined: Samples)
    requires AllFrames(signals, frames)
    ensures combined == LeaderWeightedSum(signals, frames)
  {
    if |signals| == 0 {
      return Zeros(frames);
    }
    var leader := ArgMax(Energies(signals));
    combined := Zeros(frames);
    for i := 0 to |signals|
      invariant combined == WeightedSum(signals, leader, frames, i)
    {
      var weight := if i == leader then 1.0 else 0.4;
      combined := Add(combined, Scaled(signals[i], weight));
    }
  }

  /** Sample k summed over the first n signals, all at weight 1. */
  function SampleSum(signals: seq<Samples>, frames: nat, n: nat, k: nat): real
    requires AllFrames(signals, frames) && n <= |signals| && k < frames
  {
    if n == 0 then 0.0 else SampleSum(signals, frames, n - 1, k) + signals[n - 1][k]
  }

  /** Each sample of the accumulated sum is 0.4 of the plain sum, plus the
      leader's remaining 0.6 once the leader has been added. */
  lemma {:induction false} WeightedSumAt(signals: seq<Samples>, leader: nat, frames: nat, n: nat, k: nat)
    requires AllFrames(signals, frames) && n <= |signals| && k < frames && leader < |signals|
    ensures WeightedSum(signals, leader, frames, n)[k]
            == 0.4 * SampleSum(signals, frames, n, k) + (if leader < n then 0.6 * signals[leader][k] else 0.0)
  {
    if n > 0 {
      WeightedSumAt(signals, leader, frames, n - 1, k);
    }
  }

  /** Leader-weighted summation: each output sample is the leader's sample
      plus 0.4 times the samples of every other signal, where the leader is the
      first signal of largest energy. */
  lemma LeaderWeightedSumAt(signals: seq<Samples>, frames: nat, k: nat)
    requires AllFrames(signals, frames) && |signals| > 0 && k < frames
    ensures var leader := ArgMax(Energies(signals));
            LeaderWeightedSum(signals, frames)[k]
            == signals[leader][k] + 0.4 * (SampleSum(signals, frames, |signals|, k) - signals[leader][k])
  {
    WeightedSumAt(signals, ArgMax(Energies(signals)), frames, |signals|, k);
  }

  /** An empty bus contributes silence. */
  lemma EmptyBusIsSilent(frames: nat)
    ensures LeaderWeightedSum([], frames) == Zeros(frames)
  {
  }

  /** A bus with one signal passes it through unchanged. */
  lemma SingleSignalUnchanged(s: Samples)
    ensures LeaderWeightedSum([s], |s|) == s
  {
    forall k | 0 <= k < |s|
      ensures LeaderWeightedSum([s], |s|)[k] == s[k]
    {
      LeaderWeightedSumAt([s], |s|, k);
    }
  }

  /** Two signals of equal energy: the first one leads, so the result is
      1.0 times the first plus 0.4 times the second. */
  lemma TieGoesToFirst(a: Samples, b: Samples, k: nat)
    requires |a| == |b| && k < |a|
    requires MeanSquare(a) == MeanSquare(b)
    ensures LeaderWeightedSum([a, b], |a|)[k] == a[k] + 0.4 * b[k]
  {
    var e := Energies([a, b]);
    assert e[0] == e[1];
    assert ArgMax(e) == 0;
    LeaderWeightedSumAt([a, b], |a|, k);
    assert SampleSum([a, b], |a|, 1, k) == a[k];
    assert SampleSum([a, b], |a|, 2, k) == a[k] + b[k];
  }
}
