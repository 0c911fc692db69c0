/** The per-block engine: microphones that take their channel out of the
    input block, and the engine that routes their signals to the buses,
    updates the priority level and writes the mixed block to the output buffer
    in place. */
module AudioMatrix {
  import opened Signal
  import opened Bus
  import opened Envelope
  import opened Mixer

  /** One input block as the audio callback delivers it: `rows[k]` holds the
      samples of frame k, one per input channel. */
  datatype Block = Block(channels: nat, rows: seq<seq<real>>)
  {
    /** Every frame has one sample per channel. */
    predicate WellFormed()
    {
      forall k :: 0 <= k < |rows| ==> |rows[k]| == channels
    }

    /** The number of frames in the block. */
    function Frames(): nat
    {
      |rows|
    }
  }

  /** `indata[:, index]`: the samples of channel `index`, frame by frame. */
  function Column(indata: Block, index: nat): (r: Samples)
    requires indata.WellFormed() && index < indata.channels
    ensures |r| == indata.Frames()
    ensures forall k :: 0 <= k < |r| ==> r[k] == indata.rows[k][index]
  {
    seq(|indata.rows|, k requires 0 <= k < |indata.rows| && indata.WellFormed() && index < indata.channels
                         => indata.rows[k][index])
  }

  /** What a microphone on channel `index` with static `gain` takes from a
      block: its column times the gain, or silence of the block's length when
      the block has no such channel. */
  function MicSignal(indata: Block, index: nat, gain: real): (r: Samples)
    requires indata.WellFormed()
    ensures |r| == indata.Frames()
    ensures index >= indata.channels ==> r == Zeros(indata.Frames())
    ensures index < indata.channels ==> forall k :: 0 <= k < |r| ==> r[k] == indata.rows[k][index] * gain
  {
    if index >= indata.channels then Zeros(indata.Frames()) else Scaled(Column(indata, index), gain)
  }

  /** One site microphone: where it is read from, where it is routed, its
      static gain and the energy of the last signal it produced. */
  class Microphone {
    const name: string
    const index: nat
    const location: string
    const gain: real
    /** The square of `current_rms`: the mean square of the last in-range
        signal, 0.0 until there is one. */
    var currentMs: real

    constructor (name: string, channelIndex: nat, location: string := "FIELD", gain: real := 1.0)
      ensures this.name == name && index == channelIndex && this.location == location && this.gain == gain
      ensures currentMs == 0.0
    {
      this.name := name;
      index := channelIndex;
      this.location := location;
      this.gain := gain;
      currentMs := 0.0;
    }

    /** `get_signal`: the microphone's signal for this block. A channel the
        block does not have yields silence and leaves the stored energy as it
        was; otherwise the stored energy becomes that of the returned signal. */
    method GetSignal(indata: Block) returns (signal: Samples)
      requires indata.WellFormed()
      modifies this`currentMs
      ensures signal == MicSignal(indata, index, gain)
      ensures index >= indata.channels ==> currentMs == old(currentMs)
      ensures index < indata.channels ==> currentMs == MeanSquare(signal)
    {
      if index >= indata.channels {
        return Zeros(indata.Frames());
      }
      signal := Scaled(Column(indata, index), gain);
      currentMs := MeanSquare(signal);
    }
  }

  /** The stored energy of microphone `m` after one block, given its energy
      `prior` before it. */
  function EnergyAfter(m: Microphone, indata: Block, prior: real): (r: real)
    requires indata.WellFormed()
    ensures prior >= 0.0 ==> r >= 0.0
    ensures m.index < indata.channels ==> r == MeanSquare(MicSignal(indata, m.index, m.gain))
    ensures m.index >= indata.channels ==> r == prior
  {
    if m.index < indata.channels then MeanSquare(MicSignal(indata, m.index, m.gain)) else prior
  }

  /** The signals of all microphones for one block, in list order. */
  function Signals(mics: seq<Microphone>, indata: Block): (r: seq<Samples>)
    requires indata.WellFormed()
    ensures |r| == |mics| && AllFrames(r, indata.Frames())
    ensures forall i :: 0 <= i < |mics| ==> r[i] == MicSignal(indata, mics[i].index, mics[i].gain)
  {
    seq(|mics|, i requires 0 <= i < |mics| && indata.WellFormed() => MicSignal(indata, mics[i].index, mics[i].gain))
  }

  /** The stored energies of all microphones after one block, given their
      energies `before` it. */
  function EnergiesAfter(mics: seq<Microphone>, indata: Block, before: seq<real>): (r: seq<real>)
    requires indata.WellFormed() && |before| == |mics|
    ensures |r| == |mics|
    ensures forall i :: 0 <= i < |mics| ==> r[i] == EnergyAfter(mics[i], indata, before[i])
  {
    seq(|mics|, i requires 0 <= i < |mics| && indata.WellFormed() && |before| == |mics|
                  => EnergyAfter(mics[i], indata, before[i]))
  }

  /** The locations of all microphones, in list order. */
  function Locations(mics: seq<Microphone>): (r: seq<string>)
    ensures |r| == |mics| && forall i :: 0 <= i < |mics| ==> r[i] == mics[i].location
  {
    seq(|mics|, i requires 0 <= i < |mics| => mics[i].location)
  }

  /** The stored energies of all microphones, in list order. */
  function StoredEnergies(mics: seq<Microphone>): (r: seq<real>)
    reads mics
    ensures |r| == |mics| && forall i :: 0 <= i < |mics| ==> r[i] == mics[i].currentMs
  {
    if mics == [] then [] else StoredEnergies(mics[..|mics| - 1]) + [mics[|mics| - 1].currentMs]
  }

  /** The leader-weighted signal of `role`'s bus for one block. */
  function BusMix(signals: seq<Samples>, locations: seq<string>, role: Role, frames: nat): (r: Samples)
    requires |signals| == |locations| && AllFrames(signals, frames)
    ensures |r| == frames
  {
    BusFrames(signals, locations, role, frames);
    LeaderWeightedSum(BusSignals(signals, locations, role), frames)
  }

  /** The output block for one set of microphone signals: each role bus is
      leader-weighted, then crossfaded by `fader`, summed with the safety bus
      and clipped. */
  function MixBlock(signals: seq<Samples>, locations: seq<string>, fader: real, frames: nat): (r: Samples)
    requires |signals| == |locations| && AllFrames(signals, frames)
    ensures |r| == frames
    ensures forall k :: 0 <= k < frames ==> -Ceiling <= r[k] <= Ceiling
  {
    Compose(BusMix(signals, locations, Stationary, frames), BusMix(signals, locations, Wire, frames),
            BusMix(signals, locations, Safety, frames), fader)
  }

  /** Safety bypass at block level: with every microphone on the safety bus,
      the output is the clipped safety bus whatever the priority level. */
  lemma SafetyOnlyBlock(signals: seq<Samples>, locations: seq<string>, fader: real, frames: nat)
    requires |signals| == |locations| && AllFrames(signals, frames)
    requires forall i :: 0 <= i < |locations| ==> locations[i] == "SAFETY"
    ensures forall k :: 0 <= k < frames ==>
              MixBlock(signals, locations, fader, frames)[k] == Clip(BusMix(signals, locations, Safety, frames)[k], -Ceiling, Ceiling)
  {
    NoMembers(locations, Stationary);
    NoMembers(locations, Wire);
    SafetyBypass(frames, BusMix(signals, locations, Safety, frames), fader);
  }

  /** The engine's peak test on mean squares against the squared threshold
      is the engine's test of the largest DESK RMS against the threshold
      (`max_stat_rms > threshold_lin`). */
  lemma PeakTestMatchesRms(rms: seq<real>, ms: seq<real>, locations: seq<string>, threshold: real)
    requires |rms| == |ms| == |locations| && threshold >= 0.0
    requires forall i :: 0 <= i < |rms| ==> rms[i] >= 0.0 && ms[i] == Sq(rms[i])
    ensures Target(DeskPeak(ms, locations), threshold) == 1.0 <==> DeskPeak(rms, locations) > threshold
  {
    DeskPeakOfSquares(rms, ms, locations);
    TargetOfSquare(DeskPeak(rms, locations), threshold);
  }

  /** No microphone appears twice in the roster: each one differs from all
      those listed before it. */
  predicate Distinct(mics: seq<Microphone>)
  {
    mics == [] || (mics[|mics| - 1] !in mics[..|mics| - 1] && Distinct(mics[..|mics| - 1]))
  }

  /** In a roster without repetitions, two different positions hold two
      different microphones. */
  lemma {:induction false} DistinctAt(mics: seq<Microphone>, i: nat, j: nat)
    requires Distinct(mics) && i < |mics| && j < |mics| && i != j
    ensures mics[i] != mics[j]
  {
    var n := |mics| - 1;
    if i == n {
      assert mics[j] in mics[..n];
    } else if j == n {
      assert mics[i] in mics[..n];
    } else {
      DistinctAt(mics[..n], i, j);
    }
  }

  /** The mixing engine: the microphone roster, the persistent priority level
      and the constants derived once at start-up. */
  class AudioEngine {
    var fader: real
    const mics: seq<Microphone>
    const threshold: real
    const attack: real
    const release: real

    /** The level stays in [0, 1], the constants are in range, no microphone
        appears twice and every stored energy is non-negative. */
    ghost predicate Valid()
      reads this, mics
    {
      && 0.0 <= fader <= 1.0
      && ValidCoefficients(threshold, attack, release)
      && Distinct(mics)
      && (forall i :: 0 <= i < |mics| ==> mics[i].currentMs >= 0.0)
    }

    /** The site roster: the desk microphone on channel 0 with gain 6 and the
        wireless field microphone on channel 2 with gain 3; the level starts
        at 0. */
    constructor (threshold: real, attack: real, release: real)
      requires ValidCoefficients(threshold, attack, release)
      ensures Valid() && fader == 0.0
      ensures this.threshold == threshold && this.attack == attack && this.release == release
      ensures |mics| == 2 && fresh(mics[0]) && fresh(mics[1])
      ensures mics[0].currentMs == 0.0 && mics[1].currentMs == 0.0
      ensures mics[0].name == "Main Station" && mics[0].index == 0 && mics[0].location == "DESK" && mics[0].gain == 6.0
      ensures mics[1].name == "Wireless Field" && mics[1].index == 2 && mics[1].location == "FIELD" && mics[1].gain == 3.0
    {
      fader := 0.0;
      var desk := new Microphone("Main Station", 0, location := "DESK", gain := 6.0);
      var field := new Microphone("Wireless Field", 2, location := "FIELD", gain := 3.0);
      mics := [desk, field];
      this.threshold := threshold;
      this.attack := attack;
      this.release := release;
    }

    /** The bus-assignment loop of `process`: every microphone, in list
        order, takes its signal from `indata` and appends it to the bus its
        location names; the stationary peak is the running maximum of the
        updated energies of the DESK microphones. */
    method Route(indata: Block, ghost before: seq<real>)
      returns (statSigs: seq<Samples>, wireSigs: seq<Samples>, safeSigs: seq<Samples>, maxStatMs: real)
      requires Valid() && indata.WellFormed() && before == StoredEnergies(mics)
      modifies mics
      ensures Valid()
      ensures forall i :: 0 <= i < |mics| ==> mics[i].currentMs == EnergyAfter(mics[i], indata, old(mics[i].currentMs))
      ensures statSigs == BusSignals(Signals(mics, indata), Locations(mics), Stationary)
      ensures wireSigs == BusSignals(Signals(mics, indata), Locations(mics), Wire)
      ensures safeSigs == BusSignals(Signals(mics, indata), Locations(mics), Safety)
      ensures maxStatMs == DeskPeak(EnergiesAfter(mics, indata, before), Locations(mics))
    {
      ghost var signals, after, locations := Signals(mics, indata), EnergiesAfter(mics, indata, before), Locations(mics);
      var buses := Gather(indata, signals, after, locations);
      CollectIsRouting(signals, after, locations);
      statSigs, wireSigs, safeSigs, maxStatMs := buses.stat, buses.wire, buses.safe, buses.peak;
    }

    /** The loop itself: after it every microphone holds its updated energy
        and the buses hold the fold of `Take` over the whole roster. */
    method Gather(indata: Block, ghost signals: seq<Samples>, ghost after: seq<real>, ghost locations: seq<string>)
      returns (buses: Buses)
      requires Distinct(mics) && indata.WellFormed()
      requires |signals| == |after| == |locations| == |mics|
      requires forall j :: 0 <= j < |mics| ==> signals[j] == MicSignal(indata, mics[j].index, mics[j].gain)
      requires forall j :: 0 <= j < |mics| ==> after[j] == EnergyAfter(mics[j], indata, mics[j].currentMs)
      requires forall j :: 0 <= j < |mics| ==> locations[j] == mics[j].location
      modifies mics
      ensures forall j :: 0 <= j < |mics| ==> mics[j].currentMs == after[j]
      ensures buses == Collect(signals, after, locations, |mics|)
    {
      buses := Buses([], [], [], 0.0);
      for i := 0 to |mics|
        invariant forall j :: 0 <= j < |mics| ==> mics[j].currentMs == if j < i then after[j] else old(mics[j].currentMs)
        invariant buses == Collect(signals, after, locations, i)
      {
        CollectStep(signals, after, locations, i);
        buses := Visit(indata, i, buses, signals[i], after[i], RouteOf(locations[i]));
      }
    }

    /** One pass of the bus-assignment loop: microphone `i` takes its signal
        and the signal joins the bus its location names. */
    method Visit(indata: Block, i: nat, buses: Buses, ghost signal: Samples, ghost energy: real, ghost role: Role)
      returns (next: Buses)
      requires Distinct(mics) && indata.WellFormed() && i < |mics|
      requires signal == MicSignal(indata, mics[i].index, mics[i].gain)
      requires energy == EnergyAfter(mics[i], indata, mics[i].currentMs) && role == RouteOf(mics[i].location)
      modifies mics[i]
      ensures forall j :: 0 <= j < |mics| ==> mics[j].currentMs == if j == i then energy else old(mics[j].currentMs)
      ensures next == Take(buses, role, signal, energy)
    {
      var mic := mics[i];
      var sig := mic.GetSignal(indata);
      next := Take(buses, RouteOf(mic.location), sig, mic.currentMs);
      forall j | 0 <= j < |mics| && j != i
        ensures mics[j].currentMs == old(mics[j].currentMs)
      {
        DistinctAt(mics, i, j);
      }
    }

    /** The envelope follower of `process`: the target is 1.0 when the
        stationary peak is above the threshold, the level moves toward it with
        the attack or release coefficient and is clipped to [0, 1]. */
    method Follow(maxStatMs: real)
      requires Valid()
      modifies this`fader
      ensures Valid()
      ensures fader == NextFader(old(fader), Target(maxStatMs, threshold), attack, release)
    {
      var target := if maxStatMs > threshold * threshold then 1.0 else 0.0;
      var alpha := if target > fader then attack else release;
      fader := fader + (target - fader) * alpha;
      fader := Clip(fader, 0.0, 1.0);
    }

    /** `process`: one audio block. Every microphone takes its signal from
        `indata`; the stationary peak drives the priority level one step; the
        three buses are leader-weighted, crossfaded with gains taken from the
        updated level, summed with the safety bus, clipped, and written to
        output columns 0 and 1. */
    method Process(indata: Block, outdata: array2<real>)
      requires Valid() && indata.WellFormed()
      requires outdata.Length0 == indata.Frames() && outdata.Length1 >= 2
      modifies this, mics, outdata
      ensures Valid()
      ensures forall i :: 0 <= i < |mics| ==> mics[i].currentMs == EnergyAfter(mics[i], indata, old(mics[i].currentMs))
      ensures fader == NextFader(old(fader), Target(DeskPeak(EnergiesAfter(mics, indata, old(StoredEnergies(mics))),
                                                            Locations(mics)), threshold), attack, release)
      ensures forall k :: 0 <= k < outdata.Length0 ==>
                outdata[k, 0] == outdata[k, 1]
                == MixBlock(Signals(mics, indata), Locations(mics), fader, outdata.Length0)[k]
      ensures forall k, c :: 0 <= k < outdata.Length0 && 2 <= c < outdata.Length1 ==> outdata[k, c] == old(outdata[k, c])
    {
      var frames := indata.Frames();
      ghost var before := StoredEnergies(mics);
      ghost var f0 := fader;
      var statSigs, wireSigs, safeSigs, maxStatMs := Route(indata, before);
      assert fader == f0;
      Follow(maxStatMs);
      ghost var level := fader;
      assert level == NextFader(f0, Target(maxStatMs, threshold), attack, release);
      Render(Signals(mics, indata), Locations(mics), statSigs, wireSigs, safeSigs, frames, fader, outdata);
      assert fader == level;
    }
  }

  /** The output half of `process`: the three buses are leader-weighted,
      crossfaded by `level`, summed with the safety bus, clipped, and written
      to output columns 0 and 1. */
  method Render(ghost signals: seq<Samples>, ghost locations: seq<string>,
                statSigs: seq<Samples>, wireSigs: seq<Samples>, safeSigs: seq<Samples>, frames: nat,
                level: real, outdata: array2<real>)
    requires |signals| == |locations| && AllFrames(signals, frames)
    requires statSigs == BusSignals(signals, locations, Stationary)
    requires wireSigs == BusSignals(signals, locations, Wire)
    requires safeSigs == BusSignals(signals, locations, Safety)
    requires outdata.Length0 == frames && outdata.Length1 >= 2
    modifies outdata
    ensures forall k :: 0 <= k < frames ==>
              outdata[k, 0] == outdata[k, 1] == MixBlock(signals, locations, level, frames)[k]
    ensures forall k, c :: 0 <= k < frames && 2 <= c < outdata.Length1 ==> outdata[k, c] == old(outdata[k, c])
  {
    BusFrames(signals, locations, Stationary, frames);
    BusFrames(signals, locations, Wire, frames);
    BusFrames(signals, locations, Safety, frames);
    var statBus := SmartSum(statSigs, frames);
    var wireBus := SmartSum(wireSigs, frames);
    var safeBus := SmartSum(safeSigs, frames);
    WriteStereo(outdata, Compose(statBus, wireBus, safeBus, level));
  }

  /** `outdata[:, 0] = mixed` and `outdata[:, 1] = mixed`: the same mono mix on
      both output channels, every other channel untouched. */
  method WriteStereo(outdata: array2<real>, mixed: Samples)
    requires |mixed| == outdata.Length0 && outdata.Length1 >= 2
    modifies outdata
    ensures forall k :: 0 <= k < outdata.Length0 ==> outdata[k, 0] == mixed[k] && outdata[k, 1] == mixed[k]
    ensures forall k, c :: 0 <= k < outdata.Length0 && 2 <= c < outdata.Length1 ==> outdata[k, c] == old(outdata[k, c])
  {
    var k := 0;
    while k < outdata.Length0
      invariant 0 <= k <= outdata.Length0
      invariant forall j :: 0 <= j < k ==> outdata[j, 0] == mixed[j] && outdata[j, 1] == mixed[j]
      invariant forall j, c :: 0 <= j < outdata.Length0 && 2 <= c < outdata.Length1 ==> outdata[j, c] == old(outdata[j, c])
    {
      outdata[k, 0] := mixed[k];
      outdata[k, 1] := mixed[k];
      k := k + 1;
    }
  }
}
