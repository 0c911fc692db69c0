# Site audio matrix, NASA POWER request URL and photo GPS position

This project models three pieces of a field-compliance toolkit in Dafny and
proves properties of them.

- **The audio matrix engine** (`Research/Audio_Matrix_Engine.py`) is called once per audio block.
  - Every microphone takes its channel out of the input block and scales it by a static gain. It also records the block's energy.
  - Each signal is routed by the microphone's location. `DESK` goes to the stationary bus, `SAFETY` to the safety bus and every other location to the wire bus.
  - The loudest stationary microphone drives a persistent priority level, the "fader". The fader moves toward 1.0 with a fast attack while that microphone is above the threshold, and toward 0.0 with a slow release otherwise. It is then clipped to [0, 1].
  - Each bus is summed around its loudest signal: the leader gets weight 1.0 and every other signal 0.4.
  - The stationary bus is faded in with gain `fader` and the wire bus faded out with gain `(1 - fader)^2`. The safety bus is always added at full weight.
  - The mix is clipped to [-0.9, 0.9] and written to output columns 0 and 1.

  The engine and its microphones are classes whose fields are updated in place. The output buffer is a two-dimensional array written in place. The summation and the bus assignment are loops proved against specification functions.
- **The NASA POWER request URL** (`Research/NASA_Power_API.py`, lines 40-52). A list starts with the hourly point endpoint and grows by one `&key=value` fragment per parameter whose value is not empty. Its second entry then loses every `&` character, and the list is joined.
  - `&` is removed from the whole first fragment, key and value included, not only from the front.
  - When no parameter has a value there is no second entry, and the builder fails.
- **The GPS position of a site photograph** (`Research/IMG_Processing.py`, lines 11-46). The degree/minute/second triples of the EXIF GPS block become decimal degrees. The latitude is negated for reference `S` and the longitude for `W`. A record holds, per axis, the reference, a readable DMS text and the decimal value.

Modules:

| Module | File | Contents |
|---|---|---|
| `Signal` | `signal.dfy` | Sample buffers and numpy-style element-wise arithmetic |
| `Mixer` | `mixer.dfy` | Crossfade gains, safety bypass and the output clip |
| `Envelope` | `envelope.dfy` | The fader update and its convergence over runs of blocks |
| `Bus` | `bus.dfy` | Routing, the stationary peak and leader-weighted summation |
| `AudioMatrix` | `engine.dfy` | The `Microphone` and `AudioEngine` classes and the per-block `Process` |
| `NasaPower` | `nasa_power.dfy` | The URL builder |
| `ImageLocation` | `image_location.dfy` | The GPS conversion |

Square roots are avoided. Every stored `current_rms` is carried as its square, `currentMs`, the mean square of the signal.
- The threshold test compares the largest DESK mean square with the squared threshold. `Bus.DeskPeakOfSquares` proves that the mean-square peak is the square of the RMS peak. `AudioMatrix.PeakTestMatchesRms` concludes that the test is the engine's test of the largest DESK RMS against the threshold (`max_stat_rms > threshold_lin`).
- The leader is chosen by mean square. `Bus.ArgMaxOfSquares` proves this picks the same signal as choosing by RMS.

A microphone whose channel is missing from the block keeps its previous energy, because `get_signal` returns before updating `current_rms` (`Research/Audio_Matrix_Engine.py:33`). It is not reset to 0.0.

## Model

| member | source | states |
|---|---|---|
| Signal.Zeros | Research/Audio_Matrix_Engine.py:33 | `np.zeros(n)` has length n and every sample is 0 |
| Signal.Scaled | Research/Audio_Matrix_Engine.py:34 | multiplying by the gain keeps the length and scales every sample |
| Signal.Add | Research/Audio_Matrix_Engine.py:90 | buffer addition is sample by sample |
| Signal.SumSquares | Research/Audio_Matrix_Engine.py:35 | the sum of squared samples is never negative |
| Signal.MeanSquare | Research/Audio_Matrix_Engine.py:35 | the energy (squared RMS) is never negative |
| Signal.MeanSquareOfZeros | Research/Audio_Matrix_Engine.py:33 | the silence returned for a missing channel has energy 0 |
| Signal.Clip | Research/Audio_Matrix_Engine.py:103 | `np.clip` lands in [lo, hi], leaves in-range values alone and maps values above or below to the bound |
| Signal.SquareComparison | Research/Audio_Matrix_Engine.py:78 | for non-negative values, comparing squares is comparing the values |
| Mixer.GainStat | Research/Audio_Matrix_Engine.py:98 | the stationary gain is 0 at fader 0 and 1 at fader 1 |
| Mixer.GainWire | Research/Audio_Matrix_Engine.py:99 | the squared wire gain is never negative |
| Mixer.MixSample | Research/Audio_Matrix_Engine.py:100-101 | at fader 0 the unclipped mix is wire plus safety, at fader 1 stationary plus safety |
| Mixer.GainsInUnit | Research/Audio_Matrix_Engine.py:98-99 | for a fader in [0, 1] both gains lie in [0, 1] and the wire gain never exceeds 1 - stationary gain |
| Mixer.GainsMonotone | Research/Audio_Matrix_Engine.py:98-99 | the stationary gain rises and the wire gain falls as the fader rises |
| Mixer.SafetyCarriesFullWeight | Research/Audio_Matrix_Engine.py:100-101 | a change d in the safety sample changes the unclipped mix by exactly d, whatever the fader |
| Mixer.Compose | Research/Audio_Matrix_Engine.py:100-103 | every output sample lies in [-0.9, 0.9]; it equals the unclipped mix when that is in range and the nearer bound otherwise |
| Mixer.SafetyBypass | Research/Audio_Matrix_Engine.py:100-103 | with silent stationary and wire buses the output is the clipped safety bus for every fader value |
| Envelope.Target | Research/Audio_Matrix_Engine.py:78 | the target is 0 or 1, and 1 exactly when the stationary peak is strictly above the threshold |
| Envelope.TargetOfSquare | Research/Audio_Matrix_Engine.py:78 | testing the mean square against the squared threshold is testing the RMS against the threshold: the target of a squared RMS value is 1 exactly when the RMS is above the threshold |
| Envelope.Step | Research/Audio_Matrix_Engine.py:80 | coefficient 0 leaves the fader where it is, coefficient 1 moves it onto the target |
| Envelope.Coefficient | Research/Audio_Matrix_Engine.py:79 | the attack coefficient is used exactly when the target is above the fader, the release coefficient otherwise |
| Envelope.NextFader | Research/Audio_Matrix_Engine.py:78-81 | the updated fader always lies in [0, 1] |
| Envelope.ClipIsNoOp | Research/Audio_Matrix_Engine.py:80-81 | from a fader in [0, 1] with coefficients in (0, 1] the smoothing step stays in [0, 1], so the clip changes nothing |
| Envelope.MovesTowardTarget | Research/Audio_Matrix_Engine.py:80-81 | the fader does not fall while the target is 1 and does not rise while it is 0 |
| Envelope.AttackStep | Research/Audio_Matrix_Engine.py:79-81 | one block with target 1 shrinks the distance to 1 by the factor (1 - attack) |
| Envelope.ReleaseStep | Research/Audio_Matrix_Engine.py:79-81 | one block with target 0 scales the fader by (1 - release) |
| Envelope.FollowedBounded | Research/Audio_Matrix_Engine.py:80-81 | along a run of blocks every fader value stays in [0, 1] |
| Envelope.AttackConvergence | Research/Audio_Matrix_Engine.py:78-81 | after n blocks above the threshold, the distance to full priority is (1 - attack)^n times the initial distance |
| Envelope.ReleaseConvergence | Research/Audio_Matrix_Engine.py:78-81 | after n blocks below the threshold, the fader is (1 - release)^n times its initial value |
| Bus.RouteOf | Research/Audio_Matrix_Engine.py:69-75 | the stationary bus exactly for `DESK`, the safety bus exactly for `SAFETY`, the wire bus for every other location |
| Bus.Members | Research/Audio_Matrix_Engine.py:67-75 | a bus holds exactly the microphones routed to it |
| Bus.MembersInOrder | Research/Audio_Matrix_Engine.py:67-75 | a bus keeps the order of the microphone list |
| Bus.BusSignals | Research/Audio_Matrix_Engine.py:67-75 | a bus holds the signals of its members, in order |
| Bus.BusSignalsSnoc | Research/Audio_Matrix_Engine.py:67-75 | one more microphone appends its signal to exactly the bus of its location |
| Bus.ExactlyOneBus | Research/Audio_Matrix_Engine.py:69-75 | every microphone is on the bus its location names and on no other |
| Bus.NoMembers | Research/Audio_Matrix_Engine.py:64-75 | a bus no location routes to stays empty |
| Bus.BusSizes | Research/Audio_Matrix_Engine.py:67-75 | the three buses together hold every microphone once |
| Bus.Max | Research/Audio_Matrix_Engine.py:71 | `max` is at least both arguments and equals one of them |
| Bus.MaxOfSquares | Research/Audio_Matrix_Engine.py:71 | for non-negative values the larger square is the square of the larger value |
| Bus.DeskPeakOfSquares | Research/Audio_Matrix_Engine.py:65-71 | the peak over mean squares is the square of the peak over RMS values |
| Bus.DeskPeak | Research/Audio_Matrix_Engine.py:65-71 | the running peak is non-negative, at least every DESK energy, and either 0 or one of them |
| Bus.DeskPeakIsMaximum | Research/Audio_Matrix_Engine.py:65-71 | with at least one DESK microphone the peak is the largest DESK energy |
| Bus.DeskPeakWithoutDesk | Research/Audio_Matrix_Engine.py:65-71 | without DESK microphones the peak stays 0 |
| Bus.Take | Research/Audio_Matrix_Engine.py:68-75 | one loop pass appends the signal to exactly the bus of its role, the other buses are unchanged, and the peak becomes max(peak, energy) for a stationary microphone and stays the same otherwise |
| Bus.Collect | Research/Audio_Matrix_Engine.py:64-75 | after n microphones the buses hold n signals between them and the peak is non-negative |
| Bus.CollectIsRouting | Research/Audio_Matrix_Engine.py:64-75 | the assignment loop produces the three routed buses and the DESK peak |
| Bus.ArgMax | Research/Audio_Matrix_Engine.py:86 | `np.argmax` is a position of a largest value with no largest value before it (ties go to the first) |
| Bus.ArgMaxOfOrderPreserving | Research/Audio_Matrix_Engine.py:86 | lists ordered alike have the same argmax |
| Bus.ArgMaxOfSquares | Research/Audio_Matrix_Engine.py:85-86 | choosing the leader by mean square picks the same signal as choosing it by RMS |
| Bus.Energies | Research/Audio_Matrix_Engine.py:85 | one energy per signal of the bus, in order |
| Bus.Weight | Research/Audio_Matrix_Engine.py:89 | the weight is 1.0 exactly for the leader and 0.4 for every other signal |
| Bus.WeightedSum | Research/Audio_Matrix_Engine.py:87-90 | the accumulated sum has the block length |
| Bus.LeaderWeightedSum | Research/Audio_Matrix_Engine.py:83-91 | `smart_sum` as a function has the block length; `Bus.LeaderWeightedSumAt` gives its samples |
| Bus.SmartSum | Research/Audio_Matrix_Engine.py:83-91 | the accumulation loop computes the leader-weighted sum (zeros for an empty bus) |
| Bus.WeightedSumAt | Research/Audio_Matrix_Engine.py:87-90 | after n signals each sample is 0.4 times their plain sum, plus 0.6 times the leader's sample once the leader is added |
| Bus.LeaderWeightedSumAt | Research/Audio_Matrix_Engine.py:83-91 | each output sample is the leader's sample plus 0.4 times the samples of every other signal |
| Bus.EmptyBusIsSilent | Research/Audio_Matrix_Engine.py:84 | an empty bus gives zeros of the block length |
| Bus.SingleSignalUnchanged | Research/Audio_Matrix_Engine.py:83-91 | a bus with one signal passes it through unchanged |
| Bus.TieGoesToFirst | Research/Audio_Matrix_Engine.py:86-90 | of two signals of equal energy the first leads |
| AudioMatrix.Column | Research/Audio_Matrix_Engine.py:34 | the column holds, per frame, the sample of that channel |
| AudioMatrix.MicSignal | Research/Audio_Matrix_Engine.py:33-34 | silence of the block length for a missing channel, else the channel's samples times the gain |
| AudioMatrix.Microphone.constructor | Research/Audio_Matrix_Engine.py:25-30 | the fields are set from the arguments (location `FIELD` and gain 1.0 by default) and the energy starts at 0 |
| AudioMatrix.Microphone.GetSignal | Research/Audio_Matrix_Engine.py:32-36 | returns the microphone's signal; a missing channel leaves the stored energy unchanged, otherwise the energy becomes that of the returned signal |
| AudioMatrix.EnergyAfter | Research/Audio_Matrix_Engine.py:33-35 | the stored energy after a block: the signal's energy for a present channel, the previous one otherwise, never negative |
| AudioMatrix.Signals | Research/Audio_Matrix_Engine.py:67-68 | one signal per microphone, each of the block length |
| AudioMatrix.EnergiesAfter | Research/Audio_Matrix_Engine.py:67-68 | each microphone's stored energy after the block |
| AudioMatrix.BusMix | Research/Audio_Matrix_Engine.py:93-95 | each leader-weighted bus has the block length |
| AudioMatrix.MixBlock | Research/Audio_Matrix_Engine.py:93-103 | the mixed block has the block length and every sample lies in [-0.9, 0.9] |
| AudioMatrix.PeakTestMatchesRms | Research/Audio_Matrix_Engine.py:71-78 | the target computed from the mean-square DESK peak is 1 exactly when the RMS DESK peak is above the threshold |
| AudioMatrix.SafetyOnlyBlock | Research/Audio_Matrix_Engine.py:93-103 | with only SAFETY microphones the output is the clipped safety bus whatever the fader |
| AudioMatrix.AudioEngine.constructor | Research/Audio_Matrix_Engine.py:51-60 | the fader starts at 0 and the roster is the desk microphone (channel 0, gain 6) and the field microphone (channel 2, gain 3), both with stored energy 0 |
| AudioMatrix.AudioEngine.Route | Research/Audio_Matrix_Engine.py:64-75 | every microphone's energy is updated, the buses hold the routed signals and the peak is the DESK maximum of the updated energies |
| AudioMatrix.AudioEngine.Gather | Research/Audio_Matrix_Engine.py:67-75 | the loop leaves every microphone with its updated energy and the buses in the state of the assignment fold |
| AudioMatrix.AudioEngine.Visit | Research/Audio_Matrix_Engine.py:68-75 | one pass updates only microphone i and appends its signal to the bus of its location |
| AudioMatrix.AudioEngine.Follow | Research/Audio_Matrix_Engine.py:78-81 | the fader becomes the next level for this block's target and stays in [0, 1] |
| AudioMatrix.AudioEngine.Process | Research/Audio_Matrix_Engine.py:62-106 | after one block: energies updated; fader advanced from the DESK peak; columns 0 and 1 both hold the clipped mix computed with the updated fader; other columns untouched |
| AudioMatrix.Render | Research/Audio_Matrix_Engine.py:93-106 | both output columns hold the mixed block for the given level and nothing else changes |
| AudioMatrix.WriteStereo | Research/Audio_Matrix_Engine.py:105-106 | columns 0 and 1 receive the mix and every other column is untouched |
| NasaPower.Fragment | Research/NASA_Power_API.py:49 | a fragment starts with `&` and is two characters longer than its key and value |
| NasaPower.Fragments | Research/NASA_Power_API.py:47-49 | there are at most as many fragments as parameters |
| NasaPower.Concat | Research/NASA_Power_API.py:52 | the joined text starts with the first part |
| NasaPower.WithoutAmpersands | Research/NASA_Power_API.py:51 | removing `&` never lengthens the text |
| NasaPower.QueryUrl | Research/NASA_Power_API.py:40-52 | the builder fails exactly when there is no fragment; on success the URL starts with the endpoint |
| NasaPower.BuildUrl | Research/NASA_Power_API.py:40-52 | the append loop, the in-place rewrite of the second entry and the join give `QueryUrl` |
| NasaPower.NoFragmentsIffNoValue | Research/NASA_Power_API.py:47-49 | there is no fragment exactly when every value is empty |
| NasaPower.FailsIffNoValue | Research/NASA_Power_API.py:51 | the builder fails (index error on `url[1]`) exactly when every value is empty |
| NasaPower.FragmentsAppend | Research/NASA_Power_API.py:47-49 | fragments follow the parameters' order |
| NasaPower.FragmentsOfOne | Research/NASA_Power_API.py:48-49 | one parameter gives its fragment exactly when its value is not empty |
| NasaPower.FragmentsSkipEmpty | Research/NASA_Power_API.py:47-49 | empty-valued parameters before the first valued one add nothing; that one gives the first fragment |
| NasaPower.FragmentSource | Research/NASA_Power_API.py:47-49 | every fragment comes from a parameter with a value |
| NasaPower.ValueGivesFragment | Research/NASA_Power_API.py:47-49 | every parameter with a value gives its fragment |
| NasaPower.FragmentShape | Research/NASA_Power_API.py:49 | every fragment starts with `&` followed by `key=value` of a parameter with a value |
| NasaPower.WithoutAmpersandsAppend | Research/NASA_Power_API.py:51 | removing `&` from a concatenation removes it from each part |
| NasaPower.NoAmpersandLeft | Research/NASA_Power_API.py:51 | no `&` remains after the removal |
| NasaPower.WithoutAmpersandsIdentity | Research/NASA_Power_API.py:51 | text without `&` is unchanged |
| NasaPower.StrippedFragment | Research/NASA_Power_API.py:49-51 | the first fragment loses its leading `&` and every `&` in its key and value |
| NasaPower.FirstFragment | Research/NASA_Power_API.py:47-52 | the URL is the endpoint, the first valued parameter as `key=value` without `&`, then the later fragments unchanged |
| NasaPower.NoAmpersandAfterQuery | Research/NASA_Power_API.py:51-52 | a successful URL never has `&` right after the `?` |
| NasaPower.AmpersandInFirstValueDropped | Research/NASA_Power_API.py:49-52 | a value `x&y` in the first fragment reaches the URL as `xy` |
| ImageLocation.Magnitude | Research/IMG_Processing.py:14 | with non-negative minutes and seconds the magnitude is at least the degrees |
| ImageLocation.DmsText | Research/IMG_Processing.py:13 | the DMS text is the degrees text, ` Degs, `, the minutes text, ` Mins, `, the seconds text and ` Secs`, in that order: each piece is stated at its position, and the whole is 19 characters longer than the three component texts |
| ImageLocation.Decimal | Research/IMG_Processing.py:14-17 | the decimal is plus or minus the magnitude; away from 0 it is the negated magnitude exactly when the reference is the negating one |
| ImageLocation.Axis | Research/IMG_Processing.py:11-17 | one axis carries its reference, its DMS text and its decimal |
| ImageLocation.Locate | Research/IMG_Processing.py:35-46 | the record's latitude is negated for `S` and its longitude for `W`; each holds its reference and DMS text |
| ImageLocation.DecimalAbsolute | Research/IMG_Processing.py:14-17 | for non-negative components the absolute decimal is the magnitude and the sign is set by the reference alone |
| ImageLocation.NegativeIffNegatingReference | Research/IMG_Processing.py:16-17 | away from 0 the decimal is negative exactly for the negating reference; `N`, `E`, lower case or empty text leave it positive |
| ImageLocation.MagnitudeInSeconds | Research/IMG_Processing.py:14 | the magnitude in seconds of arc is degrees·3600 + minutes·60 + seconds |
| ImageLocation.DegreesAreIntegralPart | Research/IMG_Processing.py:14 | when minutes and seconds make less than a degree, the whole degrees are the integral part of the magnitude |
| ImageLocation.OppositeReferences | Research/IMG_Processing.py:16-17 | switching to the negating reference flips the sign |
| ImageLocation.LocateSigns | Research/IMG_Processing.py:11-29 | away from the equator and the prime meridian the latitude is negative exactly for `S` and the longitude exactly for `W` |
| ImageLocation.ExampleDecimals | Research/IMG_Processing.py:11-29 | 51°30'0" N and 0°7'30" W give 51.5 and -0.125 |
| ImageLocation.ExampleText | Research/IMG_Processing.py:13 | 51, 30 and 0 give the text `51 Degs, 30 Mins, 0 Secs` |

## Left out

- The sound-device stream, the device-name and block-size constants, and the `__main__` driver are left out (`Research/Audio_Matrix_Engine.py:1-9,123-135`). They are hardware I/O and a callback thread.
- `render_dashboard` and `Microphone.get_meter` are left out. They are terminal output only.
- The threshold and the attack and release coefficients are constructor parameters within their ranges (`threshold >= 0`, `0 < attack, release <= 1`). The `10 ** (dB / 20)` and `1 - exp(...)` computations are floating-point transcendental calls and are not modelled.
- Samples are mathematical reals, so IEEE rounding, overflow and NaN are not modelled.
- Signal.MeanSquare: an empty block has energy 0.0 here, where numpy yields NaN.
- AudioMatrix.MicSignal: channel indices are natural numbers. Python's negative indexing of a column is not modelled.
- AudioMatrix.AudioEngine.Process: the `frames`, `time` and `status` arguments of the callback are not modelled. The block length is taken from `indata`, which is an immutable value. The output buffer is required to have the block's length and at least two columns.
- AudioMatrix.AudioEngine.constructor: takes the threshold and the two coefficients as arguments. It does not derive them from `THRESHOLD_DB`, `ATTACK_TIME`, `RELEASE_TIME`, `SAMPLE_RATE` and `BLOCK_SIZE`.
- The NASA builder's parameters are an ordered list of key/value text pairs. The uniqueness of dictionary keys is not modelled. Callers also pass numbers, for example coordinates and dates. Each such value stands for its f-string text, which is never empty, so the `!= ""` test and the fragment text are the same as for that text.
- The interactive `input()` branch, `print`, `requests.get`, the JSON decoding and the `__main__` demo of `Research/NASA_Power_API.py` are left out. They are terminal and network I/O.
- Python's text rendering of a value inside an f-string is taken as given: each `ImageLocation.Component` carries its text next to its value.
- The decimal is a real, so the float64 rounding of the divisions is not modelled; it is not rounded to 5 places, which happens only in printed output.
- Opening the image and reading its EXIF table are left out (`Research/IMG_Processing.py:8-9`). So is a missing `GPSInfo` entry, which would raise `KeyError`. These are foreign library calls and I/O.
- The Streamlit pages (`StreamlitHome.py`, `pages/`) are user-interface glue and are not part of this model.
