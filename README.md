# Locus diagnostics: telemetry consumer model

A Dafny model of the data path of the locus diagnostics viewer. A polling
thread reads position, attitude angles and four beacon signal strengths
from a localization unit. It forwards a tick only when all three readings
are present. The GUI-side consumer then keeps the plot state for each
delivered reading:

- four strength histories and a shared elapsed-time series, each seeded with one sample;
- a per-plot y-range whose upper end widens to `value + 100` when a new maximum arrives;
- a shared x-range that pages forward to `[elapsed, elapsed + 30]` when the window counter falls behind;
- a session log that receives one record per complete reading.

Modules:

- `Telemetry` (`telemetry.dfy`): the reading types and the beacon-mask decoding, with a reference encoding it inverts.
- `Poller` (`poller.dfy`): the completeness filter of the polling loop, as a pure function from a trace of ticks to the emitted frames.
- `History` (`history.dfy`): the maximum of a strength history.
- `Bookkeeping` (`bookkeeping.dfy`): the consumer's state as a value (`Snapshot`), one call as a function (`Step`), the invariants the state keeps (`PlotInv` for any clock, `Inv` adding the counter bound for a clock that does not step back) and the class `Core`. The fields of `Core` are the source's `time_data`, `plot1_data`..`plot4_data` and `update_count`, the y upper bounds and the shared x-range of the plot views `plot1`..`plot4`, and the contents of the log file `self.f` as a sequence of records. `UpdateData` changes them in place and is proved to follow `Step`.
- `Pipeline` (`pipeline.dfy`): the consumer folded over the poller's frames, with end-to-end facts from session start.

Channel `c` (0..3) stands for the source's `plot{c+1}_data` and `plot{c+1}`.
The source sets all four x-ranges together with the same values, so they
are kept as one pair. The lower end of every y-range is always -50, so
only the upper end is state.

The elapsed time `time() - zero_time` is a `real` parameter of
`UpdateData`, and `elapsed // 30` is `(elapsed / 30.0).Floor`.

`update_count` goes up by one per call, not to `elapsed // 30`. After a
gap between samples it falls behind `elapsed // 30` and pages again on the
next samples; `PagingAdvancesByOne` shows this at 75 time units. The
counter stays at most `elapsed // 30` of the latest sample only while the
clock does not step back; `CounterBoundNeedsMonotoneClock` shows a clock
that steps back breaking that bound, while the plot invariant still holds.

## Model

| member | source | states |
|---|---|---|
| `Telemetry.BeaconFlags` | main.py:89-92 | the mask decodes to four flags, and each flag is 0 or 1 |
| `Telemetry.FlagsAreMaskBits` | main.py:89-92 | flag `i + 1` is 1 exactly when bit `i` of the 4-bit mask is set (bit-vector reference) |
| `Telemetry.FlagsRecoverLowBits` | main.py:89-92 | re-encoding the four flags gives the mask modulo 16, for every integer mask |
| `Telemetry.DecodeEncoded` | main.py:89-92 | any four 0/1 flags packed into bits 0..3, with any higher bits, decode back to themselves |
| `Telemetry.Mask1011` | main.py:89-92 | mask 0b1011 decodes to beacons 1, 1, 0, 1 |
| `Telemetry.Mask0110` | main.py:89-92 | mask 0b0110 decodes to beacons 0, 1, 1, 0 |
| `Poller.Poll` | main.py:21-27 | no more frames than ticks; every frame comes from a complete tick of the trace; every complete tick yields a frame |
| `Poller.FrameRoundTrip` | main.py:25-26 | a frame is exactly the complete reading it was built from |
| `Poller.PollOne` | main.py:25-26 | one tick is forwarded, as one frame, if and only if position, angles and strengths are all present |
| `Poller.PollConcat` | main.py:21-27 | the frames of a burst of ticks are the frames of its first part followed by those of the rest, so order is kept and nothing is dropped |
| `Poller.PollFollowsPicked` | main.py:21-26 | frame `k` is built from the `k`-th complete tick, and there are as many frames as complete ticks |
| `Poller.PickedIncreasing` | main.py:21-26 | the ticks behind the frames are in increasing order |
| `Poller.PickedCoversComplete` | main.py:25-26 | every complete tick is among those forwarded |
| `History.Max` | main.py:143-150 | the maximum of a non-empty history belongs to it, and no element of it is larger |
| `History.MaxAppend` | main.py:143-155 | appending a strength changes the history's maximum exactly when the strength exceeds it |
| `History.MaxGrows` | main.py:152-155 | a history's maximum never shrinks as it grows |
| `Bookkeeping.Initial` | main.py:57-74 | ensures only that the seed state is well formed; its values are characterised by `InitialInv` |
| `Bookkeeping.ScaleY` | main.py:143-150 | when the old bound is the old history's maximum + 100, the new bound is the maximum after the append + 100, and it has not come down |
| `Bookkeeping.Sample` | main.py:143-169 | ensures only that the state stays well formed; its values are characterised by `StepAppendsSample`, `StepScalesY` and `StepPages` |
| `Bookkeeping.Step` | main.py:80-184 | ensures only that the state stays well formed; its values are characterised by `StepAppendsSample`, `StepScalesY`, `StepPages`, `StepLogs` and the invariant lemmas |
| `Bookkeeping.InitialInv` | main.py:59-74 | the seed state (time `[0]`, histories `[1000]`, y bound 1100, x-range `[0, 30]`, counter 0) satisfies the invariant: equal lengths, y bound = max + 100, x width 30, counter within the window |
| `Bookkeeping.StepPreservesPlotInv` | main.py:136-169 | for any elapsed time, one call keeps equal lengths, y bound = history maximum + 100 and x width 30 |
| `Bookkeeping.StepPreservesInv` | main.py:143-169 | one call also keeps the counter at most `elapsed // 30` of the latest sample when the clock does not run backwards |
| `Bookkeeping.CounterBoundNeedsMonotoneClock` | main.py:157-161 | samples at 40, 70, then 10 leave the counter at 2, above the latest sample's window, while the plot invariant still holds |
| `Bookkeeping.StepAppendsSample` | main.py:136-158 | with strengths, every history and the time series grow by exactly the new strength and the elapsed time; without them nothing but the log changes |
| `Bookkeeping.StepScalesY` | main.py:143-150 | a y bound never decreases; it increases exactly when the new strength exceeds the maximum of the history before the append, and then it becomes strength + 100 |
| `Bookkeeping.StepPages` | main.py:159-169 | the counter rises by exactly one when `elapsed // 30` exceeds it, and is otherwise unchanged; then the x-range becomes `[elapsed, elapsed + 30]`, otherwise it stays; its width stays 30 |
| `Bookkeeping.StepLogs` | main.py:177-184 | the log gains exactly one record, after the old ones, exactly when all three inputs are present; the record carries the decoded beacon flags and the four strengths |
| `Bookkeeping.PagingAdvancesByOne` | main.py:159-161 | a sample at 75 after counter 0 leaves the counter at 1 although the window index is 2, and the next sample pages again |
| `Bookkeeping.Core.constructor` | main.py:57-66 | the new consumer is in the seed state and satisfies both invariants |
| `Bookkeeping.Core.UpdateData` | main.py:80-184 | the new field values are `Step` of the old ones, for every mix of present and absent inputs; the plot invariant is kept for any clock, the counter bound when the clock is monotone |
| `Bookkeeping.Core.PlotSample` | main.py:143-169 | the strengths branch widens y bounds against the old histories, appends the sample and pages, as `Sample` states |
| `Pipeline.Run` | main.py:80-184 | ensures only that the state stays well formed; it folds one consumer call per delivered frame (main.py:26, 43), characterised by the `Run*` lemmas |
| `Pipeline.RunAppends` | main.py:152-184 | handling frames in order appends exactly their records to the log, their times to the time series and their strengths to each history |
| `Pipeline.RunLogs` | main.py:177-184 | handling frames in order appends exactly their records to the log |
| `Pipeline.RunTimes` | main.py:157-158 | handling frames in order appends exactly their times to the time series |
| `Pipeline.RunHistory` | main.py:152-155 | handling frames in order appends exactly channel `c`'s strengths to its history |
| `Pipeline.RunMonotone` | main.py:143-169 | for any clock, over any sequence of frames, the plot invariant holds and y bounds and the counter never decrease |
| `Pipeline.RunPreservesInv` | main.py:143-169 | over any sequence of frames with a monotone clock, the counter bound holds as well |
| `Pipeline.EndToEnd` | main.py:21-26 | from session start, the log holds exactly one record per complete tick, in tick order, and the time series is one longer than the log |

## Left out

- Qt widgets, text fields and `setText` strings, plot creation and `plot()` drawing calls: display side effects that keep no state the model needs.
- `QThread`, signal/slot dispatch, `msleep(100)` and `terminate()`: concurrency and timing. The hand-off is modelled as the in-order sequence of frames that `Pipeline.Run` folds over.
- The `us_nav` serial device and its `start`/`stop`: a foreign library. A trace of its answers is the input of `Poller.Poll`.
- `time()`, opening and closing the log file and `sys.exit`: I/O. The elapsed time is a parameter, and the log is a sequence of records.
- The `%.3f`/`%d` text formatting of log lines, and so the literal absence of a separator between lines. The model keeps records as values; each call appends only its own record to the sequence.
- Floating-point behaviour of `time()` and of `//` on floats: times are exact reals.
- Strengths: the model takes exactly four values; the source would also accept a longer list and ignore the rest.
- `Core.closeEvent` and `DataHandler.kill` (shutdown): lifecycle plumbing with no bookkeeping state.
