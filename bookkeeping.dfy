/** The consumer's bookkeeping for one delivered reading: the four strength
    histories and the shared time series behind the plots, the per-channel
    y-range that widens when a new maximum arrives, the x-range that pages
    forward in 30-unit steps, and the session log that receives one record
    per complete reading.

    `Snapshot` is the consumer's state as a value and `Step` says what one
    call does to it; the class `Core` holds the same state in fields that
    `UpdateData` changes in place, and is proved to follow `Step`. */
module Bookkeeping {
  import opened Telemetry
  import opened History

  /** Seed sample of every strength history. */
  const SeedStrength := 1000
  /** Initial upper end of every y-range; the lower end is -50 before and
      after every widening, so only the upper end is state. */
  const SeedYHigh := 1100
  /** Head-room above a new maximum when a y-range widens. */
  const YMargin := 100
  /** Width of the visible time window (`maxRange`). */
  const MaxRange: real := 30.0

  /** One session-log line, with the values before text formatting:
      position, angles, the four beacon flags and the four strengths. */
  datatype LogRecord = LogRecord(
    x: real, y: real, z: real,
    roll: real, pitch: real, yaw: real,
    beacons: seq<int>,
    strengths: Strengths)

  function RecordOf(p: Position, a: Angles, s: Strengths): (rec: LogRecord)
  {
    LogRecord(p.x, p.y, p.z, a.roll, a.pitch, a.yaw, BeaconFlags(p.mask), s)
  }

  /** The consumer's state. Channel `c` (0..3) stands for plot `c + 1`:
      `plotData[c]` is its strength history and `yHigh[c]` the upper end of
      its y-range; the four x-ranges are always set together and are kept
      once as `[xLow, xHigh]`. */
  datatype Snapshot = Snapshot(
    timeData: seq<real>,
    plotData: seq<seq<int>>,
    yHigh: seq<int>,
    xLow: real,
    xHigh: real,
    updateCount: nat,
    log: seq<LogRecord>)

  /** The shape every state has: four channels, none with an empty history. */
  predicate WellFormed(st: Snapshot)
  {
    |st.plotData| == Channels && |st.yHigh| == Channels &&
    forall c :: 0 <= c < Channels ==> |st.plotData[c]| > 0
  }

  function Last(s: seq<real>): (t: real)
    requires |s| > 0
  {
    s[|s| - 1]
  }

  /** The state at session start. */
  function Initial(): (st: Snapshot)
    ensures WellFormed(st)
  {
    Snapshot(
      [0.0],
      [[SeedStrength], [SeedStrength], [SeedStrength], [SeedStrength]],
      [SeedYHigh, SeedYHigh, SeedYHigh, SeedYHigh],
      0.0, MaxRange,
      0,
      [])
  }

  /** Index of the 30-unit window holding `elapsed`: `elapsed // 30`. */
  function Window(elapsed: real): (w: int)
  {
    (elapsed / MaxRange).Floor
  }

  /** Auto-scale of one channel: the history is the one before the new
      sample `v` is appended. A bound that sat 100 above the old history's
      maximum sits 100 above the maximum once `v` is appended, and has not
      come down. */
  function ScaleY(high: int, history: seq<int>, v: int): (r: int)
    requires |history| > 0
    ensures high == Max(history) + YMargin ==> r == Max(history + [v]) + YMargin && r >= high
  {
    MaxAppend(history, v);
    if v > Max(history) then v + YMargin else high
  }

  /** Whether a sample taken at `elapsed` pages the x-range forward. */
  predicate Pages(st: Snapshot, elapsed: real)
  {
    Window(elapsed) > st.updateCount
  }

  /** What a call with strengths present does to the plot state. */
  function Sample(st: Snapshot, s: Strengths, elapsed: real): (r: Snapshot)
    requires WellFormed(st)
    ensures WellFormed(r)
  {
    var paging := Pages(st, elapsed);
    st.(
      timeData := st.timeData + [elapsed],
      plotData := seq(Channels, c requires 0 <= c < Channels => st.plotData[c] + [s[c]]),
      yHigh := seq(Channels, c requires 0 <= c < Channels => ScaleY(st.yHigh[c], st.plotData[c], s[c])),
      updateCount := if paging then st.updateCount + 1 else st.updateCount,
      xLow := if paging then elapsed else st.xLow,
      xHigh := if paging then elapsed + MaxRange else st.xHigh)
  }

  /** What one call of the consumer does, for any combination of present and
      absent inputs. `elapsed` is the time since session start, read only
      when strengths are present. */
  function Step(st: Snapshot, pos: Option<Position>, angles: Option<Angles>,
                strengths: Option<Strengths>, elapsed: real): (r: Snapshot)
    requires WellFormed(st)
    ensures WellFormed(r)
  {
    var plotted := if strengths.Some? then Sample(st, strengths.value, elapsed) else st;
    if pos.Some? && angles.Some? && strengths.Some? then
      plotted.(log := plotted.log + [RecordOf(pos.value, angles.value, strengths.value)])
    else
      plotted
  }

  /** The relations the consumer keeps between its plot fields whatever the
      clock does: every history is as long as the time series, each y-range
      ends 100 above the maximum of its history, and the x-range is one
      window wide. */
  predicate PlotInv(st: Snapshot)
  {
    WellFormed(st) && |st.timeData| > 0 &&
    (forall c :: 0 <= c < Channels ==> |st.plotData[c]| == |st.timeData|) &&
    (forall c :: 0 <= c < Channels ==> st.yHigh[c] == Max(st.plotData[c]) + YMargin) &&
    st.xHigh - st.xLow == MaxRange
  }

  /** `PlotInv`, and the paging counter has not run ahead of the window of
      the latest sample; this last part needs a clock that does not step
      back. */
  predicate Inv(st: Snapshot)
  {
    PlotInv(st) && st.updateCount <= Window(Last(st.timeData))
  }

  /** The seed state satisfies the invariant: the initial y bound 1100 is
      the seed sample 1000 plus the head-room. */
  lemma InitialInv()
    ensures Inv(Initial())
  {
    var st := Initial();
    forall c | 0 <= c < Channels
      ensures st.yHigh[c] == Max(st.plotData[c]) + YMargin
    {
      assert st.plotData[c] == [SeedStrength];
    }
  }

  lemma WindowMonotone(a: real, b: real)
    requires a <= b
    ensures Window(a) <= Window(b)
  {
  }

  /** One call keeps the plot invariant, for any elapsed time. */
  lemma StepPreservesPlotInv(st: Snapshot, pos: Option<Position>, angles: Option<Angles>,
                             strengths: Option<Strengths>, elapsed: real)
    requires PlotInv(st)
    ensures PlotInv(Step(st, pos, angles, strengths, elapsed))
  {
    var r := Step(st, pos, angles, strengths, elapsed);
    if strengths.Some? {
      var s := strengths.value;
      forall c | 0 <= c < Channels
        ensures r.yHigh[c] == Max(r.plotData[c]) + YMargin
      {
        assert r.plotData[c] == st.plotData[c] + [s[c]];
        MaxAppend(st.plotData[c], s[c]);
      }
    }
  }

  /** One call keeps the whole invariant, counter bound included, provided
      the clock does not run backwards between samples. */
  lemma StepPreservesInv(st: Snapshot, pos: Option<Position>, angles: Option<Angles>,
                         strengths: Option<Strengths>, elapsed: real)
    requires Inv(st)
    requires strengths.Some? ==> elapsed >= Last(st.timeData)
    ensures Inv(Step(st, pos, angles, strengths, elapsed))
  {
    StepPreservesPlotInv(st, pos, angles, strengths, elapsed);
    var r := Step(st, pos, angles, strengths, elapsed);
    if strengths.Some? {
      assert Last(r.timeData) == elapsed;
      WindowMonotone(Last(st.timeData), elapsed);
    }
  }

  /** A clock that steps back can leave the counter ahead of the window of
      the latest sample, while the plot invariant still holds: samples at
      40, 70 and then 10 time units. */
  lemma CounterBoundNeedsMonotoneClock(s: Strengths)
    ensures var r := Step(Step(Step(Initial(), None, None, Some(s), 40.0),
                                None, None, Some(s), 70.0),
                           None, None, Some(s), 10.0);
      r.updateCount == 2 && !Inv(r) && PlotInv(r)
  {
    InitialInv();
    var r1 := Step(Initial(), None, None, Some(s), 40.0);
    assert Window(40.0) == 1;
    StepPreservesPlotInv(Initial(), None, None, Some(s), 40.0);
    var r2 := Step(r1, None, None, Some(s), 70.0);
    assert Window(70.0) == 2;
    StepPreservesPlotInv(r1, None, None, Some(s), 70.0);
    var r3 := Step(r2, None, None, Some(s), 10.0);
    assert Window(10.0) == 0;
    StepPreservesPlotInv(r2, None, None, Some(s), 10.0);
    assert Last(r3.timeData) == 10.0;
  }

  /** The histories and the time series grow by exactly one sample, the new
      strengths and the elapsed time, when strengths are present; and when
      they are absent nothing but the log changes. */
  lemma StepAppendsSample(st: Snapshot, pos: Option<Position>, angles: Option<Angles>,
                          strengths: Option<Strengths>, elapsed: real)
    requires WellFormed(st)
    ensures var r := Step(st, pos, angles, strengths, elapsed);
      if strengths.Some? then
        r.timeData == st.timeData + [elapsed] &&
        forall c :: 0 <= c < Channels ==> r.plotData[c] == st.plotData[c] + [strengths.value[c]]
      else
        r.(log := st.log) == st
  {
  }

  /** Channel `c`'s y-range widens exactly when the new strength exceeds the
      maximum of the history before the append, and then ends 100 above the
      new strength; it never narrows. */
  lemma StepScalesY(st: Snapshot, pos: Option<Position>, angles: Option<Angles>,
                    strengths: Option<Strengths>, elapsed: real, c: nat)
    requires PlotInv(st) && c < Channels
    ensures var r := Step(st, pos, angles, strengths, elapsed);
      r.yHigh[c] >= st.yHigh[c] &&
      (r.yHigh[c] > st.yHigh[c] <==> strengths.Some? && strengths.value[c] > Max(st.plotData[c])) &&
      (r.yHigh[c] > st.yHigh[c] ==> r.yHigh[c] == strengths.value[c] + YMargin)
  {
  }

  /** The paging counter goes up by exactly one when a sample's window index
      exceeds it and is otherwise unchanged; on that step the x-range moves
      to start at the sample's time, and it always stays one window wide. */
  lemma StepPages(st: Snapshot, pos: Option<Position>, angles: Option<Angles>,
                  strengths: Option<Strengths>, elapsed: real)
    requires WellFormed(st)
    ensures var r := Step(st, pos, angles, strengths, elapsed);
      var paging := strengths.Some? && Window(elapsed) > st.updateCount;
      r.updateCount == (if paging then st.updateCount + 1 else st.updateCount) &&
      (paging ==> r.xLow == elapsed && r.xHigh == elapsed + MaxRange) &&
      (!paging ==> r.xLow == st.xLow && r.xHigh == st.xHigh) &&
      (st.xHigh - st.xLow == MaxRange ==> r.xHigh - r.xLow == MaxRange)
  {
  }

  /** The log gains one record exactly when position, angles and strengths
      are all present, after the earlier records and with nothing between:
      the record carries the decoded beacon flags and the four strengths. */
  lemma StepLogs(st: Snapshot, pos: Option<Position>, angles: Option<Angles>,
                 strengths: Option<Strengths>, elapsed: real)
    requires WellFormed(st)
    ensures var r := Step(st, pos, angles, strengths, elapsed);
      if pos.Some? && angles.Some? && strengths.Some? then
        r.log == st.log + [RecordOf(pos.value, angles.value, strengths.value)] &&
        r.log[|st.log|].beacons == BeaconFlags(pos.value.mask) &&
        r.log[|st.log|].strengths == strengths.value
      else
        r.log == st.log
  {
  }

  /** The counter moves up one window per sample, not to the sample's
      window: a sample at 75 time units after a counter of 0 leaves the
      counter at 1 while the window index is 2, and the next sample pages
      again. */
  lemma PagingAdvancesByOne(st: Snapshot, s: Strengths)
    requires WellFormed(st) && st.updateCount == 0
    ensures var r := Step(st, None, None, Some(s), 75.0);
      Window(75.0) == 2 && r.updateCount == 1 &&
      Step(r, None, None, Some(s), 75.5).updateCount == 2
  {
    assert Window(75.0) == 2;
    assert Window(75.5) == 2;
  }

  /** The consumer object. Its fields are the source's `time_data`,
      `plot1_data`..`plot4_data` (as `plotData[0]`..`plotData[3]`), the four
      plots' y upper bounds and the shared x-range, `update_count`, and the
      log file's contents as a sequence of records. */
  class Core {
    var timeData: seq<real>
    var plotData: seq<seq<int>>
    var yHigh: seq<int>
    var xLow: real
    var xHigh: real
    var updateCount: nat
    var log: seq<LogRecord>

    function State(): (st: Snapshot)
      reads this
    {
      Snapshot(timeData, plotData, yHigh, xLow, xHigh, updateCount, log)
    }

    /** The plot invariant; it holds for any clock. */
    predicate Valid()
      reads this
    {
      PlotInv(State())
    }

    constructor ()
      ensures State() == Initial()
      ensures Valid() && Inv(State())
    {
      timeData := [0.0];
      plotData := [[SeedStrength], [SeedStrength], [SeedStrength], [SeedStrength]];
      yHigh := [SeedYHigh, SeedYHigh, SeedYHigh, SeedYHigh];
      xLow, xHigh := 0.0, MaxRange;
      updateCount := 0;
      log := [];
      InitialInv();
    }

    /** Handles one delivery of (possibly absent) position, angles and
        strengths; `elapsed` stands for the time since session start. */
    method UpdateData(pos: Option<Position>, angles: Option<Angles>,
                      strengths: Option<Strengths>, elapsed: real)
      requires Valid()
      modifies this
      ensures Valid()
      ensures State() == Step(old(State()), pos, angles, strengths, elapsed)
      ensures old(Inv(State())) && (strengths.Some? ==> elapsed >= Last(old(timeData))) ==> Inv(State())
    {
      ghost var before := State();
      var beacons: seq<int> := [];
      if pos.Some? {
        beacons := BeaconFlags(pos.value.mask);
      }
      if strengths.Some? {
        PlotSample(strengths.value, elapsed);
      }
      if pos.Some? && angles.Some? && strengths.Some? {
        var p, a := pos.value, angles.value;
        log := log + [LogRecord(p.x, p.y, p.z, a.roll, a.pitch, a.yaw, beacons, strengths.value)];
      }
      StepPreservesPlotInv(before, pos, angles, strengths, elapsed);
      if Inv(before) && (strengths.Some? ==> elapsed >= Last(before.timeData)) {
        StepPreservesInv(before, pos, angles, strengths, elapsed);
      }
    }

    /** The strengths branch of `UpdateData`: widen the y-ranges against the
        histories as they were, append the sample, and page the x-range. */
    method PlotSample(s: Strengths, elapsed: real)
      requires WellFormed(State())
      modifies this
      ensures State() == Sample(old(State()), s, elapsed)
    {
      ghost var before := State();
      var y0, y1, y2, y3 := yHigh[0], yHigh[1], yHigh[2], yHigh[3];
      if s[0] > Max(plotData[0]) { y0 := s[0] + YMargin; }
      if s[1] > Max(plotData[1]) { y1 := s[1] + YMargin; }
      if s[2] > Max(plotData[2]) { y2 := s[2] + YMargin; }
      if s[3] > Max(plotData[3]) { y3 := s[3] + YMargin; }
      ghost var after := Sample(before, s, elapsed);
      assert forall c :: 0 <= c < Channels ==> [y0, y1, y2, y3][c] == after.yHigh[c];
      yHigh := [y0, y1, y2, y3];
      plotData := [plotData[0] + [s[0]], plotData[1] + [s[1]],
                   plotData[2] + [s[2]], plotData[3] + [s[3]]];
      timeData := timeData + [elapsed];
      if Window(elapsed) > updateCount {
        updateCount := updateCount + 1;
        xLow, xHigh := elapsed, elapsed + MaxRange;
      }
      assert plotData == after.plotData;
    }
  }
}
