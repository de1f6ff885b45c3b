/** The whole pipeline over a trace: the poller's frames, handed over in
    order, each handled by one consumer call. `clock[k]` is the elapsed time
    the consumer reads while handling frame `k`. */
module Pipeline {
  import opened Telemetry
  import opened History
  import opened Poller
  import opened Bookkeeping

  /** The consumer's state after handling the frames `fs` in order. */
  function Run(st: Snapshot, fs: seq<Frame>, clock: seq<real>): (r: Snapshot)
    requires WellFormed(st) && |clock| == |fs|
    ensures WellFormed(r)
    decreases |fs|
  {
    if fs == [] then st
    else
      var n := |fs| - 1;
      Step(Run(st, fs[..n], clock[..n]),
           Some(fs[n].pos), Some(fs[n].angles), Some(fs[n].strengths), clock[n])
  }

  /** The log records of a sequence of frames, one each, in order. */
  function Records(fs: seq<Frame>): (recs: seq<LogRecord>)
  {
    seq(|fs|, k requires 0 <= k < |fs| => RecordOf(fs[k].pos, fs[k].angles, fs[k].strengths))
  }

  /** The strengths of channel `c` carried by a sequence of frames. */
  function ChannelSeries(fs: seq<Frame>, c: nat): (series: seq<int>)
    requires c < Channels
  {
    seq(|fs|, k requires 0 <= k < |fs| => fs[k].strengths[c])
  }

  predicate Ascending(clock: seq<real>)
  {
    forall i, j :: 0 <= i < j < |clock| ==> clock[i] <= clock[j]
  }

  /** Handling frames appends exactly their records to the log, their times
      to the time series and their strengths to each history; nothing
      earlier is rewritten. */
  lemma RunAppends(st: Snapshot, fs: seq<Frame>, clock: seq<real>)
    requires WellFormed(st) && |clock| == |fs|
    ensures var r := Run(st, fs, clock);
      r.log == st.log + Records(fs) &&
      r.timeData == st.timeData + clock &&
      forall c :: 0 <= c < Channels ==> r.plotData[c] == st.plotData[c] + ChannelSeries(fs, c)
  {
    RunLogs(st, fs, clock);
    RunTimes(st, fs, clock);
    forall c | 0 <= c < Channels
      ensures Run(st, fs, clock).plotData[c] == st.plotData[c] + ChannelSeries(fs, c)
    {
      RunHistory(st, fs, clock, c);
    }
  }

  lemma {:induction false} RunLogs(st: Snapshot, fs: seq<Frame>, clock: seq<real>)
    requires WellFormed(st) && |clock| == |fs|
    ensures Run(st, fs, clock).log == st.log + Records(fs)
  {
    if fs != [] {
      var n := |fs| - 1;
      var mid := Run(st, fs[..n], clock[..n]);
      RunLogs(st, fs[..n], clock[..n]);
      var f := fs[n];
      StepLogs(mid, Some(f.pos), Some(f.angles), Some(f.strengths), clock[n]);
      assert Records(fs) == Records(fs[..n]) + [RecordOf(f.pos, f.angles, f.strengths)];
    }
  }

  lemma {:induction false} RunTimes(st: Snapshot, fs: seq<Frame>, clock: seq<real>)
    requires WellFormed(st) && |clock| == |fs|
    ensures Run(st, fs, clock).timeData == st.timeData + clock
  {
    if fs != [] {
      var n := |fs| - 1;
      var mid := Run(st, fs[..n], clock[..n]);
      RunTimes(st, fs[..n], clock[..n]);
      var f := fs[n];
      StepAppendsSample(mid, Some(f.pos), Some(f.angles), Some(f.strengths), clock[n]);
      assert clock == clock[..n] + [clock[n]];
    }
  }

  lemma {:induction false} RunHistory(st: Snapshot, fs: seq<Frame>, clock: seq<real>, c: nat)
    requires WellFormed(st) && |clock| == |fs| && c < Channels
    ensures Run(st, fs, clock).plotData[c] == st.plotData[c] + ChannelSeries(fs, c)
  {
    if fs != [] {
      var n := |fs| - 1;
      var mid := Run(st, fs[..n], clock[..n]);
      RunHistory(st, fs[..n], clock[..n], c);
      var f := fs[n];
      StepAppendsSample(mid, Some(f.pos), Some(f.angles), Some(f.strengths), clock[n]);
      assert ChannelSeries(fs, c) == ChannelSeries(fs[..n], c) + [f.strengths[c]];
    }
  }

  /** For any clock, the plot invariant holds after any sequence of frames,
      and y bounds and the paging counter never decrease along the way. */
  lemma {:induction false} RunMonotone(st: Snapshot, fs: seq<Frame>, clock: seq<real>)
    requires PlotInv(st) && |clock| == |fs|
    ensures var r := Run(st, fs, clock);
      PlotInv(r) &&
      r.updateCount >= st.updateCount &&
      forall c :: 0 <= c < Channels ==> r.yHigh[c] >= st.yHigh[c]
  {
    if fs != [] {
      var n := |fs| - 1;
      var mid := Run(st, fs[..n], clock[..n]);
      RunMonotone(st, fs[..n], clock[..n]);
      var f := fs[n];
      StepPreservesPlotInv(mid, Some(f.pos), Some(f.angles), Some(f.strengths), clock[n]);
      StepPages(mid, Some(f.pos), Some(f.angles), Some(f.strengths), clock[n]);
      forall c | 0 <= c < Channels
        ensures Run(st, fs, clock).yHigh[c] >= mid.yHigh[c]
      {
        StepScalesY(mid, Some(f.pos), Some(f.angles), Some(f.strengths), clock[n], c);
      }
    }
  }

  /** With a clock that does not run backwards, the whole invariant, the
      counter bound included, holds after any sequence of frames. */
  lemma {:induction false} RunPreservesInv(st: Snapshot, fs: seq<Frame>, clock: seq<real>)
    requires Inv(st) && |clock| == |fs| && Ascending(clock)
    requires |clock| > 0 ==> clock[0] >= Last(st.timeData)
    ensures Inv(Run(st, fs, clock))
  {
    if fs != [] {
      var n := |fs| - 1;
      var mid := Run(st, fs[..n], clock[..n]);
      RunPreservesInv(st, fs[..n], clock[..n]);
      RunAppends(st, fs[..n], clock[..n]);
      var f := fs[n];
      assert Last(mid.timeData) <= clock[n] by {
        if n > 0 {
          assert Last(mid.timeData) == clock[n - 1];
        }
      }
      StepPreservesInv(mid, Some(f.pos), Some(f.angles), Some(f.strengths), clock[n]);
    }
  }

  /** From session start, a trace of poll ticks yields a log holding exactly
      one record per complete tick, in tick order, and a time series one
      longer than the log; the invariant holds throughout. */
  lemma EndToEnd(rs: seq<Reading>, clock: seq<real>)
    requires |clock| == |Poll(rs)| && Ascending(clock)
    requires |clock| > 0 ==> clock[0] >= 0.0
    ensures var r := Run(Initial(), Poll(rs), clock);
      Inv(r) &&
      r.log == Records(Poll(rs)) &&
      |r.log| == |Picked(rs)| &&
      |r.timeData| == |r.log| + 1
  {
    InitialInv();
    RunPreservesInv(Initial(), Poll(rs), clock);
    RunAppends(Initial(), Poll(rs), clock);
    PollFollowsPicked(rs);
  }
}
