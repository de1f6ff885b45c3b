/** The polling loop's completeness filter: of every poll tick's three
    readings, the tick is handed on as a frame exactly when position, angles
    and strengths are all present. The device and its cadence are not
    modelled; a trace of the device's answers is the input. */
module Poller {
  import opened Telemetry

  /** What one poll tick read from the device; any part may be missing. */
  datatype Reading = Reading(pos: Option<Position>, angles: Option<Angles>, strengths: Option<Strengths>)

  /** What the poller emits to the consumer: a tick with all three parts. */
  datatype Frame = Frame(pos: Position, angles: Angles, strengths: Strengths)

  predicate Complete(r: Reading) {
    r.pos.Some? && r.angles.Some? && r.strengths.Some?
  }

  function ToFrame(r: Reading): (f: Frame)
    requires Complete(r)
  {
    Frame(r.pos.value, r.angles.value, r.strengths.value)
  }

  /** The reading a frame was built from. */
  function AsReading(f: Frame): (r: Reading)
  {
    Reading(Some(f.pos), Some(f.angles), Some(f.strengths))
  }

  /** The frames emitted, in order, for a trace of poll ticks. Every frame
      comes from a complete reading of the trace, and every complete reading
      of the trace is emitted. */
  function Poll(rs: seq<Reading>): (fs: seq<Frame>)
    ensures |fs| <= |rs|
    ensures forall f :: f in fs ==> AsReading(f) in rs
    ensures forall r :: r in rs && Complete(r) ==> ToFrame(r) in fs
  {
    if rs == [] then []
    else
      var last := rs[|rs| - 1];
      assert rs == rs[..|rs| - 1] + [last];
      Poll(rs[..|rs| - 1]) + (if Complete(last) then [ToFrame(last)] else [])
  }

  /** A frame is exactly the complete reading it was built from. */
  lemma FrameRoundTrip(r: Reading, f: Frame)
    ensures Complete(AsReading(f)) && ToFrame(AsReading(f)) == f
    ensures Complete(r) ==> AsReading(ToFrame(r)) == r
  {
  }

  /** One tick is forwarded if and only if its reading is complete. */
  lemma PollOne(r: Reading)
    ensures Poll([r]) == if Complete(r) then [ToFrame(r)] else []
    ensures |Poll([r])| == 1 <==> Complete(r)
  {
    assert [r][..0] == [];
  }

  /** The channel is FIFO and drops nothing: a burst of ticks yields the
      frames of its first part followed by those of its second part. */
  lemma {:induction false} PollConcat(a: seq<Reading>, b: seq<Reading>)
    ensures Poll(a + b) == Poll(a) + Poll(b)
  {
    if b == [] {
      assert a + b == a;
    } else {
      var b' := b[..|b| - 1];
      assert (a + b)[..|a + b| - 1] == a + b';
      PollConcat(a, b');
    }
  }

  /** The indices of the complete readings of a trace, in increasing order. */
  function Picked(rs: seq<Reading>): (ix: seq<nat>)
    ensures forall k :: 0 <= k < |ix| ==> ix[k] < |rs|
  {
    if rs == [] then []
    else
      Picked(rs[..|rs| - 1]) + (if Complete(rs[|rs| - 1]) then [|rs| - 1] else [])
  }

  /** The emitted frames are the complete readings in their original order:
      frame `k` is built from reading `Picked(rs)[k]`, which is complete. */
  lemma {:induction false} PollFollowsPicked(rs: seq<Reading>)
    ensures |Poll(rs)| == |Picked(rs)|
    ensures forall k :: 0 <= k < |Picked(rs)| ==>
              Complete(rs[Picked(rs)[k]]) && Poll(rs)[k] == ToFrame(rs[Picked(rs)[k]])
  {
    if rs != [] {
      var n := |rs| - 1;
      var init := rs[..n];
      PollFollowsPicked(init);
      var fs, ix := Poll(init), Picked(init);
      assert forall k :: 0 <= k < |ix| ==> rs[ix[k]] == init[ix[k]];
      if Complete(rs[n]) {
        assert Poll(rs) == fs + [ToFrame(rs[n])];
        assert Picked(rs) == ix + [n];
        forall k | 0 <= k < |Picked(rs)|
          ensures Complete(rs[Picked(rs)[k]]) && Poll(rs)[k] == ToFrame(rs[Picked(rs)[k]])
        {
          if k < |ix| {
            assert Picked(rs)[k] == ix[k] && Poll(rs)[k] == fs[k];
          } else {
            assert Picked(rs)[k] == n && Poll(rs)[k] == ToFrame(rs[n]);
          }
        }
      } else {
        assert Poll(rs) == fs;
        assert Picked(rs) == ix;
        forall k | 0 <= k < |Picked(rs)|
          ensures Complete(rs[Picked(rs)[k]]) && Poll(rs)[k] == ToFrame(rs[Picked(rs)[k]])
        {
          assert Picked(rs)[k] == ix[k] && Poll(rs)[k] == fs[k];
        }
      }
    }
  }

  /** The picked indices strictly increase: no frame overtakes another. */
  lemma {:induction false} PickedIncreasing(rs: seq<Reading>)
    ensures forall k, l :: 0 <= k < l < |Picked(rs)| ==> Picked(rs)[k] < Picked(rs)[l]
  {
    if rs != [] {
      var n := |rs| - 1;
      PickedIncreasing(rs[..n]);
    }
  }

  /** Every complete reading is picked: no complete tick is dropped. */
  lemma {:induction false} PickedCoversComplete(rs: seq<Reading>, i: nat)
    requires i < |rs| && Complete(rs[i])
    ensures i in Picked(rs)
  {
    var n := |rs| - 1;
    if i < n {
      assert rs[..n][i] == rs[i];
      PickedCoversComplete(rs[..n], i);
    }
  }
}
