/** The values the localization unit hands out on each poll: a position fix
    carrying the beacon liveness mask, attitude angles and four per-beacon
    signal strengths, each of which may be absent. */
module Telemetry {

  datatype Option<+T> = None | Some(value: T)

  /** A position fix `(x, y, z, mask)`; `mask` is the integer whose low four
      bits say which of the four reference beacons are alive. */
  datatype Position = Position(x: real, y: real, z: real, mask: int)

  /** An attitude reading `(roll, pitch, yaw)`. */
  datatype Angles = Angles(roll: real, pitch: real, yaw: real)

  /** The number of beacons, strength channels and plots. */
  const Channels := 4

  /** One integer signal strength per beacon, beacon 1 first. */
  type Strengths = s: seq<int> | |s| == Channels witness [0, 0, 0, 0]

  /** Flag of beacon `i + 1` for `i` in 0..3: the mask ANDed with `2^i` and
      shifted right by `i`. Dafny's `/` and `%` by a positive constant round
      toward negative infinity, so this is bit `i` of the mask in two's
      complement for every integer, as Python's `&` and `>>` compute it. */
  function BeaconFlags(mask: int): (flags: seq<int>)
    ensures |flags| == Channels
    ensures forall i :: 0 <= i < Channels ==> flags[i] == 0 || flags[i] == 1
  {
    [mask % 2, (mask / 2) % 2, (mask / 4) % 2, (mask / 8) % 2]
  }

  /** Reference encoding: the 4-bit mask whose bit `i` is `flags[i]`. */
  function MaskOf(flags: seq<int>): (m: int)
    requires |flags| == Channels
  {
    flags[0] + 2 * flags[1] + 4 * flags[2] + 8 * flags[3]
  }

  predicate IsFlag(b: int) { b == 0 || b == 1 }

  /** The four flags carry exactly the low four bits of the mask: re-encoding
      them gives the mask modulo 16, whatever the higher bits are. */
  lemma FlagsRecoverLowBits(mask: int)
    ensures MaskOf(BeaconFlags(mask)) == mask % 16
  {
    var k1 := mask / 2;
    var k2 := k1 / 2;
    var k3 := k2 / 2;
    var k4 := k3 / 2;
    var b0, b1, b2, b3 := mask % 2, k1 % 2, k2 % 2, k3 % 2;
    LowBit(b0, k1);
    LowBit(b1, k2);
    LowBit(b2, k3);
    LowBit(b3, k4);
    assert mask == (b0 + 2 * b1) + 4 * k2;
    LowBits4(b0 + 2 * b1, k2);
    assert mask == (b0 + 2 * b1 + 4 * b2) + 8 * k3;
    LowBits8(b0 + 2 * b1 + 4 * b2, k3);
    assert mask == MaskOf([b0, b1, b2, b3]) + 16 * k4;
    LowBits16(MaskOf([b0, b1, b2, b3]), k4);
    assert BeaconFlags(mask) == [b0, b1, b2, b3];
  }

  /** Decoding inverts the encoding: any four 0/1 flags put into bits 0..3,
      with anything above bit 3, decode to the same flags. */
  lemma DecodeEncoded(flags: seq<int>, high: int)
    requires |flags| == Channels
    requires forall i :: 0 <= i < Channels ==> IsFlag(flags[i])
    ensures BeaconFlags(MaskOf(flags) + 16 * high) == flags
  {
    var f0, f1, f2, f3 := flags[0], flags[1], flags[2], flags[3];
    assert IsFlag(f0) && IsFlag(f1) && IsFlag(f2) && IsFlag(f3);
    var k3 := f3 + 2 * high;
    var k2 := f2 + 2 * k3;
    var k1 := f1 + 2 * k2;
    var mask := f0 + 2 * k1;
    assert mask == MaskOf(flags) + 16 * high;
    LowBit(f0, k1);
    LowBit(f1, k2);
    LowBit(f2, k3);
    LowBit(f3, high);
    assert mask == (f0 + 2 * f1) + 4 * k2;
    LowBits4(f0 + 2 * f1, k2);
    assert mask == (f0 + 2 * f1 + 4 * f2) + 8 * k3;
    LowBits8(f0 + 2 * f1 + 4 * f2, k3);
    assert BeaconFlags(mask) == [mask % 2, k1 % 2, k2 % 2, k3 % 2];
    assert [mask % 2, k1 % 2, k2 % 2, k3 % 2] == [f0, f1, f2, f3];
  }

  /** Appending a bit below `k` and dividing by two recovers both. */
  lemma LowBit(b: int, k: int)
    requires IsFlag(b)
    ensures (b + 2 * k) % 2 == b && (b + 2 * k) / 2 == k
  {
  }

  lemma LowBits4(low: int, k: int)
    requires 0 <= low < 4
    ensures (low + 4 * k) / 4 == k
  {
  }

  lemma LowBits8(low: int, k: int)
    requires 0 <= low < 8
    ensures (low + 8 * k) / 8 == k
  {
  }

  lemma LowBits16(low: int, k: int)
    requires 0 <= low < 16
    ensures (low + 16 * k) % 16 == low
  {
  }

  /** Beacon `i + 1` is alive exactly when bit `i` of the 4-bit mask is set,
      stated with bit-vector operations as an independent reference. */
  lemma FlagsAreMaskBits(mask: bv4, i: nat)
    requires i < Channels
    ensures BeaconFlags(mask as int)[i] == if mask & (1 << i) == 0 then 0 else 1
  {
  }

  /** The mask 0b1011 (11) marks beacons 1, 2 and 4 alive and beacon 3 absent. */
  lemma Mask1011()
    ensures BeaconFlags(11) == [1, 1, 0, 1]
  {
  }

  /** The mask 0b0110 (6) marks beacons 2 and 3 alive. */
  lemma Mask0110()
    ensures BeaconFlags(6) == [0, 1, 1, 0]
  {
  }
}
