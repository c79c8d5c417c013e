/**
  The telemetry snapshot the dashboard components receive: the fields the lap
  and fuel trackers and the label derivations read, and the simulator flag bits.
 */
module Telemetry {

  /** Simulator flag masks (bits 0, 1 and 2 of `flags`). */
  const CAR_ON_TRACK: nat := 1
  const PAUSED: nat := 2
  const LOADING: nat := 4

  /** One stateless telemetry reading; lap times are integer milliseconds, fuel a percentage. */
  datatype Snapshot = Snapshot(
    currentLap: int,
    totalLaps: int,
    lastLapTime: int,
    fuelPercentage: real,
    flags: nat,
    currentPosition: int,
    totalPositions: int,
    suggestedGear: int)

  /** `Boolean(flags & mask)` for a one-bit mask: the bit of `flags` that `mask` selects is set. */
  predicate FlagSet(flags: nat, mask: nat)
    requires mask > 0
  {
    (flags / mask) % 2 == 1
  }

  predicate OnTrack(flags: nat) { FlagSet(flags, CAR_ON_TRACK) }
  predicate Paused(flags: nat) { FlagSet(flags, PAUSED) }
  predicate Loading(flags: nat) { FlagSet(flags, LOADING) }

  /** Setting the on-track bit leaves the paused and loading flags as they were. */
  lemma SetOnTrackKeepsOthers(f: nat)
    requires f % 2 == 0
    ensures OnTrack(f + 1) && Paused(f + 1) == Paused(f) && Loading(f + 1) == Loading(f)
  {
    assert (f + 1) / 2 == f / 2;
    assert (f + 1) / 4 == f / 4;
  }

  /** Setting the paused bit leaves the on-track and loading flags as they were. */
  lemma SetPausedKeepsOthers(f: nat)
    requires (f / 2) % 2 == 0
    ensures Paused(f + 2) && OnTrack(f + 2) == OnTrack(f) && Loading(f + 2) == Loading(f)
  {
    var q, r := f / 4, f % 4;
    assert f == 4 * q + r && f / 2 == 2 * q + r / 2;
    assert r < 2;
    assert (f + 2) / 4 == q;
    assert (f + 2) / 2 == f / 2 + 1;
  }

  /** Setting the loading bit leaves the on-track and paused flags as they were. */
  lemma SetLoadingKeepsOthers(f: nat)
    requires (f / 4) % 2 == 0
    ensures Loading(f + 4) && OnTrack(f + 4) == OnTrack(f) && Paused(f + 4) == Paused(f)
  {
    assert (f + 4) / 4 == f / 4 + 1;
    assert (f + 4) / 2 == f / 2 + 2;
  }

  /** A time or drift trial is signalled by a total lap count of zero. */
  function IsTrial(totalLaps: int): (r: bool)
    ensures r <==> totalLaps == 0
  {
    totalLaps == 0
  }

  /**
    Estimated laps remaining: the current fuel divided by the average fuel per
    lap, or 0 when there is no positive average yet.
   */
  function LapsRemaining(fuel: real, averageFuelPerLap: real): (r: real)
    ensures averageFuelPerLap > 0.0 ==> r * averageFuelPerLap == fuel
    ensures averageFuelPerLap <= 0.0 ==> r == 0.0
    ensures averageFuelPerLap > 0.0 && fuel >= 0.0 ==> r >= 0.0
  {
    if averageFuelPerLap > 0.0 then fuel / averageFuelPerLap else 0.0
  }
}
