/**
  The refs and state cells of the lap-and-fuel tracker as mutable objects,
  in the two groups the effects use: the fuel cells, which only the refuel
  and lap-completion effects touch, and the timing cells, which only the
  lap-timing effect and the frame callback touch.  The blocks the Advanced
  and Standard components write identically are methods here, each
  specified by the step function of module LapFuel it implements.
 */
module TrackerCells {
  import opened Wrappers
  import opened Telemetry
  import opened LapFuel

  class FuelCells {
    var completedLaps: seq<LapData>
    var averageFuelPerLap: real
    var averageLapTime: real
    var prevLapForFuel: int
    var startFuel: real
    var prevFuel: real
    var totalFuelConsumed: real
    var fuelAddedThisLap: real

    ghost function Value(): FuelRefs
      reads this
    {
      FuelRefs(completedLaps, averageFuelPerLap, averageLapTime, prevLapForFuel,
               startFuel, prevFuel, totalFuelConsumed, fuelAddedThisLap)
    }

    /** The cells as mounted; the previous reading is the first render's fuel (`x || 100`). */
    constructor (first: Option<Snapshot>)
      ensures Value() == InitialFuel(first)
    {
      completedLaps, averageFuelPerLap, averageLapTime := [], 0.0, 0.0;
      prevLapForFuel := 0;
      startFuel := 100.0;
      prevFuel := if first.Some? && first.value.fuelPercentage != 0.0 then first.value.fuelPercentage else 100.0;
      totalFuelConsumed, fuelAddedThisLap := 0.0, 0.0;
    }

    /** The refuel-monitoring effect. */
    method RefuelEffect(data: Option<Snapshot>)
      modifies this
      ensures Value() == if data.Some? then RefuelStep(old(Value()), data.value) else old(Value())
    {
      if data.None? { return; }
      var currentFuelPercentage := data.value.fuelPercentage;
      if currentFuelPercentage > prevFuel + RefuelThreshold {
        var fuelAdded := currentFuelPercentage - prevFuel;
        fuelAddedThisLap := fuelAdded;
      }
      prevFuel := currentFuelPercentage;
    }

    /** The race-reset block of the lap-completion effect, on the fuel and record cells. */
    method ResetBlock(d: Snapshot)
      modifies this
      ensures Value() == RaceReset(old(Value()), d)
    {
      if d.currentLap == 1 && prevLapForFuel > 1 {
        completedLaps := [];
        averageFuelPerLap := 0.0;
        averageLapTime := 0.0;
        startFuel := d.fuelPercentage;
        totalFuelConsumed := 0.0;
        fuelAddedThisLap := 0.0;
        prevFuel := d.fuelPercentage;
      }
    }

    /** Append a lap record and recompute both averages. */
    method AppendRecord(fuelUsedThisLap: real, lapTime: int)
      modifies this
      ensures Value() == RecordLap(old(Value()), fuelUsedThisLap, lapTime)
    {
      totalFuelConsumed := totalFuelConsumed + fuelUsedThisLap;
      var newLaps := completedLaps + [LapData(fuelUsedThisLap, lapTime)];
      averageFuelPerLap := AverageFuel(newLaps);
      averageLapTime := AverageLapTime(newLaps);
      completedLaps := newLaps;
    }

    /** Rebase the fuel refs on the lap just started. */
    method RebaseLap(d: Snapshot)
      modifies this
      ensures Value() == old(Value()).(prevLapForFuel := d.currentLap, startFuel := d.fuelPercentage,
                                       fuelAddedThisLap := 0.0)
    {
      prevLapForFuel := d.currentLap;
      startFuel := d.fuelPercentage;
      fuelAddedThisLap := 0.0;
    }

    /** Estimated laps remaining from the current fuel and the average fuel per lap. */
    function EstimatedLapsRemaining(fuel: real): (r: real)
      reads this
      ensures averageFuelPerLap > 0.0 ==> r * averageFuelPerLap == fuel
      ensures averageFuelPerLap <= 0.0 ==> r == 0.0
    {
      LapsRemaining(fuel, averageFuelPerLap)
    }
  }

  class TimingCells {
    var currentLapTime: real
    var prevLapForTiming: int
    var lapStartTime: int
    var accumulatedTime: int
    var lastTick: int
    var wasOnTrack: bool
    var wasPaused: bool
    var wasLoading: bool
    var loop: Option<FrameLoop>

    ghost function Value(): TimingRefs
      reads this
    {
      TimingRefs(currentLapTime, prevLapForTiming, lapStartTime, accumulatedTime, lastTick,
                 wasOnTrack, wasPaused, wasLoading, loop)
    }

    /** The cells as mounted, both tick refs at `tick`, no frame loop scheduled. */
    constructor (tick: int)
      ensures Value() == InitialTiming(tick)
    {
      currentLapTime, prevLapForTiming := 0.0, 0;
      lapStartTime, accumulatedTime, lastTick := tick, 0, tick;
      wasOnTrack, wasPaused, wasLoading := false, false, false;
      loop := None;
    }

    /** The lap-timing effect: reset edges, lap change, pause edges, then (re)start the frame loop. */
    method TimingEffect(data: Option<Snapshot>, now: int)
      modifies this
      ensures Value() == if data.Some? then TimingStep(old(Value()), data.value, now)
                         else old(Value()).(loop := None)
    {
      if data.None? {
        loop := None;  // the cleanup of the previous run cancelled its frame loop
        return;
      }
      var d := data.value;
      var isOnTrack := OnTrack(d.flags);
      var isPaused := Paused(d.flags);
      var isLoading := Loading(d.flags);
      LoadingBlock(isLoading, now);
      TrackLossBlock(isOnTrack, now);
      wasOnTrack := isOnTrack;
      wasLoading := isLoading;
      LapChangeBlock(isOnTrack, d.currentLap, now);
      PauseBlock(isPaused, now);
      loop := Some(FrameLoop(isOnTrack, isPaused, d.currentLap));  // replaces the cancelled loop
    }

    /** LOADING rising edge. */
    method LoadingBlock(isLoading: bool, now: int)
      modifies this
      ensures Value() == LoadingCheck(old(Value()), isLoading, now)
    {
      if isLoading && !wasLoading {
        accumulatedTime := 0;
        currentLapTime := 0.0;
        lapStartTime := now;
        lastTick := now;
        prevLapForTiming := 0;
      }
    }

    /** On-track falling edge. */
    method TrackLossBlock(isOnTrack: bool, now: int)
      modifies this
      ensures Value() == TrackLossCheck(old(Value()), isOnTrack, now)
    {
      if wasOnTrack && !isOnTrack {
        accumulatedTime := 0;
        currentLapTime := 0.0;
        lapStartTime := now;
        prevLapForTiming := 0;
      }
    }

    /** A new lap while on track restarts the stopwatch. */
    method LapChangeBlock(isOnTrack: bool, lap: int, now: int)
      modifies this
      ensures Value() == LapChangeCheck(old(Value()), isOnTrack, lap, now)
    {
      if isOnTrack && lap > 0 && lap != prevLapForTiming {
        accumulatedTime := 0;
        currentLapTime := LapStartSentinel;
        lapStartTime := now;
        lastTick := now;
        prevLapForTiming := lap;
      }
    }

    /** Pause edges: bank the elapsed time on entry, rebase the tick on exit. */
    method PauseBlock(isPaused: bool, now: int)
      modifies this
      ensures Value() == PauseCheck(old(Value()), isPaused, now)
    {
      if isPaused != wasPaused {
        if isPaused {
          accumulatedTime := accumulatedTime + (now - lastTick);
        } else {
          lastTick := now;
        }
        wasPaused := isPaused;
      }
    }

    /** The animation-frame callback at wall-clock time `now`. */
    method Frame(now: int)
      modifies this
      ensures Value() == FrameStep(old(Value()), now)
    {
      if loop.Some? && loop.value.onTrack && loop.value.lap > 0 && !loop.value.paused {
        var currentTick := now;
        var elapsedSinceLastTick := currentTick - lastTick;
        lastTick := currentTick;
        accumulatedTime := accumulatedTime + elapsedSinceLastTick;
        currentLapTime := accumulatedTime as real;
      }
    }
  }
}
