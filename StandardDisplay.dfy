/**
  The tracker inside the Standard dashboard component: its refs and state
  cells are the fuel and timing cells of module TrackerCells, every effect
  body is a method, and `Frame` is the animation-frame callback.  Each
  method is specified by the step function of module LapFuel it
  implements, whose properties are proved there.
 */
module StandardDisplay {
  import opened Wrappers
  import opened Telemetry
  import opened LapFuel
  import opened TrackerCells

  class StandardTracker {
    const fuel: FuelCells
    const timing: TimingCells

    /** The abstract value of every ref and state cell. */
    ghost function State(): Tracker
      reads fuel, timing
    {
      Tracker(fuel.Value(), timing.Value())
    }

    /** Mounting with the first render's data; the tick refs start at the mount time. */
    constructor (first: Option<Snapshot>, now: int)
      ensures State() == Initial(first, now) && Consistent(State().fuel)
      ensures fresh(fuel) && fresh(timing)
    {
      fuel := new FuelCells(first);
      timing := new TimingCells(now);
      new;
      InitialConsistent(first);
    }

    /** The lap-completion effect. */
    method LapEffect(data: Option<Snapshot>)
      modifies fuel
      ensures fuel.Value() == if data.Some? then LapStep(old(fuel.Value()), data.value) else old(fuel.Value())
    {
      if data.None? { return; }
      fuel.ResetBlock(data.value);
      CompletionBlock(data.value);
    }

    /** The completion block of the lap-completion effect. */
    method CompletionBlock(d: Snapshot)
      modifies fuel
      ensures fuel.Value() == LapCompletion(old(fuel.Value()), d)
    {
      if d.currentLap > 0 && d.currentLap != fuel.prevLapForFuel {
        var fuelUsedThisLap := (fuel.startFuel + fuel.fuelAddedThisLap) - d.fuelPercentage;
        if fuelUsedThisLap > 0.0 {
          fuel.AppendRecord(fuelUsedThisLap, d.lastLapTime);
        }
        fuel.RebaseLap(d);
      }
    }

    /** One render: the three effects in declaration order. */
    method Ingest(data: Option<Snapshot>, now: int)
      requires Consistent(State().fuel)
      modifies fuel, timing
      ensures State() == LapFuel.Ingest(old(State()), data, now)
      ensures Consistent(State().fuel)
    {
      ghost var before := State();
      fuel.RefuelEffect(data);
      LapEffect(data);
      timing.TimingEffect(data, now);
      IngestConsistent(before, data, now);
    }

    /** The animation-frame callback at wall-clock time `now`. */
    method Frame(now: int)
      modifies timing
      ensures State() == old(State()).(timing := FrameStep(old(State()).timing, now))
    {
      timing.Frame(now);
    }

    /** Estimated laps remaining from the current fuel and the average fuel per lap. */
    function EstimatedLapsRemaining(fuelPercentage: real): (r: real)
      reads fuel
      ensures fuel.averageFuelPerLap > 0.0 ==> r * fuel.averageFuelPerLap == fuelPercentage
      ensures fuel.averageFuelPerLap <= 0.0 ==> r == 0.0
    {
      fuel.EstimatedLapsRemaining(fuelPercentage)
    }
  }
}
