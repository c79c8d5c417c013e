/**
  The tracker inside the Advanced dashboard component.  Its refuel, lap and
  timing effects are those of module LapFuel; on top of them it keeps a
  chart history of the last five laps and an initialisation effect that
  rebases both tick refs, which start at 0, on the first commit.
 */
module AdvancedDisplay {
  import opened Wrappers
  import opened Telemetry
  import opened LapFuel
  import opened TrackerCells

  /** One point of the lap chart: lap number, lap time in seconds, fuel used. */
  datatype HistoryEntry = HistoryEntry(lap: int, time: real, fuel: real)

  datatype AdvancedState = AdvancedState(core: Tracker, lapHistory: seq<HistoryEntry>, isInitialized: bool)

  /** The chart keeps the previous four points plus the new one. */
  const HistoryKeep: nat := 4

  /** The last `n` elements of `s` (all of them when there are fewer), as `slice(-n)` does. */
  function LastN<T>(s: seq<T>, n: nat): (r: seq<T>)
    ensures |r| == if |s| < n then |s| else n
    ensures r == s[|s| - |r|..]
  {
    if |s| <= n then s else s[|s| - n..]
  }

  /** The state when the component mounts: both tick refs hold 0 until the init effect runs. */
  function AdvancedInitial(first: Option<Snapshot>): (a: AdvancedState)
    ensures a.core == Initial(first, 0) && a.lapHistory == [] && !a.isInitialized
  {
    AdvancedState(Initial(first, 0), [], false)
  }

  /** The mount-only effect: the first run rebases both tick refs on `now`. */
  function InitStep(a: AdvancedState, now: int): (r: AdvancedState)
    ensures r.isInitialized
    ensures !a.isInitialized ==>
      r.core == a.core.(timing := a.core.timing.(lapStartTime := now, lastTick := now))
    ensures a.isInitialized ==> r == a
    ensures r.lapHistory == a.lapHistory
  {
    if !a.isInitialized then
      a.(core := a.core.(timing := a.core.timing.(lapStartTime := now, lastTick := now)), isInitialized := true)
    else a
  }

  /** The chart point recorded for the lap that `d` completes. */
  function NewEntry(f: FuelRefs, d: Snapshot): HistoryEntry {
    HistoryEntry(d.currentLap - 1, d.lastLapTime as real / 1000.0, FuelUsedThisLap(f, d))
  }

  /** The history update of the completion block, on the fuel refs after the reset block. */
  function HistoryAppend(f: FuelRefs, h: seq<HistoryEntry>, d: Snapshot): (r: seq<HistoryEntry>)
    ensures !(IsLapTransition(f, d) && d.lastLapTime > 0) ==> r == h
    ensures IsLapTransition(f, d) && d.lastLapTime > 0 ==>
      |r| == (if |h| < HistoryKeep then |h| else HistoryKeep) + 1 &&
      r[|r| - 1] == NewEntry(f, d) &&
      r[..|r| - 1] == h[|h| - (|r| - 1)..]
    ensures |h| <= HistoryKeep + 1 ==> |r| <= HistoryKeep + 1
  {
    if IsLapTransition(f, d) && d.lastLapTime > 0 then LastN(h, HistoryKeep) + [NewEntry(f, d)]
    else h
  }

  /** The history part of the lap-completion effect, on the fuel refs after the refuel effect. */
  function HistoryStep(f: FuelRefs, h: seq<HistoryEntry>, d: Snapshot): seq<HistoryEntry> {
    HistoryAppend(RaceReset(f, d), if IsRaceReset(f, d) then [] else h, d)
  }

  /** One render: the init, refuel, lap-completion and lap-timing effects, in declaration order. */
  function AdvancedIngest(a: AdvancedState, data: Option<Snapshot>, now: int): AdvancedState {
    var a0 := InitStep(a, now);
    match data
    case None => a0.(core := a0.core.(timing := a0.core.timing.(loop := None)))
    case Some(d) =>
      var f := RefuelStep(a0.core.fuel, d);
      AdvancedState(Tracker(LapStep(f, d), TimingStep(a0.core.timing, d, now)),
                    HistoryStep(f, a0.lapHistory, d), a0.isInitialized)
  }

  /** One run of the animation-frame callback. */
  function AdvancedFrame(a: AdvancedState, now: int): AdvancedState {
    a.(core := a.core.(timing := FrameStep(a.core.timing, now)))
  }

  /** The invariant: the fuel refs are consistent and the chart holds at most five points. */
  ghost predicate AdvancedValid(a: AdvancedState) {
    Consistent(a.core.fuel) && |a.lapHistory| <= HistoryKeep + 1
  }

  // ---------------------------------------------------------------- lemmas

  /** The tracker part of a render is the shared render after the init effect. */
  lemma AdvancedCoreIsShared(a: AdvancedState, data: Option<Snapshot>, now: int)
    ensures AdvancedIngest(a, data, now).core == LapFuel.Ingest(InitStep(a, now).core, data, now)
    ensures AdvancedIngest(a, data, now).isInitialized
  {
  }

  lemma AdvancedInitialValid(first: Option<Snapshot>)
    ensures AdvancedValid(AdvancedInitial(first))
  {
    InitialConsistent(first);
  }

  /** Renders and frames keep the invariant. */
  lemma AdvancedIngestValid(a: AdvancedState, data: Option<Snapshot>, now: int)
    requires AdvancedValid(a)
    ensures AdvancedValid(AdvancedIngest(a, data, now))
    ensures AdvancedValid(AdvancedFrame(a, now))
  {
    var a0 := InitStep(a, now);
    assert a0.core.fuel == a.core.fuel;
    IngestConsistent(a0.core, data, now);
    if data.Some? {
      var d := data.value;
      var f := RefuelStep(a0.core.fuel, d);
      var h1 := if IsRaceReset(f, d) then [] else a0.lapHistory;
      assert |h1| <= HistoryKeep + 1;
      assert |HistoryAppend(RaceReset(f, d), h1, d)| <= HistoryKeep + 1;
    }
  }

  /** The init effect acts once: a second run changes nothing. */
  lemma InitStepIdempotent(a: AdvancedState, now: int, later: int)
    ensures InitStep(InitStep(a, now), later) == InitStep(a, now)
  {
  }

  /**
    A race reset restarts the chart: it holds only the point for the lap just
    finished when the game reports a last lap time, and nothing otherwise.
   */
  lemma ResetRestartsHistory(f: FuelRefs, h: seq<HistoryEntry>, d: Snapshot)
    requires IsRaceReset(f, d)
    ensures HistoryStep(f, h, d) ==
      if d.lastLapTime > 0 then [HistoryEntry(0, d.lastLapTime as real / 1000.0, FuelUsedThisLap(RaceReset(f, d), d))]
      else []
  {
    var f1 := RaceReset(f, d);
    assert IsLapTransition(f1, d);
  }

  /**
    The chart and the fuel records diverge: a lap completion with a last lap
    time adds a chart point even when it used no fuel, though no lap record
    is appended for it.
   */
  lemma HistoryIgnoresFuelSign(f: FuelRefs, h: seq<HistoryEntry>, d: Snapshot)
    requires !IsRaceReset(f, d) && IsLapTransition(f, d) && d.lastLapTime > 0
    requires FuelUsedThisLap(f, d) <= 0.0
    ensures LapStep(f, d).completedLaps == f.completedLaps
    ensures |HistoryStep(f, h, d)| >= 1
    ensures HistoryStep(f, h, d)[|HistoryStep(f, h, d)| - 1].fuel == FuelUsedThisLap(f, d)
  {
  }

  /** Without a completion, or without a last lap time, the chart keeps its points. */
  lemma HistoryUnchangedWithoutCompletion(f: FuelRefs, h: seq<HistoryEntry>, d: Snapshot)
    requires !IsRaceReset(f, d)
    requires !IsLapTransition(f, d) || d.lastLapTime <= 0
    ensures HistoryStep(f, h, d) == h
  {
  }

  /** A render whose data a previous render already settled leaves the whole state alone. */
  lemma AdvancedRepeatedIngestIsNoOp(a: AdvancedState, p: Snapshot, d: Snapshot, now: int)
    requires a.isInitialized && Settled(a.core, p)
    requires d.fuelPercentage == p.fuelPercentage && d.currentLap == p.currentLap && d.flags == p.flags
    ensures AdvancedIngest(a, Some(d), now) == a
  {
    RepeatedIngestIsNoOp(a.core, p, d, now);
    SkippedEffectsAreNoOps(a.core, p, d, now);
    assert RefuelStep(a.core.fuel, d) == a.core.fuel;
    assert !IsLapTransition(a.core.fuel, d) && !IsRaceReset(a.core.fuel, d);
  }

  // ---------------------------------------------------------------- the component

  class AdvancedTracker {
    const fuel: FuelCells
    const timing: TimingCells
    var lapHistory: seq<HistoryEntry>
    var isInitialized: bool

    /** The refs and state cells the shared tracker describes. */
    ghost function Core(): Tracker
      reads fuel, timing
    {
      Tracker(fuel.Value(), timing.Value())
    }

    ghost function State(): AdvancedState
      reads this, fuel, timing
    {
      AdvancedState(Core(), lapHistory, isInitialized)
    }

    /** Mounting with the first render's data. */
    constructor (first: Option<Snapshot>)
      ensures State() == AdvancedInitial(first) && AdvancedValid(State())
      ensures fresh(fuel) && fresh(timing)
    {
      fuel := new FuelCells(first);
      timing := new TimingCells(0);
      lapHistory := [];
      isInitialized := false;
      new;
      AdvancedInitialValid(first);
    }

    /** The mount-only initialisation effect. */
    method InitEffect(now: int)
      modifies this`isInitialized, timing
      ensures State() == InitStep(old(State()), now)
    {
      if !isInitialized {
        timing.lapStartTime := now;
        timing.lastTick := now;
        isInitialized := true;
      }
    }

    /** The lap-completion effect, chart history included. */
    method LapEffect(data: Option<Snapshot>)
      modifies this`lapHistory, fuel
      ensures data.None? ==> fuel.Value() == old(fuel.Value()) && lapHistory == old(lapHistory)
      ensures data.Some? ==> fuel.Value() == LapStep(old(fuel.Value()), data.value) &&
                             lapHistory == HistoryStep(old(fuel.Value()), old(lapHistory), data.value)
    {
      if data.None? { return; }
      ResetBlock(data.value);
      CompletionBlock(data.value);
    }

    /** The race-reset block, which also empties the chart. */
    method ResetBlock(d: Snapshot)
      modifies this`lapHistory, fuel
      ensures fuel.Value() == RaceReset(old(fuel.Value()), d)
      ensures lapHistory == if IsRaceReset(old(fuel.Value()), d) then [] else old(lapHistory)
    {
      var reset := d.currentLap == 1 && fuel.prevLapForFuel > 1;
      fuel.ResetBlock(d);
      if reset {
        lapHistory := [];
      }
    }

    /** The completion block: lap record, chart point, then rebase for the next lap. */
    method CompletionBlock(d: Snapshot)
      modifies this`lapHistory, fuel
      ensures fuel.Value() == LapCompletion(old(fuel.Value()), d)
      ensures lapHistory == HistoryAppend(old(fuel.Value()), old(lapHistory), d)
    {
      ghost var f0 := fuel.Value();
      if d.currentLap > 0 && d.currentLap != fuel.prevLapForFuel {
        var fuelUsedThisLap := (fuel.startFuel + fuel.fuelAddedThisLap) - d.fuelPercentage;
        var entry := HistoryEntry(d.currentLap - 1, d.lastLapTime as real / 1000.0, fuelUsedThisLap);
        assert entry == NewEntry(f0, d);
        if fuelUsedThisLap > 0.0 {
          fuel.AppendRecord(fuelUsedThisLap, d.lastLapTime);
        }
        if d.lastLapTime > 0 {
          PushHistory(entry);
        }
        fuel.RebaseLap(d);
      }
    }

    /** Keep the last four chart points and add the new one. */
    method PushHistory(entry: HistoryEntry)
      modifies this`lapHistory
      ensures lapHistory == LastN(old(lapHistory), HistoryKeep) + [entry]
    {
      lapHistory := LastN(lapHistory, HistoryKeep) + [entry];
    }

    /** One render: the four effects in declaration order. */
    method Ingest(data: Option<Snapshot>, now: int)
      requires AdvancedValid(State())
      modifies this, fuel, timing
      ensures State() == AdvancedIngest(old(State()), data, now)
      ensures AdvancedValid(State())
    {
      ghost var before := State();
      InitEffect(now);
      fuel.RefuelEffect(data);
      LapEffect(data);
      timing.TimingEffect(data, now);
      AdvancedIngestValid(before, data, now);
    }

    /** The animation-frame callback at wall-clock time `now`. */
    method Frame(now: int)
      modifies timing
      ensures State() == AdvancedFrame(old(State()), now)
    {
      timing.Frame(now);
    }

    /** Estimated laps remaining from the current fuel and the average fuel per lap. */
    function EstimatedLapsRemaining(fuelPercentage: real): (r: real)
      reads fuel
      ensures fuel.averageFuelPerLap > 0.0 ==> r * fuel.averageFuelPerLap == fuelPercentage
      ensures fuel.averageFuelPerLap <= 0.0 ==> r == 0.0
    {
      fuel.EstimatedLapsRemaining(fuelPercentage)
    }
  }
}
