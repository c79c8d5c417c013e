/**
  The lap-and-fuel tracker that the Advanced and Standard dashboard components
  both implement with the same refs and effect bodies.  `Tracker` holds every
  ref and state cell the two share; each effect body is one function of the
  tracker and the current snapshot, and `Ingest` runs them in declaration
  order (refuel, lap completion, lap timing).  `FrameStep` is one call of the
  animation-frame callback.
 */
module LapFuel {
  import opened Wrappers
  import opened Telemetry

  /** One completed lap: fuel percentage points used and the reported lap time (ms). */
  datatype LapData = LapData(fuelUsed: real, lapTime: int)

  /** What the running animation-frame loop captured when the timing effect last ran. */
  datatype FrameLoop = FrameLoop(onTrack: bool, paused: bool, lap: int)

  /**
    The refs the refuel and lap-completion effects use: the state cells for
    the completed laps and both averages, and the fuel refs.
   */
  datatype FuelRefs = FuelRefs(
    completedLaps: seq<LapData>,   // state
    averageFuelPerLap: real,       // state
    averageLapTime: real,          // state
    prevLapForFuel: int,
    startFuel: real,
    prevFuel: real,
    totalFuelConsumed: real,
    fuelAddedThisLap: real)

  /** The refs the lap-timing effect and the frame loop use. */
  datatype TimingRefs = TimingRefs(
    currentLapTime: real,          // shown lap time (state)
    prevLapForTiming: int,
    lapStartTime: int,
    accumulatedTime: int,
    lastTick: int,
    wasOnTrack: bool,
    wasPaused: bool,
    wasLoading: bool,
    loop: Option<FrameLoop>)       // None: no frame callback is scheduled

  /** Every ref and state cell of the tracker; no effect reads or writes both halves. */
  datatype Tracker = Tracker(fuel: FuelRefs, timing: TimingRefs)

  /** Refuel threshold: a rise of more than this many points counts as a refuel. */
  const RefuelThreshold: real := 0.5

  /** Shown time right after a lap change: positive so a just-started lap differs from "no lap". */
  const LapStartSentinel: real := 0.001

  /** `prevFuelRef`'s initial value: the first render's fuel, or 100 when absent or zero (`x || 100`). */
  function InitialPrevFuel(first: Option<Snapshot>): (r: real)
    ensures first.Some? && first.value.fuelPercentage != 0.0 ==> r == first.value.fuelPercentage
    ensures first.None? || first.value.fuelPercentage == 0.0 ==> r == 100.0
  {
    if first.Some? && first.value.fuelPercentage != 0.0 then first.value.fuelPercentage else 100.0
  }

  /** The fuel refs as mounted: no records, zero averages, start 100, previous reading from the first render. */
  function InitialFuel(first: Option<Snapshot>): FuelRefs {
    FuelRefs([], 0.0, 0.0, 0, 100.0, InitialPrevFuel(first), 0.0, 0.0)
  }

  /** The timing refs as mounted: `tick` is the initial value of the lap-start and last-tick refs. */
  function InitialTiming(tick: int): TimingRefs {
    TimingRefs(0.0, 0, tick, 0, tick, false, false, false, None)
  }

  /** The tracker as mounted. */
  function Initial(first: Option<Snapshot>, tick: int): Tracker {
    Tracker(InitialFuel(first), InitialTiming(tick))
  }

  // ---------------------------------------------------------------- averages

  /** `laps.reduce((sum, lap) => sum + lap.fuelUsed, 0)`: a left fold. */
  function SumFuel(laps: seq<LapData>): real {
    if laps == [] then 0.0 else SumFuel(laps[..|laps| - 1]) + laps[|laps| - 1].fuelUsed
  }

  /** `laps.reduce((sum, lap) => sum + lap.lapTime, 0)`. */
  function SumLapTime(laps: seq<LapData>): int {
    if laps == [] then 0 else SumLapTime(laps[..|laps| - 1]) + laps[|laps| - 1].lapTime
  }

  /** `laps.filter(lap => lap.fuelUsed > 0).length`. */
  function CountPositive(laps: seq<LapData>): (n: nat)
    ensures n <= |laps|
  {
    if laps == [] then 0
    else CountPositive(laps[..|laps| - 1]) + (if laps[|laps| - 1].fuelUsed > 0.0 then 1 else 0)
  }

  /** The average the source computes: the sum over all laps divided by the number of positive ones. */
  function AverageFuel(laps: seq<LapData>): real {
    var n := CountPositive(laps);
    if n > 0 then SumFuel(laps) / n as real else 0.0
  }

  function AverageLapTime(laps: seq<LapData>): real {
    var n := CountPositive(laps);
    if n > 0 then SumLapTime(laps) as real / n as real else 0.0
  }

  /** Reference definitions: the arithmetic means over all records, 0 for none. */
  function MeanFuel(laps: seq<LapData>): real {
    if |laps| == 0 then 0.0 else SumFuel(laps) / |laps| as real
  }

  function MeanLapTime(laps: seq<LapData>): real {
    if |laps| == 0 then 0.0 else SumLapTime(laps) as real / |laps| as real
  }

  ghost predicate AllPositive(laps: seq<LapData>) {
    forall i :: 0 <= i < |laps| ==> laps[i].fuelUsed > 0.0
  }

  /** When every record is positive, the filter keeps them all. */
  lemma {:induction false} CountPositiveAll(laps: seq<LapData>)
    requires AllPositive(laps)
    ensures CountPositive(laps) == |laps|
    decreases |laps|
  {
    if laps != [] {
      CountPositiveAll(laps[..|laps| - 1]);
    }
  }

  /** Hence the source's averages over positive records are the plain means. */
  lemma AveragesAreMeans(laps: seq<LapData>)
    requires AllPositive(laps)
    ensures AverageFuel(laps) == MeanFuel(laps)
    ensures AverageLapTime(laps) == MeanLapTime(laps)
  {
    CountPositiveAll(laps);
  }

  /** The mean of positive fuel records is positive exactly when there is a record. */
  lemma {:induction false} MeanFuelPositive(laps: seq<LapData>)
    requires AllPositive(laps)
    ensures MeanFuel(laps) > 0.0 <==> |laps| > 0
    ensures SumFuel(laps) >= 0.0
    decreases |laps|
  {
    if laps != [] {
      MeanFuelPositive(laps[..|laps| - 1]);
    }
  }

  /**
    The tracker invariant: every stored record used positive fuel, and both
    averages are the means over the stored records (0 while there are none).
   */
  ghost predicate Consistent(f: FuelRefs) {
    AllPositive(f.completedLaps) &&
    f.averageFuelPerLap == MeanFuel(f.completedLaps) &&
    f.averageLapTime == MeanLapTime(f.completedLaps)
  }

  // ---------------------------------------------------------------- refuel effect

  /**
    Refuel effect: a rise of more than 0.5 points over the previous reading is
    recorded as the fuel added this lap (overwriting, not accumulating); the
    previous reading always becomes the current one.
   */
  function RefuelStep(f: FuelRefs, d: Snapshot): (r: FuelRefs)
    ensures r.prevFuel == d.fuelPercentage
    ensures d.fuelPercentage > f.prevFuel + RefuelThreshold ==>
              r.fuelAddedThisLap == d.fuelPercentage - f.prevFuel
    ensures r.fuelAddedThisLap != f.fuelAddedThisLap ==> d.fuelPercentage > f.prevFuel + RefuelThreshold
    ensures r.(prevFuel := f.prevFuel, fuelAddedThisLap := f.fuelAddedThisLap) == f
  {
    var f1 := if d.fuelPercentage > f.prevFuel + RefuelThreshold
              then f.(fuelAddedThisLap := d.fuelPercentage - f.prevFuel) else f;
    f1.(prevFuel := d.fuelPercentage)
  }

  // ---------------------------------------------------------------- lap-completion effect

  /** Race restart: lap 1 reported after a lap greater than 1 was seen. */
  predicate IsRaceReset(f: FuelRefs, d: Snapshot) {
    d.currentLap == 1 && f.prevLapForFuel > 1
  }

  /** A lap-number transition in fuel scope. */
  predicate IsLapTransition(f: FuelRefs, d: Snapshot) {
    d.currentLap > 0 && d.currentLap != f.prevLapForFuel
  }

  function FuelUsedThisLap(f: FuelRefs, d: Snapshot): real {
    (f.startFuel + f.fuelAddedThisLap) - d.fuelPercentage
  }

  /** The reset block of the lap-completion effect. */
  function RaceReset(f: FuelRefs, d: Snapshot): (r: FuelRefs)
    ensures r.prevLapForFuel == f.prevLapForFuel
  {
    if IsRaceReset(f, d) then
      f.(completedLaps := [], averageFuelPerLap := 0.0, averageLapTime := 0.0,
         startFuel := d.fuelPercentage, totalFuelConsumed := 0.0,
         fuelAddedThisLap := 0.0, prevFuel := d.fuelPercentage)
    else f
  }

  /** Append one lap record and recompute both averages over the extended list. */
  function RecordLap(f: FuelRefs, used: real, lapTime: int): (r: FuelRefs)
    ensures r.completedLaps == f.completedLaps + [LapData(used, lapTime)]
  {
    var laps := f.completedLaps + [LapData(used, lapTime)];
    f.(totalFuelConsumed := f.totalFuelConsumed + used, completedLaps := laps,
       averageFuelPerLap := AverageFuel(laps), averageLapTime := AverageLapTime(laps))
  }

  /** The completion block: append a record when the lap used positive fuel, then rebase. */
  function LapCompletion(f: FuelRefs, d: Snapshot): FuelRefs {
    if !IsLapTransition(f, d) then f
    else
      var used := FuelUsedThisLap(f, d);
      var f1 := if used > 0.0 then RecordLap(f, used, d.lastLapTime) else f;
      f1.(prevLapForFuel := d.currentLap, startFuel := d.fuelPercentage, fuelAddedThisLap := 0.0)
  }

  /** The lap-completion effect body. */
  function LapStep(f: FuelRefs, d: Snapshot): FuelRefs {
    LapCompletion(RaceReset(f, d), d)
  }

  // ---------------------------------------------------------------- lap-timing effect

  /** LOADING rising edge: zero the stopwatch, rebase both clocks, forget the timing lap. */
  function LoadingCheck(t: TimingRefs, loading: bool, now: int): (r: TimingRefs)
    ensures loading && !t.wasLoading ==>
      r.accumulatedTime == 0 && r.currentLapTime == 0.0 && r.lastTick == now && r.prevLapForTiming == 0
    ensures !(loading && !t.wasLoading) ==> r == t
  {
    if loading && !t.wasLoading then
      t.(accumulatedTime := 0, currentLapTime := 0.0, lapStartTime := now, lastTick := now,
         prevLapForTiming := 0)
    else t
  }

  /** On-track falling edge: zero the stopwatch and forget the timing lap, leaving `lastTick` alone. */
  function TrackLossCheck(t: TimingRefs, onTrack: bool, now: int): (r: TimingRefs)
    ensures r.lastTick == t.lastTick
    ensures t.wasOnTrack && !onTrack ==>
      r.accumulatedTime == 0 && r.currentLapTime == 0.0 && r.prevLapForTiming == 0
    ensures !(t.wasOnTrack && !onTrack) ==> r == t
  {
    if t.wasOnTrack && !onTrack then
      t.(accumulatedTime := 0, currentLapTime := 0.0, lapStartTime := now, prevLapForTiming := 0)
    else t
  }

  /** Lap change while on track: restart the stopwatch and show the positive sentinel. */
  function LapChangeCheck(t: TimingRefs, onTrack: bool, lap: int, now: int): (r: TimingRefs)
    ensures onTrack && lap > 0 && lap != t.prevLapForTiming ==>
      r.accumulatedTime == 0 && r.currentLapTime == LapStartSentinel && r.lastTick == now &&
      r.prevLapForTiming == lap
    ensures !onTrack ==> r == t
  {
    if onTrack && lap > 0 && lap != t.prevLapForTiming then
      t.(accumulatedTime := 0, currentLapTime := LapStartSentinel, lapStartTime := now,
         lastTick := now, prevLapForTiming := lap)
    else t
  }

  /** Pause edges: entering pause folds in the time since the last tick, leaving it rebases the tick. */
  function PauseCheck(t: TimingRefs, paused: bool, now: int): (r: TimingRefs)
    ensures r.wasPaused == paused
    ensures paused && !t.wasPaused ==>
      r.accumulatedTime == t.accumulatedTime + (now - t.lastTick) && r.lastTick == t.lastTick
    ensures !paused && t.wasPaused ==> r.lastTick == now && r.accumulatedTime == t.accumulatedTime
    ensures paused == t.wasPaused ==> r == t
    ensures r.currentLapTime == t.currentLapTime && r.prevLapForTiming == t.prevLapForTiming
  {
    if paused != t.wasPaused then
      (if paused then t.(accumulatedTime := t.accumulatedTime + (now - t.lastTick))
       else t.(lastTick := now)).(wasPaused := paused)
    else t
  }

  /** The lap-timing effect body, including the scheduling of the frame loop. */
  function TimingStep(t: TimingRefs, d: Snapshot, now: int): (r: TimingRefs)
    ensures r.wasOnTrack == OnTrack(d.flags) && r.wasLoading == Loading(d.flags) && r.wasPaused == Paused(d.flags)
    ensures r.loop == Some(FrameLoop(OnTrack(d.flags), Paused(d.flags), d.currentLap))
  {
    var onTrack, paused, loading := OnTrack(d.flags), Paused(d.flags), Loading(d.flags);
    var t1 := TrackLossCheck(LoadingCheck(t, loading, now), onTrack, now);
    var t2 := t1.(wasOnTrack := onTrack, wasLoading := loading);
    var t3 := PauseCheck(LapChangeCheck(t2, onTrack, d.currentLap, now), paused, now);
    t3.(loop := Some(FrameLoop(onTrack, paused, d.currentLap)))
  }

  /** The frame loop advances the clock: on track, lap above 0 and not paused. */
  predicate Active(loop: Option<FrameLoop>) {
    loop.Some? && loop.value.onTrack && loop.value.lap > 0 && !loop.value.paused
  }

  /** One run of the animation-frame callback at wall-clock time `now`. */
  function FrameStep(t: TimingRefs, now: int): TimingRefs {
    if Active(t.loop) then
      var acc := t.accumulatedTime + (now - t.lastTick);
      t.(lastTick := now, accumulatedTime := acc, currentLapTime := acc as real)
    else t
  }

  /** Frames at the given times, in order. */
  function Frames(t: TimingRefs, times: seq<int>): TimingRefs
    decreases |times|
  {
    if times == [] then t else Frames(FrameStep(t, times[0]), times[1..])
  }

  /**
    One render with `data` (None for a render with no data): the effects in
    declaration order.  With no data every effect returns early, but the
    timing effect's cleanup has cancelled the frame loop.  The refuel and
    lap-completion effects touch only the fuel refs and the timing effect
    only the timing refs, so the order between the two halves does not matter.
   */
  function Ingest(t: Tracker, data: Option<Snapshot>, now: int): Tracker {
    match data
    case None => t.(timing := t.timing.(loop := None))
    case Some(d) => Tracker(LapStep(RefuelStep(t.fuel, d), d), TimingStep(t.timing, d, now))
  }

  // ---------------------------------------------------------------- lemmas: fuel scope

  /**
    Race reset: lap 1 after a lap above 1 leaves no records, zero averages,
    fuel baselines at the current reading and no fuel added (the completion
    that follows sees zero fuel used and appends nothing).
   */
  lemma RaceResetClearsRecords(f: FuelRefs, d: Snapshot)
    requires IsRaceReset(f, d)
    ensures var r := LapStep(f, d);
      r.completedLaps == [] && r.averageFuelPerLap == 0.0 && r.averageLapTime == 0.0 &&
      r.startFuel == d.fuelPercentage && r.prevFuel == d.fuelPercentage &&
      r.fuelAddedThisLap == 0.0 && r.totalFuelConsumed == 0.0 && r.prevLapForFuel == 1
  {
  }

  /**
    Lap transition: the fuel used is (start + added) - current; a record is
    appended exactly when that is positive; the baselines are reset in every case.
   */
  lemma LapTransitionRecords(f: FuelRefs, d: Snapshot)
    requires IsLapTransition(f, d) && !IsRaceReset(f, d)
    ensures var used := (f.startFuel + f.fuelAddedThisLap) - d.fuelPercentage;
      var r := LapStep(f, d);
      r.completedLaps == f.completedLaps + (if used > 0.0 then [LapData(used, d.lastLapTime)] else []) &&
      r.prevLapForFuel == d.currentLap && r.startFuel == d.fuelPercentage && r.fuelAddedThisLap == 0.0 &&
      r.prevFuel == f.prevFuel
  {
  }

  /** Without a transition or a reset the lap-completion effect changes nothing. */
  lemma NoTransitionNoChange(f: FuelRefs, d: Snapshot)
    requires !IsLapTransition(f, d) && !IsRaceReset(f, d)
    ensures LapStep(f, d) == f
  {
  }

  /** Outside a race reset, records are only ever appended, at most one per call. */
  lemma RecordsAppendOnly(f: FuelRefs, d: Snapshot)
    requires !IsRaceReset(f, d)
    ensures var r := LapStep(f, d).completedLaps;
      f.completedLaps <= r && |r| <= |f.completedLaps| + 1
  {
  }

  /** The lap-completion effect keeps the invariant (records positive, averages are means). */
  lemma LapStepConsistent(f: FuelRefs, d: Snapshot)
    requires Consistent(f)
    ensures Consistent(LapStep(f, d))
  {
    var f1 := RaceReset(f, d);
    assert Consistent(f1);
    if IsLapTransition(f1, d) {
      var used := FuelUsedThisLap(f1, d);
      if used > 0.0 {
        var laps := f1.completedLaps + [LapData(used, d.lastLapTime)];
        assert laps[..|laps| - 1] == f1.completedLaps;
        assert AllPositive(laps);
        AveragesAreMeans(laps);
      }
    }
  }

  /** Every ingest keeps the invariant; frames do not touch the fuel refs at all. */
  lemma IngestConsistent(t: Tracker, data: Option<Snapshot>, now: int)
    requires Consistent(t.fuel)
    ensures Consistent(Ingest(t, data, now).fuel)
  {
    if data.Some? {
      var d := data.value;
      LapStepConsistent(RefuelStep(t.fuel, d), d);
    }
  }

  /** The initial tracker satisfies the invariant. */
  lemma InitialConsistent(first: Option<Snapshot>)
    ensures Consistent(InitialFuel(first))
  {
  }

  /**
    Mounting is never taken for a refuel: the refuel effect's run on the first
    render only records the reading, and a component mounted without data
    (previous reading 100) takes no first percentage from 0 to 100 for a refuel.
   */
  lemma MountIsNoRefuel(d: Snapshot)
    ensures RefuelStep(InitialFuel(Some(d)), d) == InitialFuel(Some(d)).(prevFuel := d.fuelPercentage)
    ensures 0.0 <= d.fuelPercentage <= 100.0 ==>
      RefuelStep(InitialFuel(None), d) == InitialFuel(None).(prevFuel := d.fuelPercentage)
  {
  }

  // ---------------------------------------------------------------- lemmas: timing scope

  /** Loading rising edge: stopwatch at 0, ticks rebased, timing lap 0 or the lap just (re)entered. */
  lemma LoadingEdgeResetsTimer(t: TimingRefs, d: Snapshot, now: int)
    requires Loading(d.flags) && !t.wasLoading
    ensures var r := TimingStep(t, d, now);
      r.accumulatedTime == 0 && r.lastTick == now && r.lapStartTime == now &&
      (if OnTrack(d.flags) && d.currentLap > 0
       then r.prevLapForTiming == d.currentLap && r.currentLapTime == LapStartSentinel
       else r.prevLapForTiming == 0 && r.currentLapTime == 0.0)
  {
  }

  /**
    On-track falling edge: shown time 0, timing lap forgotten and
    the frame loop idle; the stopwatch is 0 unless the same snapshot enters
    pause, which folds in the time since the untouched last tick.
   */
  lemma TrackLossStopsTimer(t: TimingRefs, d: Snapshot, now: int)
    requires t.wasOnTrack && !OnTrack(d.flags)
    ensures var r := TimingStep(t, d, now);
      r.currentLapTime == 0.0 && r.prevLapForTiming == 0 && !r.wasOnTrack && !Active(r.loop) &&
      (Loading(d.flags) && !t.wasLoading ==> r.accumulatedTime == 0) &&
      (!(Loading(d.flags) && !t.wasLoading) && !(Paused(d.flags) && !t.wasPaused) ==>
         r.accumulatedTime == 0 && r.lastTick == (if t.wasPaused && !Paused(d.flags) then now else t.lastTick))
  {
  }

  /** Lap change on track: stopwatch 0, shown sentinel, ticks rebased and timing lap updated. */
  lemma LapChangeRestartsTimer(t: TimingRefs, d: Snapshot, now: int)
    requires OnTrack(d.flags) && d.currentLap > 0 && d.currentLap != t.prevLapForTiming
    ensures var r := TimingStep(t, d, now);
      r.accumulatedTime == 0 && r.currentLapTime == LapStartSentinel && r.lastTick == now &&
      r.prevLapForTiming == d.currentLap && Active(r.loop) == !Paused(d.flags)
  {
  }

  /** Off track a lap change is ignored: the timing lap is kept or, on a reset edge, zeroed. */
  lemma OffTrackLapChangeIgnored(t: TimingRefs, d: Snapshot, now: int)
    requires !OnTrack(d.flags)
    ensures var r := TimingStep(t, d, now);
      var resetEdge := (Loading(d.flags) && !t.wasLoading) || t.wasOnTrack;
      (resetEdge ==> r.prevLapForTiming == 0 && r.currentLapTime == 0.0) &&
      (!resetEdge ==> r.prevLapForTiming == t.prevLapForTiming && r.currentLapTime == t.currentLapTime) &&
      !Active(r.loop)
  {
  }

  /** Entering pause with no reset edge and no lap change folds `now - lastTick` into the stopwatch. */
  lemma PauseEntryFreezes(t: TimingRefs, d: Snapshot, now: int)
    requires Paused(d.flags) && !t.wasPaused
    requires !(Loading(d.flags) && !t.wasLoading) && !(t.wasOnTrack && !OnTrack(d.flags))
    requires !(OnTrack(d.flags) && d.currentLap > 0 && d.currentLap != t.prevLapForTiming)
    ensures var r := TimingStep(t, d, now);
      r.accumulatedTime == t.accumulatedTime + (now - t.lastTick) && r.currentLapTime == t.currentLapTime &&
      r.wasPaused && !Active(r.loop)
  {
  }

  /** Leaving pause with no reset edge and no lap change rebases the tick and keeps the stopwatch. */
  lemma PauseExitRebases(t: TimingRefs, d: Snapshot, now: int)
    requires !Paused(d.flags) && t.wasPaused
    requires !(Loading(d.flags) && !t.wasLoading) && !(t.wasOnTrack && !OnTrack(d.flags))
    requires !(OnTrack(d.flags) && d.currentLap > 0 && d.currentLap != t.prevLapForTiming)
    ensures var r := TimingStep(t, d, now);
      r.lastTick == now && r.accumulatedTime == t.accumulatedTime && !r.wasPaused
  {
  }

  // ---------------------------------------------------------------- lemmas: frames

  /** While the loop is idle (paused, off track or lap <= 0) frames change nothing. */
  lemma {:induction false} FramesIdleWhenInactive(t: TimingRefs, times: seq<int>)
    requires !Active(t.loop)
    ensures Frames(t, times) == t
    decreases |times|
  {
    if times != [] {
      FramesIdleWhenInactive(FrameStep(t, times[0]), times[1..]);
    }
  }

  /**
    While active, a run of frames adds up to the wall-clock time from the last
    tick to the last frame; the shown time is the stopwatch.
   */
  lemma {:induction false} FramesAccumulate(t: TimingRefs, times: seq<int>)
    requires Active(t.loop) && times != []
    ensures var r := Frames(t, times);
      r.accumulatedTime == t.accumulatedTime + (times[|times| - 1] - t.lastTick) &&
      r.lastTick == times[|times| - 1] && r.currentLapTime == r.accumulatedTime as real &&
      r.loop == t.loop
    decreases |times|
  {
    var t1 := FrameStep(t, times[0]);
    if |times| > 1 {
      FramesAccumulate(t1, times[1..]);
    }
  }

  /** With a non-decreasing clock the shown time never decreases while active. */
  lemma FramesMonotonic(t: TimingRefs, times: seq<int>)
    requires Active(t.loop) && times != []
    requires t.lastTick <= times[0]
    requires forall i, j :: 0 <= i <= j < |times| ==> times[i] <= times[j]
    ensures Frames(t, times).accumulatedTime >= t.accumulatedTime
  {
    FramesAccumulate(t, times);
  }

  // ---------------------------------------------------------------- lemmas: dependency gating

  /** The effect dependencies of `p` are what the refs recorded when `p` was last ingested. */
  ghost predicate Settled(t: Tracker, p: Snapshot) {
    t.fuel.prevFuel == p.fuelPercentage &&
    (p.currentLap > 0 ==> t.fuel.prevLapForFuel == p.currentLap) &&
    t.timing.wasOnTrack == OnTrack(p.flags) && t.timing.wasLoading == Loading(p.flags) &&
    t.timing.wasPaused == Paused(p.flags) &&
    (OnTrack(p.flags) && p.currentLap > 0 ==> t.timing.prevLapForTiming == p.currentLap) &&
    t.timing.loop == Some(FrameLoop(OnTrack(p.flags), Paused(p.flags), p.currentLap))
  }

  /** Ingesting `p` settles the tracker on `p`, and frames keep it settled. */
  lemma IngestSettles(t: Tracker, p: Snapshot, now: int, later: int)
    ensures Settled(Ingest(t, Some(p), now), p)
    ensures Settled(t, p) ==> Settled(t.(timing := FrameStep(t.timing, later)), p)
  {
  }

  /**
    An effect React skips because its dependencies did not change is a no-op
    when run anyway: the refuel effect (fuel unchanged), the lap-completion
    effect (lap unchanged) and the timing effect (lap and flags unchanged).
   */
  lemma SkippedEffectsAreNoOps(t: Tracker, p: Snapshot, d: Snapshot, now: int)
    requires Settled(t, p)
    ensures d.fuelPercentage == p.fuelPercentage ==> RefuelStep(t.fuel, d) == t.fuel
    ensures d.currentLap == p.currentLap ==> LapStep(RefuelStep(t.fuel, d), d) == RefuelStep(t.fuel, d)
    ensures d.currentLap == p.currentLap && d.flags == p.flags ==> TimingStep(t.timing, d, now) == t.timing
  {
  }

  /** Re-ingesting a snapshot with the same fuel, lap and flags changes nothing (no second record). */
  lemma RepeatedIngestIsNoOp(t: Tracker, p: Snapshot, d: Snapshot, now: int)
    requires Settled(t, p)
    requires d.fuelPercentage == p.fuelPercentage && d.currentLap == p.currentLap && d.flags == p.flags
    ensures Ingest(t, Some(d), now) == t
  {
    SkippedEffectsAreNoOps(t, p, d, now);
  }

  // ------------------------------------------------------ worked laps

  const S1 := Snapshot(1, 5, 0, 100.0, CAR_ON_TRACK, 1, 8, 15)
  const S2 := Snapshot(2, 5, 95000, 92.0, CAR_ON_TRACK, 1, 8, 15)
  const S2Refuel := Snapshot(2, 5, 95000, 97.0, CAR_ON_TRACK, 1, 8, 15)
  const S3 := Snapshot(3, 5, 93000, 90.0, CAR_ON_TRACK, 1, 8, 15)

  /** The flag word 1 means on track, not paused, not loading. */
  lemma OnTrackOnlyFlags()
    ensures OnTrack(CAR_ON_TRACK) && !Paused(CAR_ON_TRACK) && !Loading(CAR_ON_TRACK)
  {
  }

  /** Mounted on lap 1 at t=0, a frame at t=1000 shows 1000 ms. */
  lemma MountThenFrameShowsElapsed()
    ensures var t := Ingest(Initial(Some(S1), 0), Some(S1), 0);
      t.fuel.completedLaps == [] && t.fuel.prevLapForFuel == 1 && t.fuel.startFuel == 100.0 &&
      t.fuel.prevFuel == 100.0 && t.fuel.fuelAddedThisLap == 0.0 && t.timing.prevLapForTiming == 1 &&
      Consistent(t.fuel) && FrameStep(t.timing, 1000).currentLapTime == 1000.0
  {
    OnTrackOnlyFlags();
    var t0 := Initial(Some(S1), 0);
    var f0 := t0.fuel;
    assert f0.prevFuel == 100.0 && f0.startFuel == 100.0 && f0.fuelAddedThisLap == 0.0;
    var f1 := RefuelStep(f0, S1);
    assert f1 == f0;
    assert !IsRaceReset(f1, S1) && IsLapTransition(f1, S1) && FuelUsedThisLap(f1, S1) == 0.0;
    assert LapStep(f1, S1) == f1.(prevLapForFuel := 1);
    LapChangeRestartsTimer(t0.timing, S1, 0);
  }

  /** The first record of a lap that used fuel sets both averages to that lap's own figures. */
  lemma FirstRecordSetsAverages(f: FuelRefs, d: Snapshot)
    requires f.completedLaps == [] && !IsRaceReset(f, d) && IsLapTransition(f, d)
    requires FuelUsedThisLap(f, d) > 0.0
    ensures var r := LapStep(f, d);
      r.completedLaps == [LapData(FuelUsedThisLap(f, d), d.lastLapTime)] &&
      r.averageFuelPerLap == FuelUsedThisLap(f, d) && r.averageLapTime == d.lastLapTime as real &&
      r.prevLapForFuel == d.currentLap && r.startFuel == d.fuelPercentage && r.fuelAddedThisLap == 0.0 &&
      r.prevFuel == f.prevFuel
  {
    var laps := [LapData(FuelUsedThisLap(f, d), d.lastLapTime)];
    assert laps[..0] == [];
    assert CountPositive(laps) == 1;
    assert SumFuel(laps) == FuelUsedThisLap(f, d);
    assert SumLapTime(laps) == d.lastLapTime;
  }

  /** The fuel side of LapTwoRecordsBurntFuel: the lap-2 record of 8 points and 95 s, and the rebased fuel refs. */
  lemma LapTwoFuelRecord(f: FuelRefs)
    requires f.completedLaps == [] && f.prevLapForFuel == 1 && f.startFuel == 100.0 && f.prevFuel == 100.0
    requires f.fuelAddedThisLap == 0.0
    ensures var r := LapStep(RefuelStep(f, S2), S2);
      r.completedLaps == [LapData(8.0, 95000)] &&
      r.averageFuelPerLap == 8.0 && r.averageLapTime == 95000.0 &&
      r.prevLapForFuel == 2 && r.startFuel == 92.0 && r.prevFuel == 92.0 && r.fuelAddedThisLap == 0.0
  {
    var f1 := RefuelStep(f, S2);
    assert f1.prevFuel == 92.0 && f1.fuelAddedThisLap == 0.0 && f1.completedLaps == [];
    assert FuelUsedThisLap(f1, S2) == 8.0;
    FirstRecordSetsAverages(f1, S2);
  }

  /** Lap 2 at 92% with a 95 s lap records 8 points and restarts the shown time. */
  lemma LapTwoRecordsBurntFuel(t: Tracker, now: int)
    requires t.fuel.completedLaps == [] && t.fuel.prevLapForFuel == 1 && t.fuel.startFuel == 100.0
    requires t.fuel.prevFuel == 100.0 && t.fuel.fuelAddedThisLap == 0.0 && t.timing.prevLapForTiming == 1
    ensures var r := Ingest(t, Some(S2), now);
      r.fuel.completedLaps == [LapData(8.0, 95000)] && r.timing.currentLapTime == LapStartSentinel &&
      r.fuel.averageFuelPerLap == 8.0 && r.fuel.averageLapTime == 95000.0 &&
      r.fuel.prevLapForFuel == 2 && r.fuel.startFuel == 92.0 && r.fuel.prevFuel == 92.0 &&
      r.fuel.fuelAddedThisLap == 0.0
  {
    OnTrackOnlyFlags();
    LapTwoFuelRecord(t.fuel);
    LapChangeRestartsTimer(t.timing, S2, now);
  }

  /** The records of laps 2 and 3 (8 and 7 points, 95 s and 93 s) average to 7.5 points and 94 s. */
  lemma TwoRecordAverages()
    ensures var laps := [LapData(8.0, 95000), LapData(7.0, 93000)];
      AverageFuel(laps) == 7.5 && AverageLapTime(laps) == 94000.0
  {
    var laps := [LapData(8.0, 95000), LapData(7.0, 93000)];
    assert laps[..1] == [LapData(8.0, 95000)];
    assert laps[..1][..0] == [];
    assert CountPositive(laps) == 2;
    assert SumFuel(laps) == 15.0;
    assert SumLapTime(laps) == 188000;
  }

  /** A 5-point refuel mid lap 2, then lap 3 at 90%: lap 2 used (92 + 5) - 90 = 7 points. */
  lemma MidLapRefuelAddsToConsumption(t: Tracker, now1: int, now2: int)
    requires t.fuel.completedLaps == [LapData(8.0, 95000)] && t.fuel.prevLapForFuel == 2
    requires t.fuel.startFuel == 92.0 && t.fuel.prevFuel == 92.0 && t.fuel.fuelAddedThisLap == 0.0
    ensures var tR := Ingest(t, Some(S2Refuel), now1);
      var r := Ingest(tR, Some(S3), now2);
      tR.fuel.fuelAddedThisLap == 5.0 && tR.fuel.completedLaps == t.fuel.completedLaps &&
      r.fuel.completedLaps == [LapData(8.0, 95000), LapData(7.0, 93000)] &&
      r.fuel.averageFuelPerLap == 7.5 && r.fuel.averageLapTime == 94000.0
  {
    TwoRecordAverages();
  }
}
