/**
  The tracker inside the Compact dashboard component.  Unlike the other two
  dashboards it keeps one lap ref for both effects, has no refuel correction
  and no on-track gating, appends a record on every lap transition, and
  divides both sums by one less than the number of records.
 */
module CompactDisplay {
  import opened Wrappers
  import opened Text
  import opened Telemetry
  import opened LapFuel
  import Bytes
  import Parser

  /** What the frame loop of the last timing-effect run captured. */
  datatype CompactLoop = CompactLoop(paused: bool, lap: int)

  datatype CompactState = CompactState(
    currentLapTime: int,
    completedLaps: seq<LapData>,
    averageFuelPerLap: real,
    averageLapTime: real,
    prevLap: int,
    startFuel: real,
    lapStartTime: int,
    accumulatedTime: int,
    lastTick: int,
    wasPaused: bool,
    loop: Option<CompactLoop>)

  /** Mounting at `now`: both tick refs are initialised from the clock. */
  function CompactInitial(now: int): (t: CompactState)
    ensures t.completedLaps == [] && t.prevLap == 0 && t.startFuel == 100.0
    ensures t.lapStartTime == now && t.lastTick == now && t.accumulatedTime == 0 && t.loop.None?
  {
    CompactState(0, [], 0.0, 0.0, 0, 100.0, now, 0, now, false, None)
  }

  /** The divisor both averages use: one less than the number of records, 0 for none. */
  function Divisor(laps: seq<LapData>): (n: nat)
    ensures |laps| > 0 ==> n == |laps| - 1
    ensures |laps| == 0 ==> n == 0
  {
    if |laps| > 0 then |laps| - 1 else 0
  }

  function CompactAverageFuel(laps: seq<LapData>): real {
    var n := Divisor(laps);
    if n > 0 then SumFuel(laps) / n as real else 0.0
  }

  function CompactAverageLapTime(laps: seq<LapData>): real {
    var n := Divisor(laps);
    if n > 0 then SumLapTime(laps) as real / n as real else 0.0
  }

  /** The averages are what the last record update computed from the records. */
  ghost predicate CompactAveraged(t: CompactState) {
    t.averageFuelPerLap == CompactAverageFuel(t.completedLaps) &&
    t.averageLapTime == CompactAverageLapTime(t.completedLaps)
  }

  predicate IsCompactReset(t: CompactState, d: Snapshot) {
    d.currentLap == 1 && t.prevLap > 1
  }

  predicate IsCompactTransition(t: CompactState, d: Snapshot) {
    d.currentLap > 0 && d.currentLap != t.prevLap
  }

  /** The reset block of the fuel effect: clear records and averages, rebase the start fuel. */
  function CompactReset(t: CompactState, d: Snapshot): (r: CompactState)
    ensures IsCompactReset(t, d) ==>
      r.completedLaps == [] && r.averageFuelPerLap == 0.0 && r.averageLapTime == 0.0 &&
      r.startFuel == d.fuelPercentage
    ensures !IsCompactReset(t, d) ==> r == t
    ensures r.prevLap == t.prevLap
  {
    if IsCompactReset(t, d) then
      t.(completedLaps := [], averageFuelPerLap := 0.0, averageLapTime := 0.0, startFuel := d.fuelPercentage)
    else t
  }

  /** The completion block of the fuel effect: append unconditionally, recompute, rebase. */
  function CompactCompletion(t: CompactState, d: Snapshot): (r: CompactState)
    ensures IsCompactTransition(t, d) ==>
      r.completedLaps == t.completedLaps + [LapData(t.startFuel - d.fuelPercentage, d.lastLapTime)] &&
      r.startFuel == d.fuelPercentage
    ensures !IsCompactTransition(t, d) ==> r == t
    ensures r.prevLap == t.prevLap
  {
    if IsCompactTransition(t, d) then
      var laps := t.completedLaps + [LapData(t.startFuel - d.fuelPercentage, d.lastLapTime)];
      t.(completedLaps := laps, averageFuelPerLap := CompactAverageFuel(laps),
         averageLapTime := CompactAverageLapTime(laps), startFuel := d.fuelPercentage)
    else t
  }

  /** Fields the fuel effect never writes. */
  predicate SameCompactTiming(a: CompactState, b: CompactState) {
    a.currentLapTime == b.currentLapTime && a.prevLap == b.prevLap && a.lapStartTime == b.lapStartTime &&
    a.accumulatedTime == b.accumulatedTime && a.lastTick == b.lastTick && a.wasPaused == b.wasPaused &&
    a.loop == b.loop
  }

  /** The fuel-monitoring effect. */
  function CompactFuelStep(t: CompactState, d: Snapshot): (r: CompactState)
    ensures SameCompactTiming(r, t)
  {
    CompactCompletion(CompactReset(t, d), d)
  }

  /** The lap-change block of the timing effect, with no on-track gating. */
  function CompactLapChange(t: CompactState, d: Snapshot, now: int): (r: CompactState)
    ensures IsCompactTransition(t, d) ==>
      r.prevLap == d.currentLap && r.accumulatedTime == 0 && r.currentLapTime == 0 &&
      r.lapStartTime == now && r.lastTick == now
    ensures !IsCompactTransition(t, d) ==> r == t
    ensures r.completedLaps == t.completedLaps && r.wasPaused == t.wasPaused
  {
    if IsCompactTransition(t, d) then
      t.(prevLap := d.currentLap, lapStartTime := now, accumulatedTime := 0, lastTick := now, currentLapTime := 0)
    else t
  }

  /** The pause edges of the timing effect. */
  function CompactPause(t: CompactState, paused: bool, now: int): (r: CompactState)
    ensures paused && !t.wasPaused ==>
      r == t.(accumulatedTime := t.accumulatedTime + (now - t.lastTick), wasPaused := true)
    ensures !paused && t.wasPaused ==> r == t.(lastTick := now, wasPaused := false)
    ensures paused == t.wasPaused ==> r == t
  {
    if paused != t.wasPaused then
      var t1 := if paused then t.(accumulatedTime := t.accumulatedTime + (now - t.lastTick))
                else t.(lastTick := now);
      t1.(wasPaused := paused)
    else t
  }

  /** The lap-timing effect: lap change, pause edges, then (re)start the frame loop. */
  function CompactTimingStep(t: CompactState, d: Snapshot, now: int): (r: CompactState)
    ensures r.completedLaps == t.completedLaps && r.averageFuelPerLap == t.averageFuelPerLap
    ensures r.averageLapTime == t.averageLapTime && r.startFuel == t.startFuel
    ensures r.wasPaused == Paused(d.flags)
    ensures r.loop == Some(CompactLoop(Paused(d.flags), d.currentLap))
  {
    var paused := Paused(d.flags);
    CompactPause(CompactLapChange(t, d, now), paused, now).(loop := Some(CompactLoop(paused, d.currentLap)))
  }

  /** One render: the fuel effect, then the timing effect; without data only the loop is cancelled. */
  function CompactIngest(t: CompactState, data: Option<Snapshot>, now: int): CompactState {
    match data
    case None => t.(loop := None)
    case Some(d) => CompactTimingStep(CompactFuelStep(t, d), d, now)
  }

  predicate CompactActive(loop: Option<CompactLoop>) {
    loop.Some? && loop.value.lap > 0 && !loop.value.paused
  }

  /** One run of the animation-frame callback: it advances whenever the lap is positive and not paused. */
  function CompactFrame(t: CompactState, now: int): (r: CompactState)
    ensures r.completedLaps == t.completedLaps && CompactAveraged(r) == CompactAveraged(t)
    ensures r.loop == t.loop
  {
    if CompactActive(t.loop) then
      var acc := t.accumulatedTime + (now - t.lastTick);
      t.(lastTick := now, accumulatedTime := acc, currentLapTime := acc)
    else t
  }

  function CompactFrames(t: CompactState, times: seq<int>): CompactState
    decreases |times|
  {
    if times == [] then t else CompactFrames(CompactFrame(t, times[0]), times[1..])
  }

  // ---------------------------------------------------------------- lemmas: records and averages

  /** With two or more records each average times (n - 1) is the sum over all n; otherwise 0. */
  lemma CompactAverageOverCountMinusOne(laps: seq<LapData>)
    ensures |laps| >= 2 ==> CompactAverageFuel(laps) * (|laps| - 1) as real == SumFuel(laps)
    ensures |laps| >= 2 ==> CompactAverageLapTime(laps) * (|laps| - 1) as real == SumLapTime(laps) as real
    ensures |laps| <= 1 ==> CompactAverageFuel(laps) == 0.0 && CompactAverageLapTime(laps) == 0.0
  {
  }

  /** On two laps of 2.0 points each the average reads 4.0, twice their mean. */
  lemma CompactAverageIsNotTheMean()
    ensures var laps := [LapData(2.0, 90000), LapData(2.0, 90000)];
      CompactAverageFuel(laps) == 4.0 && MeanFuel(laps) == 2.0 &&
      CompactAverageLapTime(laps) == 180000.0 && MeanLapTime(laps) == 90000.0
  {
    var laps := [LapData(2.0, 90000), LapData(2.0, 90000)];
    assert laps[..1] == [LapData(2.0, 90000)];
    assert SumFuel(laps) == 4.0;
    assert SumLapTime(laps) == 180000;
  }

  /** The fuel effect never writes the shared lap ref; only the timing effect does. */
  lemma FuelStepKeepsPrevLap(t: CompactState, d: Snapshot, now: int)
    ensures CompactFuelStep(t, d).prevLap == t.prevLap
    ensures IsCompactTransition(t, d) ==> CompactIngest(t, Some(d), now).prevLap == d.currentLap
    ensures !IsCompactTransition(t, d) ==> CompactIngest(t, Some(d), now).prevLap == t.prevLap
  {
    var t1 := CompactFuelStep(t, d);
    assert IsCompactTransition(t1, d) == IsCompactTransition(t, d);
  }

  /**
    Every lap transition appends exactly one record, whatever its sign, and
    a render without a transition leaves the records alone.
   */
  lemma CompactTransitionAppends(t: CompactState, d: Snapshot, now: int)
    requires !IsCompactReset(t, d)
    ensures var r := CompactIngest(t, Some(d), now);
      if IsCompactTransition(t, d) then
        r.completedLaps == t.completedLaps + [LapData(t.startFuel - d.fuelPercentage, d.lastLapTime)]
      else r.completedLaps == t.completedLaps
  {
  }

  /**
    A race reset is always also a transition (lap 1 after a larger lap), so
    the records restart as one zero-fuel record and both averages read 0.
   */
  lemma CompactResetLeavesOneZeroRecord(t: CompactState, d: Snapshot, now: int)
    requires IsCompactReset(t, d)
    ensures var r := CompactIngest(t, Some(d), now);
      r.completedLaps == [LapData(0.0, d.lastLapTime)] &&
      r.averageFuelPerLap == 0.0 && r.averageLapTime == 0.0 &&
      r.startFuel == d.fuelPercentage && r.prevLap == 1
  {
    var t1 := CompactReset(t, d);
    assert IsCompactTransition(t1, d);
  }

  /** Renders and frames keep the averages tied to the records. */
  lemma CompactIngestAveraged(t: CompactState, data: Option<Snapshot>, now: int)
    requires CompactAveraged(t)
    ensures CompactAveraged(CompactIngest(t, data, now))
    ensures CompactAveraged(CompactFrame(t, now))
  {
    if data.Some? {
      var d := data.value;
      var t1 := CompactReset(t, d);
      assert CompactAveraged(t1) by {
        if IsCompactReset(t, d) {
          assert Divisor(t1.completedLaps) == 0;
        }
      }
    }
  }

  lemma CompactInitialAveraged(now: int)
    ensures CompactAveraged(CompactInitial(now))
  {
  }

  // ---------------------------------------------------------------- lemmas: timing

  /** A lap change restarts the clock at 0 even off track, and a pause edge in the same render keeps it at 0. */
  lemma CompactLapChangeRestarts(t: CompactState, d: Snapshot, now: int)
    requires IsCompactTransition(t, d)
    ensures var r := CompactIngest(t, Some(d), now);
      r.accumulatedTime == 0 && r.currentLapTime == 0 && r.lastTick == now && r.prevLap == d.currentLap
  {
    var t1 := CompactFuelStep(t, d);
    assert IsCompactTransition(t1, d);
  }

  /** Entering pause banks the time since the last tick; leaving it rebases the tick. */
  lemma CompactPauseEdges(t: CompactState, d: Snapshot, now: int)
    requires !IsCompactTransition(t, d)
    ensures var r := CompactIngest(t, Some(d), now);
      (Paused(d.flags) && !t.wasPaused ==> r.accumulatedTime == t.accumulatedTime + (now - t.lastTick) &&
                                            r.lastTick == t.lastTick) &&
      (!Paused(d.flags) && t.wasPaused ==> r.lastTick == now && r.accumulatedTime == t.accumulatedTime)
  {
    var t1 := CompactFuelStep(t, d);
    assert !IsCompactTransition(t1, d);
  }

  /** While the loop is paused, or the lap is not positive, frames change nothing. */
  lemma {:induction false} CompactFramesIdle(t: CompactState, times: seq<int>)
    requires !CompactActive(t.loop)
    ensures CompactFrames(t, times) == t
    decreases |times|
  {
    if times != [] {
      CompactFramesIdle(CompactFrame(t, times[0]), times[1..]);
    }
  }

  /** While the loop runs, frames add up the wall-clock time since the last tick. */
  lemma {:induction false} CompactFramesAccumulate(t: CompactState, times: seq<int>)
    requires CompactActive(t.loop) && times != []
    ensures var r := CompactFrames(t, times);
      r.accumulatedTime == t.accumulatedTime + (times[|times| - 1] - t.lastTick) &&
      r.lastTick == times[|times| - 1] && r.currentLapTime == r.accumulatedTime
    decreases |times|
  {
    var t1 := CompactFrame(t, times[0]);
    if |times| > 1 {
      CompactFramesAccumulate(t1, times[1..]);
    }
  }

  /** A paused render freezes the clock: the frames that follow change nothing. */
  lemma CompactPausedRenderFreezes(t: CompactState, d: Snapshot, now: int, times: seq<int>)
    requires Paused(d.flags)
    ensures var r := CompactIngest(t, Some(d), now); CompactFrames(r, times) == r
  {
    CompactFramesIdle(CompactIngest(t, Some(d), now), times);
  }

  // ---------------------------------------------------------------- lemmas: dependency gating

  /** What a render with snapshot `p` leaves behind. */
  ghost predicate CompactSettled(t: CompactState, p: Snapshot) {
    (p.currentLap > 0 ==> t.prevLap == p.currentLap) &&
    t.wasPaused == Paused(p.flags) &&
    t.loop == Some(CompactLoop(Paused(p.flags), p.currentLap))
  }

  lemma CompactIngestSettles(t: CompactState, p: Snapshot, now: int)
    ensures CompactSettled(CompactIngest(t, Some(p), now), p)
  {
    var t1 := CompactFuelStep(t, p);
    assert IsCompactTransition(t1, p) == IsCompactTransition(t, p);
  }

  /**
    Once settled on `p`, a snapshot with the same lap changes no record
    whatever its fuel or lap time, and one with the same lap and flags
    changes nothing at all: skipping unchanged effects is the same as
    running them.
   */
  lemma CompactRepeatedIngestIsNoOp(t: CompactState, p: Snapshot, d: Snapshot, now: int)
    requires CompactSettled(t, p) && d.currentLap == p.currentLap
    ensures CompactFuelStep(t, d) == t
    ensures d.flags == p.flags ==> CompactIngest(t, Some(d), now) == t
  {
    assert !IsCompactReset(t, d) && !IsCompactTransition(t, d);
  }

  // ---------------------------------------------------------------- display derivations

  /** The lap label: "--" for lap -1, the bare lap in a trial, otherwise lap/total. */
  function LapLabel(lap: int, totalLaps: int): (r: string)
    ensures lap == -1 ==> r == "--"
    ensures lap != -1 ==> |r| >= |IntToString(lap)| && r[..|IntToString(lap)|] == IntToString(lap)
    ensures '/' in r <==> lap != -1 && !IsTrial(totalLaps)
  {
    if lap == -1 then "--"
    else if IsTrial(totalLaps) then IntToString(lap)
    else IntToString(lap) + "/" + IntToString(totalLaps)
  }

  /** The position label: "--" for position -1, otherwise position/total. */
  function PositionLabel(position: int, totalPositions: int): (r: string)
    ensures position == -1 ==> r == "--"
    ensures position != -1 ==>
      var p := IntToString(position);
      |r| > |p| && r[..|p|] == p && r[|p|] == '/' && r[|p| + 1..] == IntToString(totalPositions)
  {
    if position == -1 then "--" else IntToString(position) + "/" + IntToString(totalPositions)
  }

  /** Gear 15 is the game's "no suggestion". */
  function SuggestedGear(gear: int): (r: Option<int>)
    ensures r.None? <==> gear == 15
    ensures r.Some? ==> r.value == gear
  {
    if gear != 15 then Some(gear) else None
  }

  lemma LabelExamples()
    ensures LapLabel(3, 5) == "3/5" && LapLabel(2, 0) == "2" && LapLabel(-1, 5) == "--"
    ensures PositionLabel(1, 8) == "1/8" && PositionLabel(-1, 8) == "--"
  {
    assert IntToString(3) == "3" && IntToString(5) == "5" && IntToString(2) == "2";
    assert IntToString(1) == "1" && IntToString(8) == "8";
  }

  /** A label "x/y" whose first part holds no '/' can be split back into its two parts. */
  lemma SlashLabelSplits(a: string, b: string, a': string, b': string)
    requires '/' !in a && '/' !in a'
    requires a + "/" + b == a' + "/" + b'
    ensures a == a' && b == b'
  {
    var s := a + "/" + b;
    assert s[|a|] == '/' && forall i :: 0 <= i < |a| ==> s[i] == a[i];
    assert s[|a'|] == '/' && forall i :: 0 <= i < |a'| ==> s[i] == a'[i];
    assert |a| == |a'|;
    assert a == s[..|a|] == a';
    assert b == s[|a| + 1..] == b';
  }

  /** The lap label shows "--" exactly for lap -1. */
  lemma LapLabelPlaceholder(lap: int, totalLaps: int)
    ensures LapLabel(lap, totalLaps) == "--" <==> lap == -1
  {
    IntToStringIsNoLabel(lap);
  }

  /**
    The lap label can be read back: it names the lap, tells a trial from a
    race, and in a race also names the total number of laps.
   */
  lemma LapLabelReadsBack(lap: int, totalLaps: int, lap': int, totalLaps': int)
    requires lap != -1 && lap' != -1
    requires LapLabel(lap, totalLaps) == LapLabel(lap', totalLaps')
    ensures lap == lap' && IsTrial(totalLaps) == IsTrial(totalLaps')
    ensures !IsTrial(totalLaps) ==> totalLaps == totalLaps'
  {
    if IsTrial(totalLaps) {
      IntToStringInjective(lap, lap');
    } else {
      IntToStringIsNoLabel(lap);
      IntToStringIsNoLabel(lap');
      SlashLabelSplits(IntToString(lap), IntToString(totalLaps), IntToString(lap'), IntToString(totalLaps'));
      IntToStringInjective(lap, lap');
      IntToStringInjective(totalLaps, totalLaps');
    }
  }

  /** The position label shows "--" exactly for position -1. */
  lemma PositionLabelPlaceholder(position: int, totalPositions: int)
    ensures PositionLabel(position, totalPositions) == "--" <==> position == -1
  {
  }

  /** The position label can be read back: it names both the position and the field size. */
  lemma PositionLabelReadsBack(position: int, totalPositions: int, position': int, totalPositions': int)
    requires position != -1 && position' != -1
    requires PositionLabel(position, totalPositions) == PositionLabel(position', totalPositions')
    ensures position == position' && totalPositions == totalPositions'
  {
    IntToStringIsNoLabel(position);
    IntToStringIsNoLabel(position');
    SlashLabelSplits(IntToString(position), IntToString(totalPositions),
                     IntToString(position'), IntToString(totalPositions'));
    IntToStringInjective(position, position');
    IntToStringInjective(totalPositions, totalPositions');
  }

  /**
    Fed the parser's high nibble of the gear byte, the dashboard shows no
    suggestion exactly for bytes 0xF0 to 0xFF, and otherwise suggests a gear
    from 0 to 14 that is the byte's high nibble.
   */
  lemma SuggestionFromGearByte(b: Bytes.byte)
    ensures SuggestedGear(Parser.SuggestedGear(b)).None? <==> b >= 0xF0
    ensures SuggestedGear(Parser.SuggestedGear(b)).Some? ==>
      var g := SuggestedGear(Parser.SuggestedGear(b)).value;
      0 <= g < 15 && 16 * g <= b as int < 16 * g + 16
  {
  }

  // ---------------------------------------------------------------- the component

  class CompactTracker {
    var currentLapTime: int
    var completedLaps: seq<LapData>
    var averageFuelPerLap: real
    var averageLapTime: real
    var prevLap: int
    var startFuel: real
    var lapStartTime: int
    var accumulatedTime: int
    var lastTick: int
    var wasPaused: bool
    var loop: Option<CompactLoop>

    ghost function State(): CompactState
      reads this
    {
      CompactState(currentLapTime, completedLaps, averageFuelPerLap, averageLapTime, prevLap, startFuel,
                   lapStartTime, accumulatedTime, lastTick, wasPaused, loop)
    }

    /** Mounting at wall-clock time `now`. */
    constructor (now: int)
      ensures State() == CompactInitial(now) && CompactAveraged(State())
    {
      currentLapTime, completedLaps, averageFuelPerLap, averageLapTime := 0, [], 0.0, 0.0;
      prevLap, startFuel := 0, 100.0;
      lapStartTime, accumulatedTime, lastTick := now, 0, now;
      wasPaused := false;
      loop := None;
    }

    /** The fuel-monitoring effect. */
    method FuelEffect(data: Option<Snapshot>)
      modifies this
      ensures State() == if data.Some? then CompactFuelStep(old(State()), data.value) else old(State())
    {
      if data.None? { return; }
      var d := data.value;
      ResetBlock(d);
      CompletionBlock(d);
    }

    /** A race restart clears the records and the averages and rebases the start fuel. */
    method ResetBlock(d: Snapshot)
      modifies this
      ensures State() == CompactReset(old(State()), d)
    {
      if d.currentLap == 1 && prevLap > 1 {
        completedLaps := [];
        averageFuelPerLap := 0.0;
        averageLapTime := 0.0;
        startFuel := d.fuelPercentage;
      }
    }

    /** A lap transition records the lap's fuel and time and rebases the start fuel. */
    method CompletionBlock(d: Snapshot)
      modifies this
      ensures State() == CompactCompletion(old(State()), d)
    {
      if d.currentLap > 0 && d.currentLap != prevLap {
        RecordCompactLap(LapData(startFuel - d.fuelPercentage, d.lastLapTime));
        startFuel := d.fuelPercentage;
      }
    }

    /** Append a record and recompute both averages over the extended list. */
    method RecordCompactLap(newLapData: LapData)
      modifies this`completedLaps, this`averageFuelPerLap, this`averageLapTime
      ensures completedLaps == old(completedLaps) + [newLapData]
      ensures averageFuelPerLap == CompactAverageFuel(completedLaps)
      ensures averageLapTime == CompactAverageLapTime(completedLaps)
    {
      var newLaps := completedLaps + [newLapData];
      averageFuelPerLap := CompactAverageFuel(newLaps);
      averageLapTime := CompactAverageLapTime(newLaps);
      completedLaps := newLaps;
    }

    /** The lap-timing effect. */
    method TimingEffect(data: Option<Snapshot>, now: int)
      modifies this
      ensures State() == if data.Some? then CompactTimingStep(old(State()), data.value, now)
                         else old(State()).(loop := None)
    {
      if data.None? {
        loop := None;  // the cleanup of the previous run cancelled its frame loop
        return;
      }
      var d := data.value;
      LapChangeBlock(d, now);
      var isPaused := Paused(d.flags);
      PauseBlock(isPaused, now);
      loop := Some(CompactLoop(isPaused, d.currentLap));  // replaces the cancelled loop
    }

    /** A lap change restarts the lap timer at `now`. */
    method LapChangeBlock(d: Snapshot, now: int)
      modifies this
      ensures State() == CompactLapChange(old(State()), d, now)
    {
      if d.currentLap > 0 && d.currentLap != prevLap {
        prevLap := d.currentLap;
        lapStartTime := now;
        accumulatedTime := 0;
        lastTick := now;
        currentLapTime := 0;
      }
    }

    /** Entering a pause banks the running time; leaving it restarts the tick from `now`. */
    method PauseBlock(isPaused: bool, now: int)
      modifies this
      ensures State() == CompactPause(old(State()), isPaused, now)
    {
      if isPaused != wasPaused {
        if isPaused {
          accumulatedTime := accumulatedTime + (now - lastTick);
        } else {
          lastTick := now;
        }
        wasPaused := isPaused;
      }
    }

    /** One render: the two effects in declaration order. */
    method Ingest(data: Option<Snapshot>, now: int)
      requires CompactAveraged(State())
      modifies this
      ensures State() == CompactIngest(old(State()), data, now)
      ensures CompactAveraged(State())
    {
      ghost var before := State();
      FuelEffect(data);
      TimingEffect(data, now);
      CompactIngestAveraged(before, data, now);
    }

    /** The animation-frame callback at wall-clock time `now`. */
    method Frame(now: int)
      requires CompactAveraged(State())
      modifies this
      ensures State() == CompactFrame(old(State()), now)
      ensures CompactAveraged(State())
    {
      if loop.Some? && loop.value.lap > 0 && !loop.value.paused {
        var currentTick := now;
        var elapsedSinceLastTick := currentTick - lastTick;
        lastTick := currentTick;
        accumulatedTime := accumulatedTime + elapsedSinceLastTick;
        currentLapTime := accumulatedTime;
      }
    }

    /** Estimated laps remaining from the current fuel and the average fuel per lap. */
    function EstimatedLapsRemaining(fuel: real): (r: real)
      reads this
      ensures averageFuelPerLap > 0.0 ==> r * averageFuelPerLap == fuel
      ensures averageFuelPerLap <= 0.0 ==> r == 0.0
    {
      LapsRemaining(fuel, averageFuelPerLap)
    }
  }
}
