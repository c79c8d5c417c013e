/**
  The backend fuel monitor: an accumulator of per-lap fuel consumption
  with a bounded first-in-first-out history and guarded-division helpers.
  The wall clock that stamps each record is a parameter.
 */
module FuelMonitoring {
  import opened Wrappers

  /** One completed lap's consumption record. */
  datatype FuelConsumptionData = FuelConsumptionData(
    timestamp: int,
    lapNumber: int,
    fuelStart: real,
    fuelEnd: real,
    consumption: real)

  /** The history length used when none is given. */
  const DefaultMaxHistory := 5

  /** Sum of the consumptions of a history. */
  function TotalConsumption(h: seq<FuelConsumptionData>): real
  {
    if |h| == 0 then 0.0 else TotalConsumption(h[..|h| - 1]) + h[|h| - 1].consumption
  }

  /** The history bound that actually holds: a bound below zero keeps nothing, like zero. */
  function Capacity(maxHistory: int): nat
  {
    if maxHistory < 0 then 0 else maxHistory
  }

  /**
    Append a record and, when the list has grown past the bound, drop the
    oldest one (a single `pop(0)`).
   */
  function Push(h: seq<FuelConsumptionData>, entry: FuelConsumptionData, maxHistory: int): (r: seq<FuelConsumptionData>)
    ensures |h| + 1 > maxHistory ==> r == (h + [entry])[1..]
    ensures |h| + 1 <= maxHistory ==> r == h + [entry]
  {
    var grown := h + [entry];
    if |grown| > maxHistory then grown[1..] else grown
  }

  /** Within its bound, the history stays within it after a push. */
  lemma PushBounded(h: seq<FuelConsumptionData>, entry: FuelConsumptionData, maxHistory: int)
    requires |h| <= Capacity(maxHistory)
    ensures |Push(h, entry, maxHistory)| <= Capacity(maxHistory)
  {
  }

  /**
    A push keeps the newest records in their order: the result is the last
    `min(|h| + 1, bound)` records of `h + [entry]`, and a non-zero bound
    keeps the new record last.
   */
  lemma PushKeepsNewest(h: seq<FuelConsumptionData>, entry: FuelConsumptionData, maxHistory: int)
    requires |h| <= Capacity(maxHistory)
    ensures var r := Push(h, entry, maxHistory);
      var grown := h + [entry];
      |r| == (if |grown| <= Capacity(maxHistory) then |grown| else Capacity(maxHistory)) &&
      r == grown[|grown| - |r|..] &&
      (maxHistory > 0 ==> r[|r| - 1] == entry)
  {
  }

  /** Pushing onto a full history drops exactly its oldest record. */
  lemma PushFullDropsOldest(h: seq<FuelConsumptionData>, entry: FuelConsumptionData, maxHistory: int)
    requires maxHistory > 0 && |h| == maxHistory
    ensures Push(h, entry, maxHistory) == h[1..] + [entry]
  {
  }

  /** The monitor's fields as one value: the specification state of the class below. */
  datatype MonitorState = MonitorState(
    consumptionHistory: seq<FuelConsumptionData>,
    maxHistory: int,
    currentLapStartFuel: Option<real>,
    lastFuelReading: real)

  /** The record `on_lap_complete` appends, stamped `now`. */
  function LapRecord(start: real, last: real, lapNumber: int, now: int): (r: FuelConsumptionData)
    ensures r.fuelStart - r.fuelEnd == r.consumption
    ensures r.fuelStart == start && r.fuelEnd == last && r.lapNumber == lapNumber && r.timestamp == now
  {
    FuelConsumptionData(now, lapNumber, start, last, start - last)
  }

  /** `update_fuel_reading` as a state change: the lap-number argument plays no part. */
  function Reading(s: MonitorState, currentFuel: real): (r: MonitorState)
    ensures r.lastFuelReading == currentFuel
    ensures r.currentLapStartFuel == if s.currentLapStartFuel.None? then Some(currentFuel) else s.currentLapStartFuel
    ensures r.consumptionHistory == s.consumptionHistory && r.maxHistory == s.maxHistory
  {
    var start := if s.currentLapStartFuel.None? then Some(currentFuel) else s.currentLapStartFuel;
    var last := if currentFuel != s.lastFuelReading then currentFuel else s.lastFuelReading;
    s.(currentLapStartFuel := start, lastFuelReading := last)
  }

  /** `on_lap_complete` as a state change at wall-clock time `now`. */
  function LapComplete(s: MonitorState, lapNumber: int, now: int): (r: MonitorState)
    ensures s.currentLapStartFuel.None? ==> r == s
    ensures s.currentLapStartFuel.Some? ==>
      r.currentLapStartFuel == Some(s.lastFuelReading) &&
      r.lastFuelReading == s.lastFuelReading && r.maxHistory == s.maxHistory
  {
    match s.currentLapStartFuel
    case None => s
    case Some(start) =>
      var record := LapRecord(start, s.lastFuelReading, lapNumber, now);
      s.(consumptionHistory := Push(s.consumptionHistory, record, s.maxHistory),
         currentLapStartFuel := Some(s.lastFuelReading))
  }

  /** The history never exceeds its bound. */
  ghost predicate Bounded(s: MonitorState)
  {
    |s.consumptionHistory| <= Capacity(s.maxHistory)
  }

  /** Both operations keep the history within its bound. */
  lemma OperationsKeepBound(s: MonitorState, fuel: real, lapNumber: int, now: int)
    requires Bounded(s)
    ensures Bounded(Reading(s, fuel))
    ensures Bounded(LapComplete(s, lapNumber, now))
  {
    if s.currentLapStartFuel.Some? {
      PushBounded(s.consumptionHistory, LapRecord(s.currentLapStartFuel.value, s.lastFuelReading, lapNumber, now), s.maxHistory);
    }
  }

  /** Once a reading is taken, later readings never move the lap-start fuel. */
  lemma StartFuelSetOnce(s: MonitorState, first: real, second: real)
    requires s.currentLapStartFuel.None?
    ensures Reading(Reading(s, first), second).currentLapStartFuel == Some(first)
  {
  }

  /**
    Reading then completing a lap records exactly the fuel burnt since the
    lap started, and the next lap starts from the last reading.
   */
  lemma LapRecordsBurntFuel(s: MonitorState, fuel: real, lapNumber: int, now: int)
    requires s.currentLapStartFuel.Some? && s.maxHistory > 0
    ensures var r := LapComplete(Reading(s, fuel), lapNumber, now);
      |r.consumptionHistory| > 0 &&
      r.consumptionHistory[|r.consumptionHistory| - 1].consumption == s.currentLapStartFuel.value - fuel &&
      r.currentLapStartFuel == Some(fuel)
  {
  }

  /** Consecutive laps' consumptions add up to the fuel burnt over all of them. */
  lemma {:induction false} ConsumptionsTelescope(s: MonitorState, readings: seq<real>, now: int)
    requires s.currentLapStartFuel.Some? && |readings| <= s.maxHistory && |s.consumptionHistory| == 0
    ensures var r := Laps(s, readings, now);
      |r.consumptionHistory| == |readings| &&
      TotalConsumption(r.consumptionHistory) ==
        s.currentLapStartFuel.value - (if |readings| == 0 then s.currentLapStartFuel.value else readings[|readings| - 1])
    decreases |readings|
  {
    if |readings| > 0 {
      var init := readings[..|readings| - 1];
      ConsumptionsTelescope(s, init, now);
      var mid := Laps(s, init, now);
      assert Laps(s, readings, now) == LapComplete(Reading(mid, readings[|readings| - 1]), |readings|, now);
      var h := Push(mid.consumptionHistory, LapRecord(mid.currentLapStartFuel.value, readings[|readings| - 1], |readings|, now), s.maxHistory);
      assert h[..|h| - 1] == mid.consumptionHistory;
      assert mid.currentLapStartFuel.value == (if |init| == 0 then s.currentLapStartFuel.value else init[|init| - 1]);
    }
  }

  /** One reading then one lap completion per element of `readings`, laps numbered from 1. */
  function Laps(s: MonitorState, readings: seq<real>, now: int): (r: MonitorState)
    requires s.currentLapStartFuel.Some?
    ensures r.currentLapStartFuel.Some? && r.maxHistory == s.maxHistory
    decreases |readings|
  {
    if |readings| == 0 then s
    else LapComplete(Reading(Laps(s, readings[..|readings| - 1], now), readings[|readings| - 1]), |readings|, now)
  }

  class FuelMonitor {
    var consumptionHistory: seq<FuelConsumptionData>
    var maxHistory: int
    var currentLapStartFuel: Option<real>
    var lastFuelReading: real

    ghost function State(): MonitorState
      reads this
    {
      MonitorState(consumptionHistory, maxHistory, currentLapStartFuel, lastFuelReading)
    }

    ghost predicate Valid()
      reads this
    {
      Bounded(State())
    }

    constructor (maxHistory: int := DefaultMaxHistory)
      ensures State() == MonitorState([], maxHistory, None, 0.0) && Valid()
    {
      consumptionHistory := [];
      this.maxHistory := maxHistory;
      currentLapStartFuel := None;
      lastFuelReading := 0.0;
    }

    /** `update_fuel_reading`. */
    method UpdateFuelReading(currentFuel: real, lapNumber: int)
      requires Valid()
      modifies this
      ensures State() == Reading(old(State()), currentFuel) && Valid()
    {
      if currentLapStartFuel.None? {
        currentLapStartFuel := Some(currentFuel);
      }
      if currentFuel != lastFuelReading {
        lastFuelReading := currentFuel;
      }
    }

    /** `on_lap_complete`, stamping the record with `now`. */
    method OnLapComplete(lapNumber: int, now: int)
      requires Valid()
      modifies this
      ensures State() == LapComplete(old(State()), lapNumber, now) && Valid()
    {
      ghost var before := State();
      if currentLapStartFuel.Some? {
        var consumption := FuelConsumptionData(now, lapNumber, currentLapStartFuel.value, lastFuelReading,
                                               currentLapStartFuel.value - lastFuelReading);
        consumptionHistory := consumptionHistory + [consumption];
        if |consumptionHistory| > maxHistory {
          consumptionHistory := consumptionHistory[1..];
        }
        currentLapStartFuel := Some(lastFuelReading);
      }
      OperationsKeepBound(before, 0.0, lapNumber, now);
    }

    /** `get_average_consumption`: the mean consumption, 0 on an empty history. */
    function AverageConsumption(): (r: real)
      reads this
      ensures |consumptionHistory| == 0 ==> r == 0.0
      ensures |consumptionHistory| > 0 ==> r * (|consumptionHistory| as real) == TotalConsumption(consumptionHistory)
    {
      if |consumptionHistory| == 0 then 0.0
      else TotalConsumption(consumptionHistory) / (|consumptionHistory| as real)
    }

    /** `calculate_remaining_laps`: fuel over the mean consumption, 0 unless that mean is positive. */
    function RemainingLaps(currentFuel: real): (r: real)
      reads this
      ensures AverageConsumption() <= 0.0 ==> r == 0.0
      ensures AverageConsumption() > 0.0 ==> r * AverageConsumption() == currentFuel
    {
      var avg := AverageConsumption();
      if avg <= 0.0 then 0.0 else currentFuel / avg
    }

    /** `get_current_lap_consumption`: 0 before any reading, else the fuel burnt since the lap started. */
    function CurrentLapConsumption(): (r: real)
      reads this
      ensures currentLapStartFuel.None? ==> r == 0.0
      ensures currentLapStartFuel.Some? ==> r + lastFuelReading == currentLapStartFuel.value
    {
      if currentLapStartFuel.None? then 0.0 else currentLapStartFuel.value - lastFuelReading
    }

    /** `calculate_fuel_percentage`: the share of the capacity in percent, 0 for a capacity that is not positive. */
    function FuelPercentage(currentFuel: real, maxFuel: real): (r: real)
      ensures maxFuel <= 0.0 ==> r == 0.0
      ensures maxFuel > 0.0 ==> r * maxFuel == currentFuel * 100.0
      ensures maxFuel > 0.0 && 0.0 <= currentFuel <= maxFuel ==> 0.0 <= r <= 100.0
    {
      if maxFuel <= 0.0 then 0.0 else (currentFuel / maxFuel) * 100.0
    }
  }
}
