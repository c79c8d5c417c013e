# GT7 telemetry dashboard: lap, fuel and packet logic

This project models the logic behind a Gran Turismo 7 telemetry dashboard and proves properties of it.

**The backend:**

- **Reader.** It receives encrypted UDP packets from the console, derives each packet's Salsa20 nonce and keeps only the decrypted packets that start with the magic number `0x47375330`. It sends a heartbeat at start-up, on the 101st packet after each heartbeat and on every socket timeout.
- **Parser.** It reads integer fields at fixed offsets in native byte order (struct formats without a prefix), taken here as little-endian, and feeds the fuel level to a fuel monitor.
- **Fuel monitor.** It keeps a bounded history of per-lap consumption records.
- **Car-data processor.** It builds the car and maker tables and an image URL "slug" for every car.
- **Validator.** It checks the PlayStation IP address given in the configuration.

**The frontend:**

- **Three dashboard components.** Advanced, Standard and Compact each run a lap-and-fuel tracker inside React effects:
  - refuel detection;
  - lap records and the running averages of fuel per lap and lap time;
  - a lap stopwatch driven by animation frames that follows the simulator's on-track, paused and loading flags.
- **`formatLapTime`.** It renders milliseconds as `m:ss.mmm`.

**Module layout:**

- `Bytes`, `Text` and `Wrappers` hold the value helpers.
- `Telemetry` holds the snapshot data the components receive and the flag bits.
- `LapFuel` holds the tracker that Advanced and Standard share, as pure step functions. Each effect body is one function, `Ingest` is one render, and `FrameStep` is one animation-frame callback.
- `TrackerCells` holds the same refs as mutable objects (`FuelCells`, `TimingCells`). Their methods are proved against the `LapFuel` step functions.
- `AdvancedDisplay`, `StandardDisplay` and `CompactDisplay` hold one class per component. Each method mirrors one effect or one block of an effect and is proved to compute the matching step function. Each render keeps the component's invariant.
- `LapTimeFormat`, `FuelMonitoring`, `Parser`, `Reader`, `CarProcessor` and `Validators` follow the source files of the same names.

**Where the model follows the code rather than the description:**

- The Compact dashboard divides its sums by one less than the number of records.
- The Compact dashboard appends a record on every lap transition, including ones with zero or negative fuel.
- The Advanced chart adds a point even for a lap that used no fuel.
- `formatLapTime` can render `1:60.000`.
- `validate_ps_ip` strips before it checks, and uses `inet_pton`, which refuses a part with a leading zero. The pattern lets such a part through, so `192.168.01.1` fails with the address error, not the format error.

## Model

| member | source | states |
|---|---|---|
| Telemetry.SetOnTrackKeepsOthers | frontend/src/types/telemetry.ts:17-19 | setting bit 0 makes the car on track and leaves the paused and loading flags as they were |
| Telemetry.SetPausedKeepsOthers | frontend/src/types/telemetry.ts:17-19 | setting bit 1 makes it paused and leaves on-track and loading alone |
| Telemetry.SetLoadingKeepsOthers | frontend/src/types/telemetry.ts:17-19 | setting bit 2 makes it loading and leaves on-track and paused alone |
| Telemetry.OnTrack | frontend/src/types/telemetry.ts:17 | bit 0 of the flags; `Telemetry.SetOnTrackKeepsOthers` states that it is independent of the other two bits |
| Telemetry.Paused | frontend/src/types/telemetry.ts:18 | bit 1 of the flags; `Telemetry.SetPausedKeepsOthers` states its independence |
| Telemetry.Loading | frontend/src/types/telemetry.ts:19 | bit 2 of the flags; `Telemetry.SetLoadingKeepsOthers` states its independence |
| Telemetry.IsTrial | frontend/src/components/telemetry/AdvancedDisplay.tsx:359 | the trial test on the total lap count; what it selects is stated by `CompactDisplay.LapLabelReadsBack` (a label tells a trial from a race) and by `LapLabel` (the label has a '/' exactly outside a trial) |
| Telemetry.LapsRemaining | frontend/src/components/telemetry/AdvancedDisplay.tsx:360 | with a positive average, the estimate times the average equals the current fuel, and it is non-negative for non-negative fuel; otherwise it is 0 |
| LapFuel.InitialPrevFuel | frontend/src/components/telemetry/AdvancedDisplay.tsx:165 | the start value (the first fuel reading, or 100 when it is missing or 0) of the previous-fuel ref; that mounting is never taken for a refuel is stated by `LapFuel.MountIsNoRefuel` |
| LapFuel.CountPositive | frontend/src/components/telemetry/AdvancedDisplay.tsx:233 | the number of records with positive fuel is at most the number of records |
| LapFuel.CountPositiveAll | frontend/src/components/telemetry/AdvancedDisplay.tsx:233 | when every record is positive, the filter keeps all of them |
| LapFuel.AveragesAreMeans | frontend/src/components/telemetry/AdvancedDisplay.tsx:229-248 | when every record is positive, both averages (sum over all records divided by the positive count) are the arithmetic means |
| LapFuel.AverageFuel | frontend/src/components/telemetry/AdvancedDisplay.tsx:233-238 | the sum of all records' fuel over the number of positive ones (0 when none is positive); `LapFuel.AveragesAreMeans` shows it is the mean when every record is positive |
| LapFuel.AverageLapTime | frontend/src/components/telemetry/AdvancedDisplay.tsx:233-242 | the sum of all lap times over the number of positive fuel records (0 when none); `LapFuel.AveragesAreMeans` shows it is the mean lap time when every record is positive |
| LapFuel.MeanFuelPositive | frontend/src/components/telemetry/AdvancedDisplay.tsx:229-248 | the mean of positive records is positive exactly when there is a record |
| LapFuel.RefuelStep | frontend/src/components/telemetry/AdvancedDisplay.tsx:182-196 | the previous fuel becomes the current fuel; a rise of more than 0.5 points overwrites (does not add to) the fuel added this lap; the fuel added changes only on such a rise; nothing else changes |
| LapFuel.RaceReset | frontend/src/components/telemetry/AdvancedDisplay.tsx:203-213 | the reset block never touches the fuel lap ref |
| LapFuel.RecordLap | frontend/src/components/telemetry/AdvancedDisplay.tsx:229-248 | appending a record extends the records by exactly that record |
| LapFuel.LoadingCheck | frontend/src/components/telemetry/AdvancedDisplay.tsx:281-287 | on a loading rising edge the stopwatch, the shown time and the timing lap are 0 and the tick is `now`; otherwise nothing changes |
| LapFuel.TrackLossCheck | frontend/src/components/telemetry/AdvancedDisplay.tsx:291-297 | on an on-track falling edge the stopwatch, the shown time and the timing lap are 0; the last tick is never touched |
| LapFuel.LapChangeCheck | frontend/src/components/telemetry/AdvancedDisplay.tsx:303-309 | a new positive lap on track restarts the stopwatch at `now` and shows the 0.001 sentinel; off track nothing changes |
| LapFuel.PauseCheck | frontend/src/components/telemetry/AdvancedDisplay.tsx:313-322 | entering pause adds `now - lastTick` to the stopwatch; leaving pause sets the tick to `now`; with no edge nothing changes; the shown time and the timing lap are kept |
| LapFuel.TimingStep | frontend/src/components/telemetry/AdvancedDisplay.tsx:271-346 | afterwards the was-on-track, was-loading and was-paused refs hold the snapshot's flags, and the frame loop is rescheduled with them |
| LapFuel.LapCompletion | frontend/src/components/telemetry/AdvancedDisplay.tsx:215-267 | the lap-transition block; `LapFuel.LapTransitionRecords` states the record it appends and the rebase |
| LapFuel.LapStep | frontend/src/components/telemetry/AdvancedDisplay.tsx:199-268 | the lap-completion effect; `LapFuel.RaceResetClearsRecords`, `LapTransitionRecords`, `NoTransitionNoChange`, `RecordsAppendOnly` and `LapStepConsistent` constrain it |
| LapFuel.FrameStep | frontend/src/components/telemetry/AdvancedDisplay.tsx:325-336 | one animation-frame callback; `LapFuel.FramesIdleWhenInactive`, `FramesAccumulate` and `FramesMonotonic` constrain runs of it |
| LapFuel.Ingest | frontend/src/components/telemetry/AdvancedDisplay.tsx:182-346 | one render of the Advanced and Standard trackers: the effects in declaration order; `LapFuel.IngestConsistent`, `IngestSettles` and `RepeatedIngestIsNoOp` constrain it |
| LapFuel.RaceResetClearsRecords | frontend/src/components/telemetry/AdvancedDisplay.tsx:203-213 | lap 1 after a lap above 1 leaves no records, zero averages, both fuel baselines at the current fuel and the fuel lap at 1 |
| LapFuel.IsRaceReset | frontend/src/components/telemetry/AdvancedDisplay.tsx:203 | lap 1 after a fuel lap above 1; `LapFuel.RaceResetClearsRecords` states what it clears |
| LapFuel.LapTransitionRecords | frontend/src/components/telemetry/AdvancedDisplay.tsx:215-267 | a lap change appends one record exactly when (start + added) - current is positive, and always rebases the lap, the start fuel and the fuel added |
| LapFuel.IsLapTransition | frontend/src/components/telemetry/AdvancedDisplay.tsx:215 | a lap above 0 other than the last fuel lap; `LapFuel.LapTransitionRecords` states what a transition records |
| LapFuel.FuelUsedThisLap | frontend/src/components/telemetry/AdvancedDisplay.tsx:217 | start fuel plus fuel added minus the current fuel; `LapFuel.LapTransitionRecords` shows a record is kept exactly when it is positive, and `LapFuel.MidLapRefuelAddsToConsumption` works one lap with a 5-point refuel: (92 + 5) - 90 = 7 points |
| LapFuel.NoTransitionNoChange | frontend/src/components/telemetry/AdvancedDisplay.tsx:199-268 | without a lap change or a reset, the lap-completion effect changes nothing |
| LapFuel.RecordsAppendOnly | frontend/src/components/telemetry/AdvancedDisplay.tsx:215-267 | outside a reset, records are only appended, at most one per render |
| LapFuel.LapStepConsistent | frontend/src/components/telemetry/AdvancedDisplay.tsx:199-268 | the lap-completion effect keeps every record positive and both averages equal to the means over the records |
| LapFuel.IngestConsistent | frontend/src/components/telemetry/AdvancedDisplay.tsx:182-268 | every render keeps that invariant |
| LapFuel.InitialConsistent | frontend/src/components/telemetry/AdvancedDisplay.tsx:145-168 | the refs as mounted satisfy the invariant |
| LapFuel.MountIsNoRefuel | frontend/src/components/telemetry/AdvancedDisplay.tsx:165-196 | the refuel effect's run on the first render only records the reading; mounted without data, a first percentage between 0 and 100 is not taken for a refuel |
| LapFuel.LoadingEdgeResetsTimer | frontend/src/components/telemetry/AdvancedDisplay.tsx:281-309 | after a loading rising edge the stopwatch is 0 and rebased on `now`; the timing lap is the current lap, showing the sentinel, when the car is on track on a positive lap, and 0 otherwise |
| LapFuel.TrackLossStopsTimer | frontend/src/components/telemetry/AdvancedDisplay.tsx:291-322 | leaving the track shows 0, forgets the timing lap and idles the frame loop; the clock stays 0 unless pause is entered in the same render |
| LapFuel.LapChangeRestartsTimer | frontend/src/components/telemetry/AdvancedDisplay.tsx:303-309 | a lap change on track restarts the stopwatch at the sentinel, and the loop runs exactly when not paused |
| LapFuel.OffTrackLapChangeIgnored | frontend/src/components/telemetry/AdvancedDisplay.tsx:281-309 | off track a lap change is ignored: the timing lap and the shown time are zeroed when the render has a loading edge or leaves the track, and kept otherwise; the loop is idle |
| LapFuel.PauseEntryFreezes | frontend/src/components/telemetry/AdvancedDisplay.tsx:313-318 | entering pause with no other edge banks `now - lastTick` and idles the loop |
| LapFuel.PauseExitRebases | frontend/src/components/telemetry/AdvancedDisplay.tsx:318-321 | leaving pause with no other edge rebases the tick and keeps the stopwatch |
| LapFuel.FramesIdleWhenInactive | frontend/src/components/telemetry/AdvancedDisplay.tsx:325-336 | while paused, off track or on lap 0 or below, any run of frames changes nothing |
| LapFuel.FramesAccumulate | frontend/src/components/telemetry/AdvancedDisplay.tsx:325-336 | while active, a run of frames adds exactly the wall-clock time from the last tick to the last frame, and the shown time is the stopwatch |
| LapFuel.Active | frontend/src/components/telemetry/AdvancedDisplay.tsx:326 | on track, on a lap above 0 and not paused; `LapFuel.FramesIdleWhenInactive` and `FramesAccumulate` show frames change the clock exactly while it holds |
| LapFuel.Frames | frontend/src/components/telemetry/AdvancedDisplay.tsx:325-336 | a run of frame callbacks in order; `LapFuel.FramesIdleWhenInactive`, `FramesAccumulate` and `FramesMonotonic` state its effect |
| LapFuel.FramesMonotonic | frontend/src/components/telemetry/AdvancedDisplay.tsx:325-336 | with a non-decreasing clock the stopwatch never decreases |
| LapFuel.IngestSettles | frontend/src/components/telemetry/AdvancedDisplay.tsx:182-346 | after a render the refs record that render's fuel, lap and flags, and frames keep it so |
| LapFuel.SkippedEffectsAreNoOps | frontend/src/components/telemetry/AdvancedDisplay.tsx:196 | an effect React skips because its dependencies did not change would change nothing if it ran |
| LapFuel.RepeatedIngestIsNoOp | frontend/src/components/telemetry/AdvancedDisplay.tsx:182-346 | re-rendering a snapshot with the same fuel, lap and flags changes nothing: no second record |
| LapFuel.MountThenFrameShowsElapsed | frontend/src/components/telemetry/AdvancedDisplay.tsx:171-346 | mounted on lap 1 at 100%: no record, refs rebased, and a frame 1000 ms later shows 1000 ms |
| LapFuel.FirstRecordSetsAverages | frontend/src/components/telemetry/AdvancedDisplay.tsx:229-248 | the first positive record sets both averages to its own fuel and time |
| LapFuel.LapTwoRecordsBurntFuel | frontend/src/components/telemetry/AdvancedDisplay.tsx:199-309 | lap 2 at 92% with a 95 s lap records 8 points and 95000 ms and shows the sentinel |
| LapFuel.MidLapRefuelAddsToConsumption | frontend/src/components/telemetry/AdvancedDisplay.tsx:182-268 | a 5-point refuel during lap 2 and then lap 3 at 90% records (92 + 5) - 90 = 7 points, and the averages become 7.5 points and 94 s |
| LapFuel.TwoRecordAverages | frontend/src/components/telemetry/AdvancedDisplay.tsx:236-242 | records of 8 and 7 points, 95 s and 93 s, average to 7.5 and 94 s |
| TrackerCells.FuelCells.constructor | frontend/src/components/telemetry/AdvancedDisplay.tsx:148-167 | the fuel cells as mounted: no records, zero averages, start fuel 100, previous fuel from the first render |
| TrackerCells.FuelCells.RefuelEffect | frontend/src/components/telemetry/AdvancedDisplay.tsx:182-196 | the cells afterwards are `RefuelStep` of the cells before; with no data, unchanged |
| TrackerCells.FuelCells.ResetBlock | frontend/src/components/telemetry/AdvancedDisplay.tsx:203-213 | the cells afterwards are `RaceReset` of the cells before |
| TrackerCells.FuelCells.AppendRecord | frontend/src/components/telemetry/AdvancedDisplay.tsx:221-248 | the cells afterwards are `RecordLap`: one record more and both averages recomputed |
| TrackerCells.FuelCells.RebaseLap | frontend/src/components/telemetry/AdvancedDisplay.tsx:264-266 | only the fuel lap, the start fuel and the fuel added change: to the new lap, the current fuel and 0 |
| TrackerCells.FuelCells.EstimatedLapsRemaining | frontend/src/components/telemetry/AdvancedDisplay.tsx:360 | the estimate times a positive average is the fuel; it is 0 without one |
| TrackerCells.TimingCells.constructor | frontend/src/components/telemetry/StandardDisplay.tsx:141-162 | the timing cells as mounted: both ticks at the mount time, no frame loop |
| TrackerCells.TimingCells.TimingEffect | frontend/src/components/telemetry/AdvancedDisplay.tsx:271-346 | the cells afterwards are `TimingStep` of the cells before; with no data only the loop is cancelled |
| TrackerCells.TimingCells.LoadingBlock | frontend/src/components/telemetry/AdvancedDisplay.tsx:281-287 | the cells afterwards are `LoadingCheck` of the cells before |
| TrackerCells.TimingCells.TrackLossBlock | frontend/src/components/telemetry/AdvancedDisplay.tsx:291-297 | the cells afterwards are `TrackLossCheck` of the cells before |
| TrackerCells.TimingCells.LapChangeBlock | frontend/src/components/telemetry/AdvancedDisplay.tsx:303-309 | the cells afterwards are `LapChangeCheck` of the cells before |
| TrackerCells.TimingCells.PauseBlock | frontend/src/components/telemetry/AdvancedDisplay.tsx:313-322 | the cells afterwards are `PauseCheck` of the cells before |
| TrackerCells.TimingCells.Frame | frontend/src/components/telemetry/AdvancedDisplay.tsx:325-336 | the cells afterwards are `FrameStep` of the cells before |
| StandardDisplay.StandardTracker.constructor | frontend/src/components/telemetry/StandardDisplay.tsx:141-162 | the component mounts in the initial tracker state, ticks at the mount time, and satisfies the invariant |
| StandardDisplay.StandardTracker.LapEffect | frontend/src/components/telemetry/StandardDisplay.tsx:183-239 | the fuel cells afterwards are `LapStep` of the cells before |
| StandardDisplay.StandardTracker.CompletionBlock | frontend/src/components/telemetry/StandardDisplay.tsx:198-238 | the fuel cells afterwards are `LapCompletion`: a record when the lap used positive fuel, then the rebase |
| StandardDisplay.StandardTracker.Ingest | frontend/src/components/telemetry/StandardDisplay.tsx:166-317 | one render is `LapFuel.Ingest` of the state before, and it keeps the records positive and the averages equal to the means |
| StandardDisplay.StandardTracker.Frame | frontend/src/components/telemetry/StandardDisplay.tsx:296-307 | a frame is `FrameStep` on the timing cells and leaves the fuel cells alone |
| StandardDisplay.StandardTracker.EstimatedLapsRemaining | frontend/src/components/telemetry/StandardDisplay.tsx:335 | fuel divided by a positive average, else 0 |
| AdvancedDisplay.LastN | frontend/src/components/telemetry/AdvancedDisplay.tsx:254 | `slice(-n)`: the last min(n, length) elements |
| AdvancedDisplay.AdvancedInitial | frontend/src/components/telemetry/AdvancedDisplay.tsx:145-168 | the mounted state: both ticks at 0, empty chart, not yet initialised |
| AdvancedDisplay.InitStep | frontend/src/components/telemetry/AdvancedDisplay.tsx:171-178 | the first run sets both ticks to `now` and marks the component initialised; later runs change nothing; the chart is untouched |
| AdvancedDisplay.HistoryAppend | frontend/src/components/telemetry/AdvancedDisplay.tsx:252-261 | on a lap change with a last lap time, the chart becomes its last four points and then the new point (lap - 1, seconds, fuel used); otherwise it is unchanged; it never grows beyond five points |
| AdvancedDisplay.NewEntry | frontend/src/components/telemetry/AdvancedDisplay.tsx:254-258 | the chart point (current lap - 1, lap time in seconds, fuel used); `AdvancedDisplay.HistoryAppend` and `HistoryIgnoresFuelSign` state where it goes |
| AdvancedDisplay.HistoryStep | frontend/src/components/telemetry/AdvancedDisplay.tsx:203-261 | the chart update of the lap effect; `AdvancedDisplay.ResetRestartsHistory`, `HistoryIgnoresFuelSign` and `HistoryUnchangedWithoutCompletion` constrain it |
| AdvancedDisplay.AdvancedIngest | frontend/src/components/telemetry/AdvancedDisplay.tsx:171-346 | one render of the Advanced component; `AdvancedDisplay.AdvancedCoreIsShared`, `AdvancedIngestValid` and `AdvancedRepeatedIngestIsNoOp` constrain it |
| AdvancedDisplay.AdvancedCoreIsShared | frontend/src/components/telemetry/AdvancedDisplay.tsx:171-346 | apart from the chart, a render of the Advanced component is the shared tracker's render after the init effect |
| AdvancedDisplay.AdvancedInitialValid | frontend/src/components/telemetry/AdvancedDisplay.tsx:145-168 | the mounted state satisfies the invariant (consistent records, at most five chart points) |
| AdvancedDisplay.AdvancedIngestValid | frontend/src/components/telemetry/AdvancedDisplay.tsx:171-346 | renders and frames keep that invariant |
| AdvancedDisplay.AdvancedFrame | frontend/src/components/telemetry/AdvancedDisplay.tsx:325-336 | one frame: only the shared timing refs change, by `LapFuel.FrameStep`; `AdvancedDisplay.AdvancedIngestValid` shows frames keep the invariant |
| AdvancedDisplay.InitStepIdempotent | frontend/src/components/telemetry/AdvancedDisplay.tsx:172 | the init effect acts once |
| AdvancedDisplay.ResetRestartsHistory | frontend/src/components/telemetry/AdvancedDisplay.tsx:203-261 | after a race reset the chart holds a single point, numbered lap 0 because a reset is reported on lap 1 and the point is numbered current lap - 1, when there is a last lap time; otherwise it is empty |
| AdvancedDisplay.HistoryIgnoresFuelSign | frontend/src/components/telemetry/AdvancedDisplay.tsx:219-261 | a completed lap that used no fuel adds a chart point carrying that fuel figure but no lap record |
| AdvancedDisplay.HistoryUnchangedWithoutCompletion | frontend/src/components/telemetry/AdvancedDisplay.tsx:252-261 | without a lap change, or without a last lap time, the chart is kept |
| AdvancedDisplay.AdvancedRepeatedIngestIsNoOp | frontend/src/components/telemetry/AdvancedDisplay.tsx:171-346 | re-rendering a settled snapshot leaves the whole state, the chart included, unchanged |
| AdvancedDisplay.AdvancedTracker.constructor | frontend/src/components/telemetry/AdvancedDisplay.tsx:145-168 | the component mounts in `AdvancedInitial`, which satisfies the invariant |
| AdvancedDisplay.AdvancedTracker.InitEffect | frontend/src/components/telemetry/AdvancedDisplay.tsx:171-178 | the state afterwards is `InitStep` of the state before |
| AdvancedDisplay.AdvancedTracker.LapEffect | frontend/src/components/telemetry/AdvancedDisplay.tsx:199-268 | the fuel cells afterwards are `LapStep` and the chart is `HistoryStep` of the state before; with no data both are unchanged |
| AdvancedDisplay.AdvancedTracker.ResetBlock | frontend/src/components/telemetry/AdvancedDisplay.tsx:203-213 | `RaceReset` on the fuel cells, and the chart is emptied exactly on a reset |
| AdvancedDisplay.AdvancedTracker.CompletionBlock | frontend/src/components/telemetry/AdvancedDisplay.tsx:215-267 | `LapCompletion` on the fuel cells and `HistoryAppend` on the chart |
| AdvancedDisplay.AdvancedTracker.PushHistory | frontend/src/components/telemetry/AdvancedDisplay.tsx:253-261 | the chart becomes its last four points followed by the entry |
| AdvancedDisplay.AdvancedTracker.Ingest | frontend/src/components/telemetry/AdvancedDisplay.tsx:171-346 | one render is `AdvancedIngest` of the state before, and it keeps the invariant |
| AdvancedDisplay.AdvancedTracker.Frame | frontend/src/components/telemetry/AdvancedDisplay.tsx:325-336 | a frame is `FrameStep` on the timing cells only |
| AdvancedDisplay.AdvancedTracker.EstimatedLapsRemaining | frontend/src/components/telemetry/AdvancedDisplay.tsx:360 | fuel divided by a positive average, else 0 |
| CompactDisplay.CompactInitial | frontend/src/components/telemetry/CompactDisplay.tsx:161-175 | mounted with no records, lap 0, start fuel 100, both ticks at `now` and no frame loop |
| CompactDisplay.Divisor | frontend/src/components/telemetry/CompactDisplay.tsx:203 | the divisor of both Compact averages; its effect is stated by `CompactDisplay.CompactAverageOverCountMinusOne` (each average times n - 1 is the sum) and `CompactAverageIsNotTheMean` |
| CompactDisplay.CompactReset | frontend/src/components/telemetry/CompactDisplay.tsx:182-188 | lap 1 after a lap above 1 clears the records and the averages and rebases the start fuel; otherwise nothing changes; the lap ref is never written |
| CompactDisplay.CompactCompletion | frontend/src/components/telemetry/CompactDisplay.tsx:191-220 | every lap transition appends (start - current, last lap time), whatever its sign, and rebases the start fuel; otherwise nothing changes |
| CompactDisplay.CompactFuelStep | frontend/src/components/telemetry/CompactDisplay.tsx:178-221 | the fuel effect writes none of the timing fields or the shared lap ref |
| CompactDisplay.CompactLapChange | frontend/src/components/telemetry/CompactDisplay.tsx:228-234 | any new positive lap, on track or not, sets the lap ref and restarts the clock at `now`; otherwise nothing changes |
| CompactDisplay.CompactPause | frontend/src/components/telemetry/CompactDisplay.tsx:240-249 | entering pause banks `now - lastTick`; leaving pause rebases the tick; with no edge nothing changes |
| CompactDisplay.CompactTimingStep | frontend/src/components/telemetry/CompactDisplay.tsx:224-273 | the timing effect keeps the records, the averages and the start fuel, records the paused flag and reschedules the loop |
| CompactDisplay.CompactFrame | frontend/src/components/telemetry/CompactDisplay.tsx:252-263 | a frame keeps the records, the loop and the averages' tie to the records |
| CompactDisplay.CompactIngest | frontend/src/components/telemetry/CompactDisplay.tsx:178-273 | one render of the Compact component; `CompactDisplay.CompactIngestAveraged`, `CompactTransitionAppends`, `CompactIngestSettles` and `CompactRepeatedIngestIsNoOp` constrain it |
| CompactDisplay.CompactAverageOverCountMinusOne | frontend/src/components/telemetry/CompactDisplay.tsx:203-210 | with two or more records, each average times (n - 1) is the sum over all n; with fewer, both averages are 0 |
| CompactDisplay.CompactAverageFuel | frontend/src/components/telemetry/CompactDisplay.tsx:203-207 | the fuel sum over the record count minus one; `CompactDisplay.CompactAverageOverCountMinusOne` and `CompactAverageIsNotTheMean` state it |
| CompactDisplay.CompactAverageLapTime | frontend/src/components/telemetry/CompactDisplay.tsx:203-210 | the lap-time sum over the record count minus one; `CompactDisplay.CompactAverageOverCountMinusOne` and `CompactAverageIsNotTheMean` state it |
| CompactDisplay.CompactAverageIsNotTheMean | frontend/src/components/telemetry/CompactDisplay.tsx:203-210 | two laps of 2 points and 90 s average to 4 points and 180 s, twice the mean |
| CompactDisplay.FuelStepKeepsPrevLap | frontend/src/components/telemetry/CompactDisplay.tsx:169 | the single lap ref is written only by the timing effect, and after a render it holds the new lap exactly on a transition |
| CompactDisplay.CompactTransitionAppends | frontend/src/components/telemetry/CompactDisplay.tsx:191-220 | outside a reset, a render appends exactly one record on a transition and none otherwise |
| CompactDisplay.CompactResetLeavesOneZeroRecord | frontend/src/components/telemetry/CompactDisplay.tsx:182-220 | a race reset is also a transition, so the records restart as one zero-fuel record and both averages read 0 |
| CompactDisplay.IsCompactReset | frontend/src/components/telemetry/CompactDisplay.tsx:182 | lap 1 after a lap above 1; `CompactDisplay.CompactResetLeavesOneZeroRecord` states its effect |
| CompactDisplay.IsCompactTransition | frontend/src/components/telemetry/CompactDisplay.tsx:191 | a lap above 0 other than the last lap; `CompactDisplay.CompactTransitionAppends` shows a transition appends exactly one record |
| CompactDisplay.CompactIngestAveraged | frontend/src/components/telemetry/CompactDisplay.tsx:178-273 | renders and frames keep both averages equal to the (n - 1) averages of the records |
| CompactDisplay.CompactInitialAveraged | frontend/src/components/telemetry/CompactDisplay.tsx:161-175 | the mounted state satisfies that invariant |
| CompactDisplay.CompactLapChangeRestarts | frontend/src/components/telemetry/CompactDisplay.tsx:228-249 | a transition leaves the stopwatch and the shown time at 0, the tick at `now` and the lap ref at the new lap, even with a pause edge in the same render |
| CompactDisplay.CompactPauseEdges | frontend/src/components/telemetry/CompactDisplay.tsx:240-249 | without a transition, entering pause banks the elapsed time and leaving it rebases the tick |
| CompactDisplay.CompactFramesIdle | frontend/src/components/telemetry/CompactDisplay.tsx:252-263 | while paused or on lap 0 or below, frames change nothing |
| CompactDisplay.CompactFramesAccumulate | frontend/src/components/telemetry/CompactDisplay.tsx:252-263 | while running, frames add the wall-clock time since the last tick, and the shown time is the stopwatch |
| CompactDisplay.CompactActive | frontend/src/components/telemetry/CompactDisplay.tsx:253 | on a lap above 0 and not paused; `CompactDisplay.CompactFramesIdle` and `CompactFramesAccumulate` show frames change the clock exactly while it holds |
| CompactDisplay.CompactFrames | frontend/src/components/telemetry/CompactDisplay.tsx:252-263 | a run of frame callbacks in order; `CompactDisplay.CompactFramesIdle` and `CompactFramesAccumulate` state its effect |
| CompactDisplay.CompactPausedRenderFreezes | frontend/src/components/telemetry/CompactDisplay.tsx:237-265 | after a paused render, frames change nothing |
| CompactDisplay.CompactIngestSettles | frontend/src/components/telemetry/CompactDisplay.tsx:224-273 | after a render the lap ref, the paused ref and the loop record that render's snapshot |
| CompactDisplay.CompactRepeatedIngestIsNoOp | frontend/src/components/telemetry/CompactDisplay.tsx:178-273 | once settled, a snapshot with the same lap changes no record, and one with the same lap and flags changes nothing at all |
| CompactDisplay.LapLabel | frontend/src/components/telemetry/CompactDisplay.tsx:363 | "--" for lap -1; otherwise the label starts with the lap number and contains '/' exactly when the session is not a trial |
| CompactDisplay.LapLabelPlaceholder | frontend/src/components/telemetry/CompactDisplay.tsx:363 | the lap label is "--" exactly for lap -1 |
| CompactDisplay.LapLabelReadsBack | frontend/src/components/telemetry/CompactDisplay.tsx:363 | two labels of laps other than -1 are equal only for the same lap and the same kind of session, and in a race only for the same total |
| CompactDisplay.PositionLabelPlaceholder | frontend/src/components/telemetry/CompactDisplay.tsx:392-393 | the position label is "--" exactly for position -1 |
| CompactDisplay.PositionLabel | frontend/src/components/telemetry/CompactDisplay.tsx:392-393 | "--" for position -1, otherwise position '/' total; `CompactDisplay.PositionLabelPlaceholder` and `PositionLabelReadsBack` state that the label determines both numbers |
| CompactDisplay.PositionLabelReadsBack | frontend/src/components/telemetry/CompactDisplay.tsx:392-393 | two labels of positions other than -1 are equal only for the same position and the same total |
| CompactDisplay.SuggestedGear | frontend/src/components/telemetry/CompactDisplay.tsx:282 | gear 15 means no suggestion; `CompactDisplay.SuggestionFromGearByte` states what this means for the byte the parser decodes |
| CompactDisplay.SuggestionFromGearByte | frontend/src/components/telemetry/CompactDisplay.tsx:282 | for the parser's high nibble of a gear byte, no suggestion exactly for bytes 0xF0 to 0xFF; otherwise a gear from 0 to 14 that is the byte's high nibble |
| CompactDisplay.LabelExamples | frontend/src/components/telemetry/CompactDisplay.tsx:363 | lap 3 of 5 reads "3/5", lap 2 in a trial reads "2", positions read "1/8" and "--" |
| CompactDisplay.CompactTracker.constructor | frontend/src/components/telemetry/CompactDisplay.tsx:161-175 | the component mounts in `CompactInitial`, which satisfies the averages invariant |
| CompactDisplay.CompactTracker.FuelEffect | frontend/src/components/telemetry/CompactDisplay.tsx:178-221 | the state afterwards is `CompactFuelStep` of the state before; with no data, unchanged |
| CompactDisplay.CompactTracker.ResetBlock | frontend/src/components/telemetry/CompactDisplay.tsx:182-188 | the state afterwards is `CompactReset` of the state before |
| CompactDisplay.CompactTracker.CompletionBlock | frontend/src/components/telemetry/CompactDisplay.tsx:191-220 | the state afterwards is `CompactCompletion` of the state before |
| CompactDisplay.CompactTracker.RecordCompactLap | frontend/src/components/telemetry/CompactDisplay.tsx:201-216 | the records gain the new record at the end, and both averages are the (n - 1) averages of the new records |
| CompactDisplay.CompactTracker.TimingEffect | frontend/src/components/telemetry/CompactDisplay.tsx:224-273 | the state afterwards is `CompactTimingStep` of the state before; with no data only the loop is cancelled |
| CompactDisplay.CompactTracker.LapChangeBlock | frontend/src/components/telemetry/CompactDisplay.tsx:228-234 | the state afterwards is `CompactLapChange` of the state before |
| CompactDisplay.CompactTracker.PauseBlock | frontend/src/components/telemetry/CompactDisplay.tsx:240-249 | the state afterwards is `CompactPause` of the state before |
| CompactDisplay.CompactTracker.Ingest | frontend/src/components/telemetry/CompactDisplay.tsx:178-273 | one render is `CompactIngest` of the state before, and it keeps the averages invariant |
| CompactDisplay.CompactTracker.Frame | frontend/src/components/telemetry/CompactDisplay.tsx:252-263 | a frame is `CompactFrame` of the state before, and it keeps the invariant |
| CompactDisplay.CompactTracker.EstimatedLapsRemaining | frontend/src/components/telemetry/CompactDisplay.tsx:291 | fuel divided by a positive average, else 0 |
| LapTimeFormat.FormatLapTime | frontend/src/lib/utils.ts:13-23 | "--:--" for times of 0 or below; otherwise the whole minutes, then ':', then a six-character seconds field |
| LapTimeFormat.ThousandthsRange | frontend/src/lib/utils.ts:20-22 | the rounded thousandths of the last minute lie between 0 and 60000 (so the field is at most two whole digits) |
| LapTimeFormat.SecondsFieldShape | frontend/src/lib/utils.ts:22 | `toFixed(3).padStart(6, '0')` is six characters with the point at index 2 |
| LapTimeFormat.ToFixed3Shape | frontend/src/lib/utils.ts:22 | `toFixed(3)` is the whole part, a point and three digits |
| LapTimeFormat.IntegerSplit | frontend/src/lib/utils.ts:18-20 | for whole milliseconds the minutes are `ms div 60000` and the thousandths are `ms mod 60000`, with nothing rounded |
| LapTimeFormat.MinutesOf | frontend/src/lib/utils.ts:19 | `Math.floor` of the minutes; `LapTimeFormat.IntegerSplit` shows it is `ms div 60000` for whole milliseconds |
| LapTimeFormat.Thousandths | frontend/src/lib/utils.ts:20-22 | the rest of the last minute in rounded thousandths; `LapTimeFormat.ThousandthsRange` bounds it and `IntegerSplit` shows it is `ms mod 60000` for whole milliseconds |
| LapTimeFormat.ToFixed3 | frontend/src/lib/utils.ts:22 | `toFixed(3)` of a whole number of thousandths; `LapTimeFormat.ToFixed3Shape` states its shape |
| LapTimeFormat.SecondsField | frontend/src/lib/utils.ts:22 | the padded seconds field; `LapTimeFormat.SecondsFieldShape` states its shape |
| LapTimeFormat.Assemble | frontend/src/lib/utils.ts:22 | minutes, ':' and the padded seconds field; `LapTimeFormat.AssembleRoundTrip` shows its digits recombine to the time |
| LapTimeFormat.FormatFromParts | frontend/src/lib/utils.ts:18-22 | a positive time renders through its whole minutes and its rounded thousandths |
| LapTimeFormat.FormatIntegerShape | frontend/src/lib/utils.ts:18-22 | a whole-millisecond time renders from integer division alone |
| LapTimeFormat.PadToWidth | frontend/src/lib/utils.ts:22 | `padStart` puts exactly the missing zeros in front |
| LapTimeFormat.FractionDigits | frontend/src/lib/utils.ts:22 | the three fraction digits read back as the thousandths |
| LapTimeFormat.SecondsFieldDigits | frontend/src/lib/utils.ts:22 | the seconds field reads back as whole seconds and thousandths |
| LapTimeFormat.AssembleRoundTrip | frontend/src/lib/utils.ts:22 | the minutes, two seconds digits below 60 and three fraction digits recombine to the total milliseconds |
| LapTimeFormat.FormatIntegerRoundTrip | frontend/src/lib/utils.ts:13-23 | a formatted whole-millisecond time reads back to the same number of milliseconds |
| LapTimeFormat.Format94300 | frontend/src/lib/utils.ts:13-23 | 94300 ms renders "1:34.300" |
| LapTimeFormat.Format65123 | frontend/src/lib/utils.ts:13-23 | 65123 ms renders "1:05.123" (the seconds are padded) |
| LapTimeFormat.SentinelRendersZero | frontend/src/lib/utils.ts:13-23 | the stopwatch's 0.001 ms sentinel renders "0:00.000" |
| LapTimeFormat.PlaceholderForNoTime | frontend/src/lib/utils.ts:14-16 | zero and negative times render the placeholder |
| LapTimeFormat.RoundingCarriesToSixty | frontend/src/lib/utils.ts:19-22 | 119999.6 ms renders "1:60.000": the rounding carries into the seconds, not the minutes |
| FuelMonitoring.Push | backend/telemetry/fuel_monitor.py:43-45 | append, then drop the first element when the list is longer than the bound |
| FuelMonitoring.PushBounded | backend/telemetry/fuel_monitor.py:43-45 | a history within its bound stays within it |
| FuelMonitoring.PushKeepsNewest | backend/telemetry/fuel_monitor.py:43-45 | the result is the newest min(n + 1, bound) records in order, ending with the new one when the bound is positive |
| FuelMonitoring.PushFullDropsOldest | backend/telemetry/fuel_monitor.py:43-45 | pushing onto a full history drops exactly its oldest record |
| FuelMonitoring.LapRecord | backend/telemetry/fuel_monitor.py:35-41 | the record built at a lap completion; `FuelMonitoring.LapRecordsBurntFuel` and `ConsumptionsTelescope` state that its consumption is the fuel burnt during the lap |
| FuelMonitoring.Reading | backend/telemetry/fuel_monitor.py:24-30 | the last reading becomes the fuel; the lap-start fuel is set only when unset; the history is untouched |
| FuelMonitoring.LapComplete | backend/telemetry/fuel_monitor.py:32-48 | before any reading, nothing changes; otherwise the next lap starts from the last reading |
| FuelMonitoring.OperationsKeepBound | backend/telemetry/fuel_monitor.py:24-48 | both operations keep the history within its bound |
| FuelMonitoring.StartFuelSetOnce | backend/telemetry/fuel_monitor.py:26-27 | once the first reading is taken, later readings never move the lap-start fuel |
| FuelMonitoring.LapRecordsBurntFuel | backend/telemetry/fuel_monitor.py:32-48 | a reading and then a lap completion record exactly the fuel burnt since the lap started, and the next lap starts at that reading |
| FuelMonitoring.ConsumptionsTelescope | backend/telemetry/fuel_monitor.py:24-48 | over consecutive laps the recorded consumptions add up to the first start fuel minus the last reading |
| FuelMonitoring.Laps | backend/telemetry/fuel_monitor.py:24-48 | a run of readings and lap completions keeps the lap-start fuel set and the bound unchanged |
| FuelMonitoring.FuelMonitor.constructor | backend/telemetry/fuel_monitor.py:18-22 | empty history, the given bound (5 by default), no lap-start fuel, last reading 0 |
| FuelMonitoring.FuelMonitor.UpdateFuelReading | backend/telemetry/fuel_monitor.py:24-30 | the state afterwards is `Reading` of the state before, and the bound holds |
| FuelMonitoring.FuelMonitor.OnLapComplete | backend/telemetry/fuel_monitor.py:32-48 | the state afterwards is `LapComplete` of the state before, and the bound holds |
| FuelMonitoring.FuelMonitor.AverageConsumption | backend/telemetry/fuel_monitor.py:50-56 | 0 for an empty history; otherwise the average times the count is the total consumption |
| FuelMonitoring.TotalConsumption | backend/telemetry/fuel_monitor.py:55 | the sum of a history's consumptions; `FuelMonitoring.FuelMonitor.AverageConsumption` and `ConsumptionsTelescope` state what it adds up to |
| FuelMonitoring.Capacity | backend/telemetry/fuel_monitor.py:44-45 | the bound the history keeps to (a negative bound keeps nothing); `FuelMonitoring.PushBounded` shows pushes stay within it |
| FuelMonitoring.FuelMonitor.RemainingLaps | backend/telemetry/fuel_monitor.py:58-63 | 0 unless the average is positive; otherwise the estimate times the average is the fuel |
| FuelMonitoring.FuelMonitor.CurrentLapConsumption | backend/telemetry/fuel_monitor.py:71-75 | 0 before any reading; otherwise the consumption plus the last reading is the lap-start fuel |
| FuelMonitoring.FuelMonitor.FuelPercentage | backend/telemetry/fuel_monitor.py:65-69 | 0 for a capacity of 0 or below; otherwise the percentage times the capacity is 100 times the fuel, and it lies between 0 and 100 when the fuel does not exceed the capacity |
| Bytes.LeValue | backend/telemetry/reader.py:38 | `int.from_bytes(b, 'little')` is below 256 to the power of the length |
| Bytes.LeBytes | backend/telemetry/reader.py:42-43 | `to_bytes(n, 'little')` has n bytes |
| Bytes.LeValueOfBytes | backend/telemetry/reader.py:42-43 | decoding an encoded value gives the value back |
| Bytes.LeBytesOfValue | backend/telemetry/reader.py:37-38 | encoding a decoded buffer at its own width gives the bytes back |
| Bytes.Slice | backend/telemetry/reader.py:37 | Python's clamped slice: the exact slice when it fits, and always of the clamped length |
| Bytes.PackInto | backend/tests/test_parser.py:13 | `pack_into` puts the bytes at the offset and leaves every other byte and the length alone |
| Bytes.XorTwice | backend/telemetry/reader.py:39 | xor with the same mask twice gives the value back |
| Bytes.XorBound | backend/telemetry/reader.py:39 | the xor of two n-bit values is an n-bit value |
| Bytes.Xor | backend/telemetry/reader.py:39 | bitwise xor on natural numbers; `Bytes.XorTwice` and `XorBound` constrain it |
| Reader.CipherKey | backend/telemetry/reader.py:33-45 | the Salsa20 key, the first 32 bytes of the key string; `Reader.DecryptPacket` states that every packet is decrypted with it and the packet's own nonce |
| Reader.MaskIv | backend/telemetry/reader.py:39 | masking with 0xDEADBEAF keeps a 32-bit value 32-bit |
| Reader.MaskIvTwice | backend/telemetry/reader.py:39 | masking twice gives the value back |
| Reader.Iv1 | backend/telemetry/reader.py:37-38 | the value of bytes 0x40 to 0x44 (fewer for a short packet) is a 32-bit value |
| Reader.Nonce | backend/telemetry/reader.py:37-43 | an eight-byte nonce whose second half encodes iv1 and whose first half encodes iv1 xor 0xDEADBEAF |
| Reader.NonceCarriesIvBytes | backend/telemetry/reader.py:37-43 | the nonce's second half is the packet's own bytes 0x40 to 0x44, and its first half unmasks to them |
| Reader.DecryptPacket | backend/telemetry/reader.py:31-50 | empty exactly when the decrypted data does not start with the magic number; otherwise the decrypted data, at least four bytes long |
| Reader.MagicNeedsFourBytes | backend/telemetry/reader.py:48 | only a four-byte prefix can equal the magic number |
| Reader.CountStep | backend/telemetry/reader.py:58-72 | a timeout sends a heartbeat and clears the count; a packet increments it, and a 101st packet sends a heartbeat and clears it |
| Reader.Parsed | backend/telemetry/reader.py:65-67 | the packets passed to the parser are non-empty, and there are no more of them than events |
| Reader.CountStaysInInterval | backend/telemetry/reader.py:59-63 | the count stays between 0 and 100 |
| Reader.HeartbeatsAtMostOnePerEvent | backend/telemetry/reader.py:56-72 | over any run the count stays between 0 and 100, and at most one heartbeat is sent per event |
| Reader.FirstHundredPacketsSendNone | backend/telemetry/reader.py:59-63 | from 0, up to 100 packets send no heartbeat and leave the count at the number of packets |
| Reader.HundredAndFirstPacketSendsHeartbeat | backend/telemetry/reader.py:59-63 | from 0, the 101st consecutive packet sends the first heartbeat and clears the count |
| Reader.TimeoutResets | backend/telemetry/reader.py:69-72 | a timeout clears the count and sends exactly one heartbeat |
| Reader.CountAll | backend/telemetry/reader.py:56-72 | the counter after a run of events; `Reader.HeartbeatsAtMostOnePerEvent`, `TimeoutResets` and `TelemetryReader.Stream` state its effect |
| Reader.ParsedPacketsCarryMagic | backend/telemetry/reader.py:48-50 | every packet passed to the parser starts with the magic number |
| Reader.TelemetryReader.constructor | backend/telemetry/reader.py:24 | the packet count starts at 0 and no heartbeat has been sent |
| Reader.TelemetryReader.Stream | backend/telemetry/reader.py:52-72 | after a first heartbeat, the counter follows `CountStep` over the events, and the packets passed on are exactly `Parsed` (the source, whose parser always raises, ends at the first of them; see Left out) |
| Parser.Span | backend/telemetry/parser.py:87-107 | a format's value count is 256 to the power of its size |
| Parser.Unpack | backend/telemetry/parser.py:131-133 | `struct.unpack` succeeds exactly on a buffer of the format's size, with a value the format can hold (the little-endian value for unsigned formats), and otherwise raises with the size it got |
| Parser.Pack | backend/tests/test_parser.py:13 | `struct.pack` gives a buffer of the format's size |
| Parser.UnpackPack | backend/tests/test_parser.py:13 | every value a format holds survives packing and unpacking |
| Parser.PackUnpack | backend/telemetry/parser.py:87-107 | every full buffer survives unpacking and packing |
| Parser.PackOfUnpacked | backend/telemetry/parser.py:87-107 | packing a decoded value gives back the buffer it was decoded from |
| Parser.Field | backend/telemetry/parser.py:19 | a field at an offset decodes exactly when the packet reaches past it, and it packs back to its bytes |
| Parser.FieldValue | backend/telemetry/parser.py:87-107 | a full field's value is one the format can hold |
| Parser.FieldValueBytes | backend/telemetry/parser.py:87-107 | a full field's value packs back to its slice |
| Parser.FieldOfPacked | backend/tests/test_parser.py:13 | a field written with `pack_into` reads back as the value written |
| Parser.FieldOfPackedElsewhere | backend/tests/test_parser.py:26-28 | writing one field leaves every field that does not overlap it as it was |
| Parser.ClampLapTime | backend/telemetry/parser.py:85-86 | `max(v, 0)`: -1 ("no time") becomes 0 and non-negative times are kept |
| Parser.CurrentGear | backend/telemetry/parser.py:103 | the low nibble, between 0 and 15 |
| Parser.SuggestedGear | backend/telemetry/parser.py:104 | the high nibble, between 0 and 15 |
| Parser.GearNibblesSplitByte | backend/telemetry/parser.py:103-104 | the two nibbles recombine to the gear byte and determine it |
| Parser.GearByteExample | backend/tests/test_parser.py:26 | 0x21 is gear 1 with suggested gear 2 |
| Parser.FieldsOf | backend/telemetry/parser.py:40-128 | throttle and brake are bytes, the flags are a 16-bit value, and both lap times are at least 0 |
| Parser.DecodeIntFields | backend/telemetry/parser.py:16-19 | decoding succeeds exactly on bytes reaching offset 0x128; no bytes raises the not-bytes error; a short packet raises at the car id with the length of its slice |
| Parser.DecodedFieldsAreTheBytes | backend/telemetry/parser.py:40-107 | every decoded integer field (packet id, laps, positions, top speed, car id, flags) packs back to the packet's bytes at its offset, both lap times are `max(v, 0)` of the value at theirs, throttle and brake are their bytes, and the gear nibbles rebuild the gear byte |
| Parser.TestPacket | backend/tests/test_parser.py:10-30 | the test packet is 0x128 bytes long |
| Parser.TestPacketDecodes | backend/tests/test_parser.py:39-54 | the test packet decodes packet id 12345, gear 1, suggested gear 2, throttle 128 and brake 0 |
| Parser.ShortPacketsRaise | backend/tests/test_parser.py:57-71 | empty, ten-byte and missing packets raise |
| Parser.TelemetryParser.constructor | backend/telemetry/parser.py:12-14 | a fresh fuel monitor with the default bound, and previous lap 0 |
| Parser.TelemetryParser.ReadFuel | backend/telemetry/parser.py:16-36 | raises, leaving the monitor untouched, exactly when there are no bytes or fewer than 0x128 (the car id at 0x124 cannot be read); otherwise reads fuel and capacity at 0x44 and 0x48 and the lap, feeds the monitor one `Reading`, and returns the monitor's percentage and current-lap consumption |
| CarProcessor.SlugIsClean | backend/telemetry/data/car_processor.py:60-70 | the slug has no spaces, quotes or capital letters |
| CarProcessor.SlugHasNoSpacesOrQuotes | backend/telemetry/data/car_processor.py:70 | the replacement chain removes spaces, single quotes and double quotes |
| CarProcessor.SlugHasNoCapitals | backend/telemetry/data/car_processor.py:60-70 | replacements keep the lowered names lower-case |
| CarProcessor.ImageUrlShape | backend/telemetry/data/car_processor.py:71 | the URL is the fixed prefix, the slug and the fixed suffix, so the slug can be read back |
| CarProcessor.ToLowerTwice | backend/telemetry/data/car_processor.py:60-61 | lowering twice is lowering once |
| CarProcessor.UrlIgnoresCase | backend/telemetry/data/car_processor.py:54-71 | the URL does not depend on the letter case of either name |
| CarProcessor.TripleHyphenLeavesDouble | backend/telemetry/data/car_processor.py:70 | one pass of the "--" replacement turns "a---b" into "a--b" |
| CarProcessor.UrlBase | backend/telemetry/data/car_processor.py:60-67 | the lowered model alone when it contains the lowered maker, else maker-model; `CarProcessor.UrlIgnoresCase` constrains it |
| CarProcessor.Slug | backend/telemetry/data/car_processor.py:60-70 | the four replacements over the base; `CarProcessor.SlugIsClean`, `SlugHasNoSpacesOrQuotes`, `SlugHasNoCapitals` and `TripleHyphenLeavesDouble` constrain it |
| CarProcessor.GenerateImageUrl | backend/telemetry/data/car_processor.py:54-71 | `_generate_image_url`; `CarProcessor.ImageUrlShape` and `UrlIgnoresCase` constrain it |
| CarProcessor.MakerName | backend/telemetry/data/car_processor.py:41 | the maker lookup with the "Unknown" default; `CarProcessor.CarOf` states that each car entry carries it and `LastMakerRowWins` states what the loaded table holds |
| CarProcessor.CarOf | backend/telemetry/data/car_processor.py:38-52 | the entry carries the row's id, name and maker id, the looked-up maker name and the URL built from those names |
| CarProcessor.CarsOf | backend/telemetry/data/car_processor.py:37-52 | one entry per row, in row order |
| CarProcessor.CarsOfPrefix | backend/telemetry/data/car_processor.py:37-52 | the entries of a prefix of the rows are a prefix of the entries |
| CarProcessor.LoadCarsStep | backend/telemetry/data/car_processor.py:46-52 | loading one more row stores its entry over the table so far |
| CarProcessor.StoredCarIds | backend/telemetry/data/car_processor.py:46-52 | an id is stored afterwards exactly when it was before or some entry has it |
| CarProcessor.LastEntryWins | backend/telemetry/data/car_processor.py:46-52 | the last entry with an id is the one stored under it |
| CarProcessor.UnstoredCarKept | backend/telemetry/data/car_processor.py:46-52 | an id no entry has keeps its old entry |
| CarProcessor.LoadedCarIds | backend/telemetry/data/car_processor.py:37-52 | the car table holds exactly the old ids and the ids of the rows |
| CarProcessor.LastCarRowWins | backend/telemetry/data/car_processor.py:37-52 | a later row with the same car id replaces an earlier one |
| CarProcessor.UnnamedCarKept | backend/telemetry/data/car_processor.py:37-52 | an entry no row names is kept |
| CarProcessor.LastMakerRowWins | backend/telemetry/data/car_processor.py:32-33 | the maker table holds exactly the old ids and the row ids, the last row with an id wins, and other entries are kept |
| CarProcessor.LoadMakers | backend/telemetry/data/car_processor.py:32-33 | the maker table after the rows; `CarProcessor.LastMakerRowWins` constrains it |
| CarProcessor.LoadCars | backend/telemetry/data/car_processor.py:37-52 | the car table after the rows; `CarProcessor.LoadCarsStep`, `LoadedCarIds`, `LastCarRowWins` and `UnnamedCarKept` constrain it |
| CarProcessor.CarDataProcessor.constructor | backend/telemetry/data/car_processor.py:20-23 | both tables start empty and are filled from the rows |
| CarProcessor.CarDataProcessor.LoadData | backend/telemetry/data/car_processor.py:25-52 | the maker table is loaded first; the car table is then loaded using the maker table as it stands after loading |
| CarProcessor.CarDataProcessor.LoadMakerRows | backend/telemetry/data/car_processor.py:32-33 | the maker table afterwards stores each row in turn |
| CarProcessor.CarDataProcessor.LoadCarRows | backend/telemetry/data/car_processor.py:37-52 | the car table afterwards stores each row's entry in turn |
| Text.NatToString | frontend/src/lib/utils.ts:22 | decimal digits without a leading zero, one digit exactly below 10 |
| Text.IntToString | frontend/src/components/telemetry/CompactDisplay.tsx:363 | digits with a leading '-' exactly for negatives |
| Text.IntToStringInjective | frontend/src/components/telemetry/CompactDisplay.tsx:363 | different integers render differently |
| Text.IntToStringIsNoLabel | frontend/src/components/telemetry/CompactDisplay.tsx:363 | a rendering holds no '/' and is never "--", so the labels built from renderings can be split back |
| Text.NatToStringRoundTrip | frontend/src/lib/utils.ts:22 | reading the digits back gives the number |
| Text.PadStart | frontend/src/lib/utils.ts:22 | `padStart`: the width or the string's own length, with the string at the end |
| Text.ZeroPadValue | frontend/src/lib/utils.ts:22 | zero padding keeps a digit string's value |
| Text.LowerChar | backend/telemetry/data/car_processor.py:60-61 | ASCII lower-casing of one character; `Text.ToLower`, `CarProcessor.ToLowerTwice` and `SlugHasNoCapitals` state what it gives a whole name |
| Text.ToLower | backend/telemetry/data/car_processor.py:60-61 | `lower()` character by character, leaving no capital letters |
| Text.ContainsIffOccurrence | backend/telemetry/data/car_processor.py:64 | `in` holds exactly when the needle occurs at some index |
| Text.Contains | backend/telemetry/data/car_processor.py:64 | Python `in` on strings; `Text.ContainsIffOccurrence` states that it holds exactly when the needle occurs at some index |
| Text.ReplaceKeepsAlphabet | backend/telemetry/data/car_processor.py:70 | `replace` introduces no character that was in neither the input nor the replacement |
| Text.ReplaceRemovesChar | backend/telemetry/data/car_processor.py:70 | replacing a character by a string without it removes it |
| Text.ReplaceKeepsNoUpper | backend/telemetry/data/car_processor.py:70 | a lower-case replacement keeps a lower-case string lower-case |
| Text.Replace | backend/telemetry/data/car_processor.py:70 | Python `str.replace`, one left-to-right pass; `Text.ReplaceKeepsAlphabet`, `ReplaceRemovesChar`, `ReplaceKeepsNoUpper` and `CarProcessor.TripleHyphenLeavesDouble` constrain it |
| Validators.LeadingSpaces | backend/app_config/validators.py:20 | the number of leading whitespace characters: all of them are whitespace and the next one is not |
| Validators.TrailingSpaces | backend/app_config/validators.py:20 | the same at the end |
| Validators.Strip | backend/app_config/validators.py:20 | `strip()`: the middle of the string, with nothing but whitespace cut off either side and no whitespace at either end |
| Validators.StripFindsMiddle | backend/app_config/validators.py:20 | the stripped string is the part between the leading and the trailing whitespace |
| Validators.StripIdempotent | backend/app_config/validators.py:20 | stripping twice is stripping once |
| Validators.IsSpace | backend/app_config/validators.py:20 | the ASCII whitespace `strip()` removes; `Validators.Strip`, `StripFindsMiddle` and `StripIdempotent` state what removing it gives |
| Validators.StripRemovesPadding | backend/app_config/validators.py:20 | whitespace put around a string with no whitespace at either end is what `strip` removes |
| Validators.DigitRun | backend/app_config/validators.py:23 | the longest prefix of digits |
| Validators.StrippedMatchesExactly | backend/app_config/validators.py:20-23 | on a stripped string, the `$` that also matches before a final newline reduces to the end of the string |
| Validators.MatchesPattern | backend/app_config/validators.py:23 | `re.match` of the pattern, with `$` also matching before a final newline; `Validators.StrippedMatchesExactly` and `MatchGroupsIffSplit` constrain it |
| Validators.SplitJoin | backend/app_config/validators.py:9 | joining the split parts gives the string back |
| Validators.Join | backend/app_config/validators.py:9 | the parts put back together with dots; `Validators.SplitJoin` and `SplitOfJoin` make it the inverse of `Split` |
| Validators.SplitOfJoin | backend/app_config/validators.py:9 | splitting joined parts that contain no separator gives the parts back |
| Validators.Split | backend/app_config/validators.py:9 | splitting at dots, as `inet_pton` reads the parts; `Validators.SplitJoin` and `SplitOfJoin` constrain it |
| Validators.IsOctet | backend/app_config/validators.py:9 | one to three digits, no leading zero, at most 255; `Validators.ValidIffPatternAndOctets` and `RefusesLeadingZero` constrain it |
| Validators.IsValidIp | backend/app_config/validators.py:6-12 | `is_valid_ip`: four parts, each an octet; `Validators.ValidIffPatternAndOctets` and the accepting and refusing examples constrain it |
| Validators.MatchGroupsIffSplit | backend/app_config/validators.py:23 | the pattern `(\d{1,3}\.){3}\d{1,3}` matches exactly when the string splits at dots into four groups of one to three digits |
| Validators.MatchGroups | backend/app_config/validators.py:23 | the pattern `(\d{1,3}\.){k}\d{1,3}` against the whole string; `Validators.MatchGroupsIffSplit` characterises it by the split parts |
| Validators.ValidatePsIp | backend/app_config/validators.py:15-30 | the required error exactly for a missing or empty value; the format error exactly when the stripped value fails the pattern; the address error exactly when it matches but is not an address; otherwise the stripped value |
| Validators.ValidIffPatternAndOctets | backend/app_config/validators.py:6-12 | an address is exactly a pattern match whose four parts are each at most 255 and have no leading zero |
| Validators.InvalidAddressMeansBadOctet | backend/app_config/validators.py:27-28 | the address error means four digit groups, one of them above 255 or with a leading zero |
| Validators.ValidationIsIdempotent | backend/app_config/validators.py:15-30 | a validated address validates to itself |
| Validators.Accepts192 | backend/tests/test_validators.py:8 | "192.168.1.1" is an address |
| Validators.Accepts10 | backend/tests/test_validators.py:9 | "10.0.0.1" is an address |
| Validators.Accepts172 | backend/tests/test_validators.py:10 | "172.16.254.1" is an address |
| Validators.RefusesFirstPartAbove255 | backend/tests/test_validators.py:13 | "256.1.2.3" is not an address |
| Validators.RefusesLastPartAbove255 | backend/tests/test_validators.py:14 | "1.2.3.256" is not an address |
| Validators.RefusesThreeParts | backend/tests/test_validators.py:15 | "192.168.1" is not an address and fails the pattern |
| Validators.RefusesFiveParts | backend/tests/test_validators.py:16 | "192.168.1.1.1" is not an address and fails the pattern |
| Validators.RefusesLetterPart | backend/tests/test_validators.py:17 | "192.168.1.a" is not an address |
| Validators.RefusesLeadingZero | backend/app_config/validators.py:6-12 | "192.168.01.1" matches the pattern but is not an address |
| Validators.ValidateByStripped | backend/app_config/validators.py:20-30 | the outcome of validating a non-empty value depends only on its stripped form |
| Validators.MatchedIsStripped | backend/app_config/validators.py:20-23 | a string the pattern matches has nothing to strip |
| Validators.ValidationReturnsAddress | backend/tests/test_validators.py:23 | "192.168.1.1" validates to itself |
| Validators.ValidationStripsAddress | backend/tests/test_validators.py:24 | "  192.168.1.1  " validates to "192.168.1.1" |
| Validators.ValidationRequiresValue | backend/tests/test_validators.py:27-37 | "" and None raise the required error |
| Validators.ValidationRefusesWord | backend/tests/test_validators.py:30-31 | "invalid" raises the format error |
| Validators.ValidationRefusesPartCount | backend/tests/test_validators.py:40-43 | three and five parts raise the format error |
| Validators.ValidationRefusesAddress | backend/tests/test_validators.py:33-34 | "256.256.256.256" matches the pattern but raises the address error |

## Left out

- React's effect scheduling and `requestAnimationFrame`.
  - A render is modelled as the effects run in declaration order, and a frame as one explicit call.
  - Skipping an effect whose dependencies did not change is covered by lemmas that show running it anyway would change nothing.
  - Cancelling a frame callback is modelled as an optional loop value.
- `Date.now()` is a parameter `now` of every render and frame.
- Floating point is modelled as mathematical reals.
  - No IEEE rounding, NaN or infinity.
  - `!ms` in `formatLapTime` therefore only rejects 0.
  - `toFixed(3)` is modelled as rounding halves upward on exact rationals.
- LapTimeFormat.FormatLapTime: the `--:--` case and the string's shape are exact. For whole-millisecond times the digits are proved to read back to the time. For fractional times the digits are those of the rational rounding, which can differ from binary floating point in the last digit.
- The success path of `TelemetryParser.parse` after the fuel monitor is not modelled: the position, speed, tyre and gear-ratio floats, the `TelemetryPacket` record and pydantic's validation are left out.
  - The integer fields it reads are in `DecodeIntFields`.
  - `rpm_flashing` and `rpm_hit` unpack a float from two-byte slices (backend/telemetry/parser.py:93-94). As written, this raises on every packet.
- `struct.unpack` without a byte-order prefix uses the host's native order and alignment. The model fixes it to little-endian, the order of the hosts the backend runs on.
- Parser.TelemetryParser.ReadFuel and Parser.DecodeIntFields decode floating-point fields with a caller-supplied function `floatAt`; the IEEE-754 single decoding is not modelled.
- `car_processor.get_car_info` and the car lookup inside `parse` are not modelled.
- Salsa20 is a caller-supplied function `Cipher`. Its own correctness is not modelled.
- Socket I/O is replaced by a finite sequence of receive events: the UDP socket, `sendto`, the 10-second timeout and the async generator.
  - Heartbeats are counted, not sent.
  - The generic exception handler that logs and re-raises is left out.
- Reader.TelemetryReader.Stream: parsing each decrypted packet is not modelled; the stream returns the decrypted packets it would hand to the parser. As written, `parse` raises on every packet (the two-byte float slices at backend/telemetry/parser.py:93-94), the stream logs and re-raises (backend/telemetry/reader.py:73-75) and the caller closes the connection (backend/main.py:38-43). So the source stops at the first packet it hands to the parser. The model does not stop there: it goes on counting events and collecting packets, as a stream with a working parser would.
- The CSV files are given as already-converted rows; opening and reading them, and the `int()` conversions, are left out.
- The logger calls are left out, as is the commented-out console output.
- `datetime.now()` in `on_lap_complete` is the parameter `now`.
- Text.ToLower, Validators.Strip and Validators.DigitRun cover ASCII only: `lower()` on letters A-Z, `strip()` on ASCII whitespace, `\d` on 0-9. Python's Unicode versions of these are not modelled.
- Validators.IsValidIp follows the C library's `inet_pton` for IPv4: four decimal parts of one to three digits, each at most 255, with no leading zero. Platform differences in `inet_pton` are not modelled.
- The source's `isinstance(ip, str)` check is covered by the `Option<string>` parameter: a value that is not a string is not representable.
- `xor` is computed bit by bit on natural numbers, not with machine words.
- The rendering of the three dashboards is left out, except the lap label, the position label, the suggested gear, the trial flag and the laps estimate: JSX, themes, the speed-unit toggle and the charts, as is `TelemetryDisplay`, which only chooses a component.
- backend/data/processors/car_processor.py is an older copy of the car processor and is not part of this model.
- No sub-module of the mock telemetry or the developer controls is part of this model; they only generate test data in the browser.
