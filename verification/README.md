# V2X congestion control: statistics and RSU decision logic in Dafny

This project models two pieces of a vehicular broadcast scenario written for the
ns-3 network simulator. In the scenario, one roadside unit (RSU) talks to 100
on-board units (OBUs).

1. **`WavePvdStats`**, the per-slot packet-delivery statistics object of the
   WAVE helper. It holds four 10-entry vectors and three scalar counters. The
   vectors are windowed expected, windowed in-range, cumulative expected and
   cumulative in-range receptions. The scalars count packets sent, bytes sent
   and packets received. It also derives a windowed and a cumulative packet
   delivery ratio (PDR), clamped at 1. It is modelled as an immutable record
   (`PvdStats.Stats`) with pure update functions. Slots are addressed 1-based,
   as in the source.
2. **The decision logic of the scenario script**. This has four parts:
   - the CBR-to-rate/ITT table (`RateTable`). CBR is the channel busy ratio,
     ITT the inter-transmission time;
   - the per-BSM bookkeeping of the RSU (`RsuReceive`). A BSM is a basic
     safety message;
   - the `rep_num` catch-up loop that opens new one-second rounds
     (`RsuReceive.CatchUpLoop`);
   - the self-rescheduling send/close countdowns of the two traffic
     generators (`Traffic`).

Modules: `PvdStats` (wave-pvd-stats.cc), and `RateTable`, `RsuReceive` and
`Traffic` (scratch/make_csv.cc).

Modelling choices:
- Counters are unbounded `int`s, and PDRs, times and CBR are `real`s.
- Simulated time in `Traffic` is an integer tick count.
- The event scheduler is not modelled. A call that reschedules itself after
  `pktInterval` becomes the next step of a trace, placed `pktInterval` ticks
  later.
- The scenario's global variables (the `RSU` struct, the rate string `b` and
  `ITT`) become one record, `RsuReceive.Scenario`.
- The time of a reception and the value of `b` at each send are parameters.

Two points about the source that shape the model:
- Out-of-range slot indices are excluded by `requires 1 <= index <= 10`; the
  source does no bounds check.
- The reset zeroes the cumulative counters and keeps the windowed ones, as the
  source does.

## Model

| member | source | states |
|---|---|---|
| PvdStats.New | src/wave/helper/wave-pvd-stats.cc:31-41 | a new object has four slot vectors of exactly 10 entries, all 0, and zero send, byte and receive counters |
| PvdStats.IncTxPktCount | src/wave/helper/wave-pvd-stats.cc:55-59 | the sent-packet count read back rises by exactly 1; every other field is unchanged |
| PvdStats.IncRxPktCount | src/wave/helper/wave-pvd-stats.cc:74-78 | the received-packet count read back rises by exactly 1; every other field is unchanged |
| PvdStats.IncTxByteCount | src/wave/helper/wave-pvd-stats.cc:117-121 | the byte count read back changes by exactly the argument; every other field is unchanged |
| PvdStats.GetTxPktCount | src/wave/helper/wave-pvd-stats.cc:61-65 | the value read is the stored sent-packet count: setting it back leaves the object unchanged |
| PvdStats.GetRxPktCount | src/wave/helper/wave-pvd-stats.cc:87-91 | the value read is the stored received-packet count: setting it back leaves the object unchanged |
| PvdStats.GetTxByteCount | src/wave/helper/wave-pvd-stats.cc:123-127 | the value read is the stored byte count: an increment by b then leaves exactly that value plus b |
| PvdStats.GetExpectedRxPktCount | src/wave/helper/wave-pvd-stats.cc:93-97 | the value read is the windowed expected count of the 1-based slot: setting it back leaves the object unchanged |
| PvdStats.GetRxPktInRangeCount | src/wave/helper/wave-pvd-stats.cc:99-103 | the value read is the windowed in-range count of the 1-based slot: setting it back leaves the object unchanged |
| PvdStats.SetTxPktCount | src/wave/helper/wave-pvd-stats.cc:105-109 | the sent-packet count then reads back the value set; nothing else changes |
| PvdStats.SetRxPktCount | src/wave/helper/wave-pvd-stats.cc:111-115 | the received-packet count then reads back the value set; nothing else changes |
| PvdStats.IncExpectedRxPktCount | src/wave/helper/wave-pvd-stats.cc:67-72 | windowed and cumulative expected counts at the slot rise by exactly 1; other slots, both in-range vectors and all scalars are unchanged |
| PvdStats.IncRxPktInRangeCount | src/wave/helper/wave-pvd-stats.cc:80-85 | windowed and cumulative in-range counts at the slot rise by exactly 1; everything else is unchanged |
| PvdStats.SetExpectedRxPktCount | src/wave/helper/wave-pvd-stats.cc:183-187 | only the windowed expected entry at the slot is overwritten, the cumulative vector is untouched, and the entry then holds the value set |
| PvdStats.SetRxPktInRangeCount | src/wave/helper/wave-pvd-stats.cc:189-193 | only the windowed in-range entry at the slot is overwritten, the cumulative vector is untouched, and the entry then holds the value set |
| PvdStats.ResetTotalRxPktCounts | src/wave/helper/wave-pvd-stats.cc:195-200 | exactly the two cumulative counters of the slot become 0; the windowed counters and all other slots are kept |
| PvdStats.ClampedRatio | src/wave/helper/wave-pvd-stats.cc:129-148 | the ratio is 0 for a non-positive denominator, the exact quotient while it is at most 1, and 1 above; it never exceeds 1 and is non-negative for a non-negative numerator |
| PvdStats.GetPvdPdr | src/wave/helper/wave-pvd-stats.cc:129-148 | the windowed PDR is 0 when nothing is expected, in/expected when that is at most 1, and 1 otherwise; it lies in [0,1] for a non-negative in-range count |
| PvdStats.GetCumulativePvdPdr | src/wave/helper/wave-pvd-stats.cc:150-169 | the same rule applied to the cumulative counters |
| PvdStats.DeliveryRatioUnique | src/wave/helper/wave-pvd-stats.cc:129-148 | the three cases of the PDR rule determine the PDR uniquely |
| PvdStats.ResetTotalsEffect | src/wave/helper/wave-pvd-stats.cc:195-200 | after a reset the cumulative PDR is 0, the windowed PDR and expected count are unchanged, and a second reset changes nothing |
| PvdStats.InRangeNeverLowersPdr | src/wave/helper/wave-pvd-stats.cc:129-148 | one more in-range reception never lowers the windowed PDR |
| PvdStats.ExpectedNeverRaisesPdr | src/wave/helper/wave-pvd-stats.cc:129-148 | once something is expected and the in-range count is non-negative, one more expected reception never raises the windowed PDR |
| PvdStats.InSyncPreserved | src/wave/helper/wave-pvd-stats.cc:67-85 | a new object has equal windowed and cumulative vectors, both increments keep them equal, and then both PDRs agree |
| PvdStats.Apply | src/wave/helper/wave-pvd-stats.cc:55-200 | every mutator keeps all four slot vectors at 10 entries |
| PvdStats.Replay | src/wave/helper/wave-pvd-stats.cc:55-200 | any sequence of mutators keeps all four slot vectors at 10 entries |
| PvdStats.ApplyCounts | src/wave/helper/wave-pvd-stats.cc:67-85 | one mutator that does not overwrite or reset a slot raises its four counters by the increments it addresses to that slot |
| PvdStats.ReplayCounts | src/wave/helper/wave-pvd-stats.cc:67-85 | while a slot is never overwritten or reset, each of its four counters grows by exactly the number of increments addressed to it |
| PvdStats.FreshSlotPdrEqualsCumulative | src/wave/helper/wave-pvd-stats.cc:129-169 | from a new object, a slot never overwritten or reset reports equal windowed and cumulative PDR |
| PvdStats.SevenOfTenScenario | src/wave/helper/wave-pvd-stats.cc:129-148 | from a new object, any trace with 10 expected and 7 in-range increments at slot 1 gives PDR 0.7, and a reset then gives cumulative PDR 0 while the expected count stays 10 |
| PvdStats.ReplayKeepsNonNegative | src/wave/helper/wave-pvd-stats.cc:67-200 | mutators that write no negative slot value keep every slot counter non-negative |
| PvdStats.PdrWithinUnitInterval | src/wave/helper/wave-pvd-stats.cc:129-169 | from a new object, under such mutators, both PDRs of every slot stay in [0,1] |
| RateTable.Cbr | scratch/make_csv.cc:155-156 | the CBR is 1000 times the elapsed round time in seconds (a / 0.1 * 100), positive exactly when that time is |
| RateTable.FirstMatch | scratch/make_csv.cc:168-222 | the if/else chain picks the first branch whose condition holds; no earlier branch holds |
| RateTable.Lookup | scratch/make_csv.cc:168-222 | the chain selects the setting of a branch whose condition holds, and selects nothing only when no condition holds |
| RateTable.NextSetting | scratch/make_csv.cc:168-222 | at 0 and at the boundaries 60, 70, ..., 150 the previous rate and ITT are kept; elsewhere the result is the table's entry for the interval |
| RateTable.BranchesDisjoint | scratch/make_csv.cc:168-222 | no two branch conditions of the chain hold for the same CBR |
| RateTable.OrderIrrelevant | scratch/make_csv.cc:168-222 | whichever branch condition holds is the branch selected, so the order of the chain does not matter |
| RateTable.LookupMatchesTable | scratch/make_csv.cc:168-222 | the chain agrees with the ascending open-interval table, from (0,60) giving 20Kb/s and 0.080 up to above 150 giving 9Kb/s and 0.160 |
| RateTable.NoneAtBoundary | scratch/make_csv.cc:168-222 | at 0 and at every interval boundary the chain selects nothing |
| RateTable.BandMonotone | scratch/make_csv.cc:168-222 | a larger CBR that selects a branch never falls into a lower interval of the table |
| RateTable.SettingsIttSorted | scratch/make_csv.cc:168-222 | the table's ITTs grow from 0.080 to 0.160 along the intervals |
| RateTable.NoBranchExactlyAtBoundaries | scratch/make_csv.cc:168-222 | no branch fires if and only if the CBR is 0, 60, 70, 80, 90, 100, 110, 120, 130, 140 or 150 |
| RateTable.IttMonotone | scratch/make_csv.cc:168-222 | for two CBRs that both select a branch, the busier channel never gets a shorter ITT |
| RsuReceive.Initial | scratch/make_csv.cc:67-72 | the RSU record starts with num and rep_num 0, and the rate string and ITT start empty and 0 |
| RsuReceive.Elapsed | scratch/make_csv.cc:227-235 | K, the number of the first n rounds whose start (second 1+i) has passed, is at most n, 0 up to second 1, and n once second n has passed |
| RsuReceive.ElapsedIsPrefix | scratch/make_csv.cc:227-235 | the rounds whose start (second 1+i) has passed are exactly the first K of them |
| RsuReceive.CatchUp | scratch/make_csv.cc:227-235 | rep_num becomes max(old rep_num, K) and never decreases; num becomes 1 and prev_time becomes now exactly when rep_num increased, and otherwise nothing changes |
| RsuReceive.CatchUpLoop | scratch/make_csv.cc:227-235 | the loop over i in [0,40), which may advance rep_num several times in one pass, computes exactly the closed form |
| RsuReceive.CountBsm | scratch/make_csv.cc:146-226 | before the catch-up loop, each BSM raises num by exactly 1; prev_time is stamped only when num was 0; the rate table runs and time is stamped only when num was OBU_NODE-1 |
| RsuReceive.OnBsm | scratch/make_csv.cc:142-236 | rep_num becomes max(old rep_num, K); when it rises, num is 1 and prev_time is now; otherwise num rises by exactly 1 and prev_time changes only at the very first BSM; the rate table runs and time is stamped only when num was OBU_NODE-1, keeping the old rate at the boundary CBRs |
| RsuReceive.ReceiveAll | scratch/make_csv.cc:142-236 | over a sequence of BSMs rep_num never decreases and stays within [0,40] |
| RsuReceive.ReceiveAllCatchesUp | scratch/make_csv.cc:227-235 | after a sequence of BSMs, rep_num covers every round started by the time of any one of them |
| RsuReceive.CatchUpIdempotent | scratch/make_csv.cc:227-235 | running the catch-up a second time at the same instant changes nothing |
| Traffic.GenerateTrafficPvd | scratch/make_csv.cc:238-251 | started with pktCount n, it sends the packet n times at now + k*interval and then closes once at now + n*interval; pktCount strictly decreases |
| Traffic.GenerateTraffic | scratch/make_csv.cc:252-285 | the same countdown, with each send carrying the rate string as it is at that send's time |
| Traffic.SendsOfWellFormedRun | scratch/make_csv.cc:238-285 | a run of sends closed by one close holds one send per step before the close |
| Traffic.ExactlyNSendsThenClose | scratch/make_csv.cc:238-285 | both generators perform exactly n sends, then exactly one close as the last step |
| Traffic.SameSchedule | scratch/make_csv.cc:238-285 | both generators follow the same timing; they differ only in what each send carries |
| Traffic.StepsOneIntervalApart | scratch/make_csv.cc:238-251 | consecutive steps are exactly one pktInterval apart |

## Left out

- The ns-3 event scheduler (`Simulator::Schedule`, `ScheduleWithContext`, `Run`, `Destroy`) is not part of this model. Event ordering, contexts and cancellation are not modelled. Rescheduling after `pktInterval` is abstracted as the next step of a trace.
- Traffic.GenerateTrafficPvd, Traffic.GenerateTraffic: `pktInterval` is a non-negative tick count. Negative delays are rejected inside the scheduler, which is not part of this model.
- Sockets, packets and callbacks are external I/O and are not modelled. This covers `Recv`, `Send`, `Close`, `ReceivePacket_PVD`, `ReceivePacket_From_WSA` and the broadcast setup.
- RsuReceive.OnBsm models the handling of one received BSM. The `while (socket->Recv ())` loop becomes `RsuReceive.ReceiveAll` over the reception times.
- CSV writes, `printf`/`cout` logging and pcap/ascii/NetAnim tracing are file output and are not modelled. The global `a` only feeds the CBR and that output, so it is not kept as state.
- The topology, wifi/CSMA/mobility/IP setup, command-line parsing and start times in `main` are not modelled. They are configuration glue over helpers that are not part of this model.
- The byte copies are not modelled. Line 223 builds `packet_0` from 200 bytes at `&b`, and `GenerateTraffic` copies `b` into a 7-byte buffer. This is memory layout, much of it undefined behaviour. A send of `GenerateTraffic` carries the rate string itself.
- Floating-point rounding is not modelled. The source uses `float` for times and CBR, `float` ITT literals and `double` PDR divisions; the model uses exact reals.
- PvdStats: the source's counters are 32-bit `int`s, where overflow is undefined behaviour. The model's counters are unbounded and do not wrap.
- PvdStats: slot indices outside 1..10 are out-of-bounds vector accesses in the source, with undefined behaviour. They are excluded by a precondition.
- `SetLogging`, `GetLogging` and `GetTypeId` are not modelled: they are a trivial flag and framework type registration.
