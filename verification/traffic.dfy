/**
  The self-rescheduling traffic generators of the scenario, `GenerateTraffic`
  (the RSU's service advertisements) and `GenerateTraffic_PVD` (the OBUs'
  probe-vehicle data).

  Each invocation with `pktCount > 0` sends one packet and asks the event
  scheduler to invoke it again after `pktInterval` with `pktCount - 1`; with
  `pktCount == 0` it closes the socket. The scheduler itself is not modelled:
  "again after `pktInterval`" becomes the next step of a trace whose time is
  `pktInterval` later. Times are integer ticks, like the simulator's `Time`.
 */
module Traffic {

  /** `pktCount` is an unsigned 32-bit integer in the source. */
  type Count = n: int | 0 <= n < 0x1_0000_0000

  /** One observable socket action, at simulated time `at`. */
  datatype Step<P> = Send(at: int, packet: P) | Close(at: int)

  /** `GenerateTraffic_PVD`: sends the given packet `pktCount` times, one
      `interval` apart starting at `now`, then closes the socket. */
  function GenerateTrafficPvd<P>(packet: P, pktCount: Count, interval: nat, now: int): (trace: seq<Step<P>>)
    ensures |trace| == pktCount + 1
    ensures forall k :: 0 <= k < pktCount ==> trace[k] == Send(StepTime(now, interval, k), packet)
    ensures trace[pktCount] == Close(StepTime(now, interval, pktCount))
    decreases pktCount
  {
    if pktCount > 0 then
      var rest := GenerateTrafficPvd(packet, pktCount - 1, interval, now + interval);
      ShiftByOneInterval(now, interval);
      [Send(now, packet)] + rest
    else
      [Close(now)]
  }

  /** `GenerateTraffic`: the same countdown, but every send builds a fresh
      packet from the rate string `b` as it is at that moment; `rateAt(t)` is
      the value of `b` at time `t` (the reception handler may change it
      between two sends). */
  function GenerateTraffic(rateAt: int -> string, pktCount: Count, interval: nat, now: int): (trace: seq<Step<string>>)
    ensures |trace| == pktCount + 1
    ensures forall k :: 0 <= k < pktCount ==>
              trace[k] == Send(StepTime(now, interval, k), rateAt(StepTime(now, interval, k)))
    ensures trace[pktCount] == Close(StepTime(now, interval, pktCount))
    decreases pktCount
  {
    if pktCount > 0 then
      var rest := GenerateTraffic(rateAt, pktCount - 1, interval, now + interval);
      ShiftByOneInterval(now, interval);
      [Send(now, rateAt(now))] + rest
    else
      [Close(now)]
  }

  /** Time of the `k`-th step of a countdown started at `now`. */
  function StepTime(now: int, interval: nat, k: int): int {
    now + k * interval
  }

  /** Starting one interval later shifts every step time down one index. */
  lemma ShiftByOneInterval(now: int, interval: nat)
    ensures forall k :: StepTime(now + interval, interval, k - 1) == StepTime(now, interval, k)
  {
    forall k ensures StepTime(now + interval, interval, k - 1) == StepTime(now, interval, k) {
      assert (k - 1) * interval == k * interval - interval;
    }
  }

  /** The times of the steps of a trace. */
  function Times<P>(trace: seq<Step<P>>): (ts: seq<int>)
    ensures |ts| == |trace|
    ensures forall k :: 0 <= k < |trace| ==> ts[k] == trace[k].at
  {
    seq(|trace|, k requires 0 <= k < |trace| => trace[k].at)
  }

  /** Number of sends in a trace. */
  function Sends<P>(trace: seq<Step<P>>): nat {
    if |trace| == 0 then 0
    else (if trace[0].Send? then 1 else 0) + Sends(trace[1..])
  }

  /** A well-formed run: sends only, then exactly one close, as the last step. */
  predicate SendsThenClose<P>(trace: seq<Step<P>>) {
    && |trace| > 0
    && trace[|trace| - 1].Close?
    && forall k :: 0 <= k < |trace| - 1 ==> trace[k].Send?
  }

  /** A well-formed run holds one send per step before the close. */
  lemma {:induction false} SendsOfWellFormedRun<P>(trace: seq<Step<P>>)
    requires SendsThenClose(trace)
    ensures Sends(trace) == |trace| - 1
    decreases |trace|
  {
    if |trace| > 1 {
      assert trace[0].Send?;
      var rest := trace[1..];
      assert rest[|rest| - 1] == trace[|trace| - 1];
      assert forall k :: 0 <= k < |rest| - 1 ==> rest[k] == trace[k + 1];
      SendsOfWellFormedRun(rest);
    }
  }

  /** Both generators started with `pktCount == n` perform exactly `n` sends
      and then one close. */
  lemma ExactlyNSendsThenClose<P>(packet: P, rateAt: int -> string, n: Count, interval: nat, now: int)
    ensures SendsThenClose(GenerateTrafficPvd(packet, n, interval, now))
    ensures Sends(GenerateTrafficPvd(packet, n, interval, now)) == n
    ensures SendsThenClose(GenerateTraffic(rateAt, n, interval, now))
    ensures Sends(GenerateTraffic(rateAt, n, interval, now)) == n
  {
    SendsOfWellFormedRun(GenerateTrafficPvd(packet, n, interval, now));
    SendsOfWellFormedRun(GenerateTraffic(rateAt, n, interval, now));
  }

  /** The two generators follow the same schedule: they differ only in what
      each send carries. */
  lemma SameSchedule<P>(packet: P, rateAt: int -> string, n: Count, interval: nat, now: int)
    ensures Times(GenerateTrafficPvd(packet, n, interval, now)) == Times(GenerateTraffic(rateAt, n, interval, now))
  {
  }

  /** Consecutive steps are exactly one interval apart, so with a positive
      interval the run moves strictly forward in time. */
  lemma StepsOneIntervalApart<P>(packet: P, n: Count, interval: nat, now: int, k: nat)
    requires k < n
    ensures GenerateTrafficPvd(packet, n, interval, now)[k + 1].at
            == GenerateTrafficPvd(packet, n, interval, now)[k].at + interval
  {
  }
}
