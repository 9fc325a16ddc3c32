/**
  The roadside unit's handling of one received basic safety message (BSM),
  `ReceivePacket_BSM` of the scenario.

  The RSU counts BSMs in `num`. The very first BSM of the run (`num == 0`)
  stamps `prevTime`; every later round is stamped by the catch-up loop below,
  which restarts `num` at 1 rather than 0. The BSM that brings the count to `ObuNode` (`num == ObuNode - 1`
  before it) stamps `time`, turns the elapsed time into a channel busy ratio
  and applies the rate table. Then `num` is incremented. A catch-up loop over
  the rounds `i` in `[0, SimulationTimeTotal)` finally opens a new round --
  `num := 1`, `prevTime := now`, `repNum += 1` -- for every round whose start
  (second `1 + i`) has passed and whose number is the current `repNum`.

  The scenario keeps these values in globals; here they are one record. Times
  are single-precision floats in the source and reals here.
 */
module RsuReceive {
  import opened RateTable

  /** Number of on-board units that send BSMs to the RSU. */
  const ObuNode: int := 100

  /** Number of one-second rounds in the simulation. */
  const SimulationTimeTotal: nat := 40

  /** The `RSU` struct of the scenario. */
  datatype Rsu = Rsu(time: real, prevTime: real, num: int, repNum: int)

  /** The state a BSM reception reads and writes: the RSU record plus the
      globals `b` and `ITT` chosen by the rate table. */
  datatype Scenario = Scenario(rsu: Rsu, setting: Setting)

  /** Zero-initialised globals: all RSU fields 0, `b` empty, `ITT` 0. */
  function Initial(): (st: Scenario)
    ensures st.rsu.num == 0 && st.rsu.repNum == 0
    ensures st.setting.rate == [] && st.setting.itt == 0.0
  {
    Scenario(Rsu(0.0, 0.0, 0, 0), Setting("", 0.0))
  }

  function Max(a: int, b: int): int {
    if a < b then b else a
  }

  /** Number of rounds `i` in `[0, n)` whose start, second `1 + i`, lies
      strictly before `now`: the `K` the catch-up loop advances `repNum` to. */
  function Elapsed(now: real, n: nat): (k: nat)
    ensures k <= n
    ensures now <= 1.0 ==> k == 0
    ensures now > n as real ==> k == n
  {
    if n == 0 then 0
    else Elapsed(now, n - 1) + (if now > n as real then 1 else 0)
  }

  /** When round `n - 1` has started, all `n` rounds before it have too. */
  lemma {:induction false} ElapsedAll(now: real, n: nat)
    requires now > n as real
    ensures Elapsed(now, n) == n
  {
    if n > 0 {
      ElapsedAll(now, n - 1);
    }
  }

  /** The rounds counted by `Elapsed` are exactly the first ones: round `i`
      is among them if and only if its start lies before `now`. */
  lemma {:induction false} ElapsedIsPrefix(now: real, n: nat, i: nat)
    requires i < n
    ensures i < Elapsed(now, n) <==> now > (1 + i) as real
  {
    if now > n as real {
      ElapsedAll(now, n);
    } else if i < n - 1 {
      ElapsedIsPrefix(now, n - 1, i);
    }
  }

  /** Closed form of the catch-up loop: when rounds beyond `repNum` have
      started, `repNum` jumps to the number of started rounds and a new round
      begins at `now`; otherwise nothing changes. */
  function CatchUp(r: Rsu, now: real): (r': Rsu)
    ensures r'.repNum >= r.repNum
    ensures r'.repNum > r.repNum ==> r'.num == 1 && r'.prevTime == now
    ensures r'.repNum == r.repNum ==> r' == r
    ensures r'.time == r.time
    ensures r.repNum >= 0 ==> r'.repNum == Max(r.repNum, Elapsed(now, SimulationTimeTotal))
  {
    var k := Elapsed(now, SimulationTimeTotal);
    if 0 <= r.repNum < k then r.(num := 1, prevTime := now, repNum := k) else r
  }

  /** The catch-up loop as the source writes it: it may advance `repNum`
      several times in one pass, and computes exactly `CatchUp`. */
  method CatchUpLoop(r: Rsu, now: real) returns (r': Rsu)
    ensures r' == CatchUp(r, now)
  {
    r' := r;
    var i: nat := 0;
    while i < SimulationTimeTotal
      invariant i <= SimulationTimeTotal
      invariant r.repNum < 0 ==> r' == r
      invariant r.repNum >= 0 ==> r'.repNum == Max(r.repNum, Elapsed(now, i))
      invariant r'.repNum == r.repNum ==> r' == r
      invariant r'.repNum != r.repNum ==> r' == r.(num := 1, prevTime := now, repNum := r'.repNum)
    {
      if now > (1 + i) as real {
        ElapsedAll(now, i + 1);
      }
      if now > (1 + i) as real && r'.repNum == i {
        r' := r'.(num := 1, prevTime := now, repNum := r'.repNum + 1);
      }
      i := i + 1;
    }
  }

  /** The round bookkeeping and rate selection done before the catch-up loop:
      the count rises by exactly one, the round start is stamped only at the
      first BSM, and the rate table runs only on the `ObuNode`-th. */
  function CountBsm(st: Scenario, now: real): (r: Scenario)
    ensures r.rsu.num == st.rsu.num + 1
    ensures r.rsu.repNum == st.rsu.repNum
    ensures st.rsu.num == 0 ==> r.rsu.prevTime == now
    ensures st.rsu.num != 0 ==> r.rsu.prevTime == st.rsu.prevTime
    ensures st.rsu.num != ObuNode - 1 ==> r.setting == st.setting && r.rsu.time == st.rsu.time
    ensures st.rsu.num == ObuNode - 1 ==> r.rsu.time == now
  {
    var r := st.rsu;
    if r.num == 0 then
      Scenario(r.(prevTime := now, num := r.num + 1), st.setting)
    else if r.num == ObuNode - 1 then
      var c := Cbr(now - r.prevTime);
      Scenario(r.(time := now, num := r.num + 1), NextSetting(c, st.setting))
    else
      Scenario(r.(num := r.num + 1), st.setting)
  }

  /** One BSM reception at simulated time `now` (seconds). */
  function OnBsm(st: Scenario, now: real): (r: Scenario)
    // rep_num catches up with the rounds started by now, and never falls
    ensures r.rsu.repNum >= st.rsu.repNum
    ensures st.rsu.repNum >= 0 ==> r.rsu.repNum == Max(st.rsu.repNum, Elapsed(now, SimulationTimeTotal))
    // a new round restarts the count at 1 and stamps its start
    ensures r.rsu.repNum > st.rsu.repNum ==> r.rsu.num == 1 && r.rsu.prevTime == now
    // otherwise the count rises by exactly one, and the start is stamped only
    // by the very first BSM
    ensures r.rsu.repNum == st.rsu.repNum ==> r.rsu.num == st.rsu.num + 1
    ensures st.rsu.num == 0 ==> r.rsu.prevTime == now
    ensures r.rsu.repNum == st.rsu.repNum && st.rsu.num != 0 ==> r.rsu.prevTime == st.rsu.prevTime
    // the rate table runs only on the ObuNode-th BSM of a round
    ensures st.rsu.num != ObuNode - 1 ==> r.setting == st.setting && r.rsu.time == st.rsu.time
    ensures st.rsu.num == ObuNode - 1 ==> r.rsu.time == now
    ensures st.rsu.num == ObuNode - 1 && Cbr(now - st.rsu.prevTime) !in Boundaries ==>
              Table(Cbr(now - st.rsu.prevTime)) == Selected(r.setting)
    ensures st.rsu.num == ObuNode - 1 && Cbr(now - st.rsu.prevTime) in Boundaries ==>
              r.setting == st.setting
  {
    var counted := CountBsm(st, now);
    Scenario(CatchUp(counted.rsu, now), counted.setting)
  }

  /** The RSU has opened at most `SimulationTimeTotal` rounds. */
  predicate RoundsInRange(st: Scenario) {
    0 <= st.rsu.repNum <= SimulationTimeTotal
  }

  /** Processes BSMs received at the given times, in order. */
  function ReceiveAll(st: Scenario, times: seq<real>): (r: Scenario)
    ensures r.rsu.repNum >= st.rsu.repNum
    ensures RoundsInRange(st) ==> RoundsInRange(r)
    decreases |times|
  {
    if |times| == 0 then st else ReceiveAll(OnBsm(st, times[0]), times[1..])
  }

  /** After a sequence of receptions, the RSU has caught up with every round
      that had started by the time of any one of them. */
  lemma {:induction false} ReceiveAllCatchesUp(st: Scenario, times: seq<real>, k: nat)
    requires RoundsInRange(st)
    requires k < |times|
    ensures ReceiveAll(st, times).rsu.repNum >= Elapsed(times[k], SimulationTimeTotal)
    decreases |times|
  {
    var next := OnBsm(st, times[0]);
    if k > 0 {
      assert times[1..][k - 1] == times[k];
      ReceiveAllCatchesUp(next, times[1..], k - 1);
    } else {
      assert next.rsu.repNum >= Elapsed(times[0], SimulationTimeTotal);
    }
  }

  /** A second pass of the catch-up loop at the same time changes nothing. */
  lemma CatchUpIdempotent(r: Rsu, now: real)
    ensures CatchUp(CatchUp(r, now), now) == CatchUp(r, now)
  {
  }
}
