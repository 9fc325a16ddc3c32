/**
  The channel-busy-ratio (CBR) to data-rate / inter-transmission-time (ITT)
  table that the roadside unit applies once per measurement round.

  The source writes it as an if/else chain of eleven open-interval tests, each
  also requiring `c != 0`. When no test holds -- at 0 and at each interval
  boundary -- the chain does nothing, so the previously chosen rate string `b`
  and `ITT` stay as they were. CBR and ITT are single-precision floats in the
  source; here they are reals.
 */
module RateTable {

  /** The two scenario globals the table writes: the rate string `b`, later
      sent as the payload of the service advertisement, and `ITT` in seconds. */
  datatype Setting = Setting(rate: string, itt: real)

  /** One branch condition. Every branch of the chain also demands `c != 0`. */
  datatype Guard =
    | Between(lo: real, hi: real)  // lo < c < hi
    | Above(lo: real)              // lo < c
    | Below(hi: real)              // c < hi

  predicate Holds(g: Guard, c: real) {
    c != 0.0 &&
    match g
    case Between(lo, hi) => lo < c < hi
    case Above(lo) => lo < c
    case Below(hi) => c < hi
  }

  datatype Branch = Branch(guard: Guard, setting: Setting)

  /** Outcome of running the chain: the setting of the branch that fired, or
      `NoBranch` when none did. */
  datatype Selection = NoBranch | Selected(setting: Setting)

  /** The table's settings in ascending CBR order, one per interval. */
  const Settings: seq<Setting> := [
    Setting("20Kb/s", 0.080),  // (0, 60) and below 0
    Setting("19Kb/s", 0.084),  // (60, 70)
    Setting("18Kb/s", 0.089),  // (70, 80)
    Setting("17Kb/s", 0.094),  // (80, 90)
    Setting("16Kb/s", 0.100),  // (90, 100)
    Setting("15Kb/s", 0.107),  // (100, 110)
    Setting("14Kb/s", 0.114),  // (110, 120)
    Setting("13Kb/s", 0.123),  // (120, 130)
    Setting("12Kb/s", 0.133),  // (130, 140)
    Setting("11Kb/s", 0.145),  // (140, 150)
    Setting("9Kb/s", 0.160)    // above 150
  ]

  /** The branches in the order the chain tests them. */
  const Chain: seq<Branch> := [
    Branch(Between(100.0, 110.0), Settings[5]),
    Branch(Between(110.0, 120.0), Settings[6]),
    Branch(Between(120.0, 130.0), Settings[7]),
    Branch(Between(130.0, 140.0), Settings[8]),
    Branch(Between(140.0, 150.0), Settings[9]),
    Branch(Above(150.0), Settings[10]),
    Branch(Between(90.0, 100.0), Settings[4]),
    Branch(Between(80.0, 90.0), Settings[3]),
    Branch(Between(70.0, 80.0), Settings[2]),
    Branch(Between(60.0, 70.0), Settings[1]),
    Branch(Below(60.0), Settings[0])
  ]

  /** The CBR values at which no branch of the chain fires. */
  const Boundaries: seq<real> :=
    [0.0, 60.0, 70.0, 80.0, 90.0, 100.0, 110.0, 120.0, 130.0, 140.0, 150.0]

  /** Channel busy ratio in percent from the time `a` (seconds) the RSU took to
      hear a full round of BSMs: `a / 0.1 * 100`, i.e. against a 100 ms period. */
  function Cbr(a: real): (c: real)
    ensures c == 1000.0 * a
    ensures a > 0.0 <==> c > 0.0
  {
    a / 0.1 * 100.0
  }

  /** Position of the first branch whose condition holds, or `|branches|`. */
  function FirstMatch(branches: seq<Branch>, c: real): (k: nat)
    ensures k <= |branches|
    ensures forall j :: 0 <= j < k ==> !Holds(branches[j].guard, c)
    ensures k < |branches| ==> Holds(branches[k].guard, c)
    decreases |branches|
  {
    if |branches| == 0 then 0
    else if Holds(branches[0].guard, c) then 0
    else 1 + FirstMatch(branches[1..], c)
  }

  /** The setting the chain selects for `c`: the setting of a branch whose
      condition holds, or `NoBranch` when no condition holds at all. */
  function Lookup(c: real): (r: Selection)
    ensures r.Selected? ==>
              exists k :: 0 <= k < |Chain| && Holds(Chain[k].guard, c) && r.setting == Chain[k].setting
    ensures r.NoBranch? ==> forall k :: 0 <= k < |Chain| ==> !Holds(Chain[k].guard, c)
  {
    var k := FirstMatch(Chain, c);
    if k < |Chain| then Selected(Chain[k].setting) else NoBranch
  }

  /** The state update performed by the chain: the selected setting, or the
      previous one when no branch fires. */
  function NextSetting(c: real, prev: Setting): (r: Setting)
    ensures c in Boundaries ==> r == prev
    ensures c !in Boundaries ==> Table(c) == Selected(r)
  {
    LookupMatchesTable(c);
    NoBandAtBoundaries(c);
    match Lookup(c)
    case Selected(chosen) => chosen
    case NoBranch => prev
  }

  /** Position in `Settings` of the open interval containing `c`, or -1 when
      `c` is 0 or an interval boundary. */
  function Band(c: real): (b: int)
    ensures -1 <= b < |Settings|
  {
    if c == 0.0 then -1
    else if c < 60.0 then 0
    else if 60.0 < c < 70.0 then 1
    else if 70.0 < c < 80.0 then 2
    else if 80.0 < c < 90.0 then 3
    else if 90.0 < c < 100.0 then 4
    else if 100.0 < c < 110.0 then 5
    else if 110.0 < c < 120.0 then 6
    else if 120.0 < c < 130.0 then 7
    else if 130.0 < c < 140.0 then 8
    else if 140.0 < c < 150.0 then 9
    else if 150.0 < c then 10
    else -1
  }

  /** The same table written independently, in ascending CBR order. */
  function Table(c: real): Selection {
    var b := Band(c);
    if b < 0 then NoBranch else Selected(Settings[b])
  }

  /** At most one branch condition holds for any CBR. */
  lemma BranchesDisjoint(c: real, j: nat, k: nat)
    requires j < k < |Chain|
    ensures !(Holds(Chain[j].guard, c) && Holds(Chain[k].guard, c))
  {
  }

  /** Hence the order of the chain is irrelevant: whichever branch holds is the
      one selected. */
  lemma OrderIrrelevant(c: real, k: nat)
    requires k < |Chain| && Holds(Chain[k].guard, c)
    ensures Lookup(c) == Selected(Chain[k].setting)
  {
    var m := FirstMatch(Chain, c);
    assert m <= k;
    if m < k {
      BranchesDisjoint(c, m, k);
    }
  }

  /** At 0 and at every interval boundary no branch condition holds. */
  lemma NoBranchHoldsAtBoundary(c: real, k: nat)
    requires c in Boundaries && k < |Chain|
    ensures !Holds(Chain[k].guard, c)
  {
  }

  /** So at those values nothing is selected. */
  lemma NoneAtBoundary(c: real)
    requires c in Boundaries
    ensures Lookup(c) == NoBranch
  {
    var m := FirstMatch(Chain, c);
    if m < |Chain| {
      NoBranchHoldsAtBoundary(c, m);
      assert false;
    }
  }

  /** The chain selects exactly what the ascending table lists. */
  lemma LookupMatchesTable(c: real)
    ensures Lookup(c) == Table(c)
  {
    var b := Band(c);
    if b < 0 { assert c in Boundaries; NoneAtBoundary(c); }
    else if b == 0 { OrderIrrelevant(c, 10); }
    else if b == 1 { OrderIrrelevant(c, 9); }
    else if b == 2 { OrderIrrelevant(c, 8); }
    else if b == 3 { OrderIrrelevant(c, 7); }
    else if b == 4 { OrderIrrelevant(c, 6); }
    else if b == 5 { OrderIrrelevant(c, 0); }
    else if b == 6 { OrderIrrelevant(c, 1); }
    else if b == 7 { OrderIrrelevant(c, 2); }
    else if b == 8 { OrderIrrelevant(c, 3); }
    else if b == 9 { OrderIrrelevant(c, 4); }
    else { OrderIrrelevant(c, 5); }
  }

  /** `Band` is -1 exactly at 0 and the interval boundaries. */
  lemma NoBandAtBoundaries(c: real)
    ensures Band(c) < 0 <==> c in Boundaries
  {
  }

  /** A larger CBR never falls into a lower interval. */
  lemma BandMonotone(c1: real, c2: real)
    requires c1 < c2 && 0 <= Band(c1) && 0 <= Band(c2)
    ensures Band(c1) <= Band(c2)
  {
  }

  /** ITTs grow along the table. */
  lemma SettingsIttSorted(i: nat, j: nat)
    requires i <= j < |Settings|
    ensures Settings[i].itt <= Settings[j].itt
  {
  }

  /** No branch fires exactly at 0 and at the interval boundaries. */
  lemma NoBranchExactlyAtBoundaries(c: real)
    ensures Lookup(c).NoBranch? <==> c in Boundaries
  {
    LookupMatchesTable(c);
    NoBandAtBoundaries(c);
  }

  /** A busier channel never yields a shorter ITT. */
  lemma IttMonotone(c1: real, c2: real)
    requires c1 < c2
    requires Lookup(c1).Selected? && Lookup(c2).Selected?
    ensures Lookup(c1).setting.itt <= Lookup(c2).setting.itt
  {
    LookupMatchesTable(c1);
    LookupMatchesTable(c2);
    BandMonotone(c1, c2);
    SettingsIttSorted(Band(c1), Band(c2));
  }
}
