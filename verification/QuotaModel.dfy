/** What the quota scheduler computes: artifact cohorts as bit masks, the progress order
    on cohorts, and deficit-based apportionment of picks to rows. */
module QuotaModel {
  import opened Common

  const NO_ARTIFACT: uint32 := UINT32_MAX
  const MAXIMUM_ARTIFACTS: nat := 20
  const TWO_TO_128: nat := 0x1_0000_0000_0000_0000_0000_0000_0000_0000

  datatype Row = Row(initial: uint64, remaining: uint64, frozen: uint32, cohort: uint32)

  datatype MaskProgress = MaskProgress(initial: uint64, issued: uint64)

  // ---------------------------------------------------------------- masks

  function Pow2(n: nat): (p: nat)
    ensures p >= 1
  {
    if n == 0 then 1 else 2 * Pow2(n - 1)
  }

  /** Bit `slot` of the mask: (ArtifactMask(slot) & mask) != 0. */
  predicate InMask(mask: nat, slot: nat) {
    if slot == 0 then mask % 2 == 1 else InMask(mask / 2, slot - 1)
  }

  function Popcount(mask: nat): nat {
    if mask == 0 then 0 else mask % 2 + Popcount(mask / 2)
  }

  ghost predicate Submask(a: nat, b: nat) {
    forall s: nat :: InMask(a, s) ==> InMask(b, s)
  }

  predicate Eligible(row: Row, mask: nat) {
    row.cohort == NO_ARTIFACT || InMask(mask, row.cohort)
  }

  // ---------------------------------------------------------------- sums over rows

  function Sum(rows: seq<Row>, f: Row -> int): int {
    if rows == [] then 0 else Sum(rows[..|rows| - 1], f) + f(rows[|rows| - 1])
  }

  function Issued(row: Row): int {
    row.initial - row.remaining
  }

  function InitialIf(mask: nat): Row -> int {
    (row: Row) => if Eligible(row, mask) then row.initial else 0
  }

  function RemainingIf(mask: nat): Row -> int {
    (row: Row) => if Eligible(row, mask) then row.remaining else 0
  }

  function IssuedIf(mask: nat): Row -> int {
    (row: Row) => if Eligible(row, mask) then Issued(row) else 0
  }

  function CohortInitialIf(mask: nat): Row -> int {
    (row: Row) => if row.cohort != NO_ARTIFACT && InMask(mask, row.cohort) then row.initial else 0
  }

  function CohortIssuedIf(mask: nat): Row -> int {
    (row: Row) => if row.cohort != NO_ARTIFACT && InMask(mask, row.cohort) then Issued(row) else 0
  }

  function OneIf(mask: nat): Row -> int {
    (row: Row) => if Eligible(row, mask) then 1 else 0
  }

  function InitialOf(row: Row): int { row.initial }

  function RemainingOf(row: Row): int { row.remaining }

  // ---------------------------------------------------------------- validity

  predicate SlotOk(slot: uint32, artifactCount: nat) {
    slot == NO_ARTIFACT || slot < artifactCount
  }

  /** Every row the scheduler can hold after Create and any number of Takes. */
  predicate RowsOk(rows: seq<Row>, artifactCount: nat) {
    && 0 < |rows| <= UINT32_MAX
    && 0 < artifactCount <= MAXIMUM_ARTIFACTS
    && (forall i :: 0 <= i < |rows| ==>
          0 < rows[i].initial && rows[i].remaining <= rows[i].initial
          && SlotOk(rows[i].frozen, artifactCount) && SlotOk(rows[i].cohort, artifactCount))
    && Sum(rows, InitialOf) <= UINT64_MAX
  }

  // ---------------------------------------------------------------- 128-bit comparisons

  /** Value kept by unsigned 128-bit arithmetic. */
  function U128(x: nat): nat {
    x % TWO_TO_128
  }

  predicate EarlierProgress(left: MaskProgress, leftMask: nat, right: MaskProgress, rightMask: nat) {
    if left.initial == 0 || right.initial == 0 then
      if left.initial != right.initial then left.initial != 0 else leftMask < rightMask
    else
      var leftScaled := U128(left.issued * right.initial);
      var rightScaled := U128(right.issued * left.initial);
      if leftScaled != rightScaled then leftScaled < rightScaled else leftMask < rightMask
  }

  predicate GreaterRowDeficit(left: Row, leftIndex: nat, right: Row, rightIndex: nat,
                              eligibleInitial: nat, nextEligibleIssued: nat)
    requires left.remaining <= left.initial && right.remaining <= right.initial
  {
    var leftScore := U128(left.initial * nextEligibleIssued + Issued(right) * eligibleInitial);
    var rightScore := U128(right.initial * nextEligibleIssued + Issued(left) * eligibleInitial);
    if leftScore != rightScore then leftScore > rightScore else leftIndex < rightIndex
  }

  // ---------------------------------------------------------------- which cohort is taken

  predicate RequiredAvailable(rows: seq<Row>, mask: nat, required: uint32) {
    required == NO_ARTIFACT ||
    exists i :: 0 <= i < |rows| && Eligible(rows[i], mask) && rows[i].frozen == required && rows[i].remaining > 0
  }

  predicate Feasible(rows: seq<Row>, artifactCount: nat, mask: nat, gameCount: nat, limit: nat, required: uint32) {
    && mask < Pow2(artifactCount)
    && (required == NO_ARTIFACT || InMask(mask, required))
    && Popcount(mask) <= limit
    && RequiredAvailable(rows, mask, required)
    && Sum(rows, RemainingIf(mask)) >= gameCount
  }

  predicate ArgumentsOk(artifactCount: nat, gameCount: nat, limit: nat, required: uint32) {
    gameCount > 0 && 0 < limit <= artifactCount && SlotOk(required, artifactCount)
  }

  /** Some cohort of artifacts can serve the request. */
  ghost predicate Servable(rows: seq<Row>, artifactCount: nat, gameCount: nat, limit: nat, required: uint32) {
    exists mask :: Feasible(rows, artifactCount, mask, gameCount, limit, required)
  }

  ghost predicate ProgressIs(rows: seq<Row>, mask: nat, p: MaskProgress) {
    p.initial == Sum(rows, CohortInitialIf(mask)) && p.issued == Sum(rows, CohortIssuedIf(mask))
  }

  /** Cohort `a` has issued a smaller fraction of its games than cohort `b`: empty cohorts
      come last and equal fractions are ordered by mask. */
  ghost predicate Earlier(rows: seq<Row>, a: nat, b: nat) {
    var ia, ib := Sum(rows, CohortInitialIf(a)), Sum(rows, CohortInitialIf(b));
    var sa, sb := Sum(rows, CohortIssuedIf(a)), Sum(rows, CohortIssuedIf(b));
    if ia == 0 || ib == 0 then (ib == 0 && ia != 0) || (ia == ib && a < b)
    else sa * ib < sb * ia || (sa * ib == sb * ia && a < b)
  }

  /** The feasible cohort that comes before every other feasible one. */
  ghost predicate IsBestMask(rows: seq<Row>, artifactCount: nat, mask: nat, gameCount: nat, limit: nat,
                             required: uint32) {
    && Feasible(rows, artifactCount, mask, gameCount, limit, required)
    && forall m :: Feasible(rows, artifactCount, m, gameCount, limit, required) && m != mask ==> Earlier(rows, mask, m)
  }

  // ---------------------------------------------------------------- which rows are picked

  /** Signed shortfall of a row when `next` of the eligible total will have been issued. */
  function Deficit(row: Row, eligibleInitial: int, next: int): int {
    row.initial * next - Issued(row) * eligibleInitial
  }

  predicate Candidate(row: Row, mask: nat, required: uint32) {
    row.remaining > 0 && (required == NO_ARTIFACT || row.frozen == required) && Eligible(row, mask)
  }

  /** Row i is strictly preferred to row j: larger signed deficit, ties to the lower index. */
  predicate Preferred(rows: seq<Row>, i: nat, j: nat, eligibleInitial: int, next: int)
    requires i < |rows| && j < |rows|
  {
    var di, dj := Deficit(rows[i], eligibleInitial, next), Deficit(rows[j], eligibleInitial, next);
    di > dj || (di == dj && i < j)
  }

  ghost predicate IsChoice(rows: seq<Row>, mask: nat, required: uint32, i: nat) {
    var e, next := Sum(rows, InitialIf(mask)), Sum(rows, IssuedIf(mask)) + 1;
    && i < |rows| && Candidate(rows[i], mask, required)
    && forall j :: 0 <= j < |rows| && j != i && Candidate(rows[j], mask, required) ==> Preferred(rows, i, j, e, next)
  }

  function Pick(rows: seq<Row>, i: nat): seq<Row>
    requires i < |rows| && rows[i].remaining > 0
  {
    rows[i := rows[i].(remaining := rows[i].remaining - 1)]
  }

  /** `picks` is what the scheduler emits from `rows` under `mask`: the first pick serves
      the required artifact when there is one, every other pick is unrestricted. */
  ghost predicate IsShard(rows: seq<Row>, mask: nat, required: uint32, picks: seq<nat>)
    decreases |picks|
  {
    picks == [] ||
    (IsChoice(rows, mask, required, picks[0]) && IsShard(Pick(rows, picks[0]), mask, NO_ARTIFACT, picks[1..]))
  }

  ghost function ApplyShard(rows: seq<Row>, mask: nat, required: uint32, picks: seq<nat>): seq<Row>
    requires IsShard(rows, mask, required, picks)
    decreases |picks|
  {
    if picks == [] then rows else ApplyShard(Pick(rows, picks[0]), mask, NO_ARTIFACT, picks[1..])
  }
}
