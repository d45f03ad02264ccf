/** What Take chooses, in numbers and sets alone: when a request can be served, which cohort
    serves it, and which row each pick serves. */
module QuotaSelection {
  import opened Common
  import opened QuotaModel
  import opened QuotaLaws
  import opened QuotaFairness

  // ---------------------------------------------------------------- masks are sets

  /** The artifacts of a mask, read off its binary digits. */
  function Artifacts(mask: nat, n: nat): set<nat> {
    set s: nat | s < n && (mask / Pow2(s)) % 2 == 1
  }

  lemma {:induction false} InMaskIsDigit(mask: nat, slot: nat)
    ensures InMask(mask, slot) <==> (mask / Pow2(slot)) % 2 == 1
  {
    if slot > 0 {
      InMaskIsDigit(mask / 2, slot - 1);
      HalfDiv(mask, Pow2(slot - 1));
    }
  }

  lemma HalfDiv(x: nat, d: nat)
    requires d > 0
    ensures (x / 2) / d == x / (2 * d)
  {
    var q, r := x / (2 * d), x % (2 * d);
    assert x == 2 * (d * q) + r;
    DivUnique(x, 2, d * q + r / 2, r % 2);
    DivUnique(x / 2, d, q, r / 2);
  }

  /** The mask of a set of artifacts. */
  ghost function MaskOf(chosen: set<nat>, n: nat): (mask: nat)
    ensures mask < Pow2(n)
    decreases n
  {
    if n == 0 then 0 else 2 * MaskOf(Lowered(chosen), n - 1) + if 0 in chosen then 1 else 0
  }

  function Lowered(chosen: set<nat>): set<nat> {
    set s | s in chosen && s > 0 :: s - 1
  }

  lemma {:induction false} MaskHolds(chosen: set<nat>, n: nat, slot: nat)
    requires slot < n
    ensures InMask(MaskOf(chosen, n), slot) <==> slot in chosen
    decreases n
  {
    if slot > 0 {
      MaskHolds(Lowered(chosen), n - 1, slot - 1);
      assert slot - 1 in Lowered(chosen) <==> slot in chosen;
    }
  }

  function ArtifactsFrom(mask: nat, n: nat, k: nat): set<nat> {
    set s: nat | k <= s < n && (mask / Pow2(s)) % 2 == 1
  }

  lemma {:induction false} PopcountFrom(mask: nat, n: nat, k: nat)
    requires mask < Pow2(n) && k <= n
    ensures Popcount(mask / Pow2(k)) == |ArtifactsFrom(mask, n, k)|
    decreases n - k
  {
    hide Pow2;
    var here := ArtifactsFrom(mask, n, k);
    if k == n {
      DivUnique(mask, Pow2(n), 0, mask);
      assert here == {};
    } else {
      PopcountFrom(mask, n, k + 1);
      NextPower(mask, k);
      var rest := ArtifactsFrom(mask, n, k + 1);
      assert here == if (mask / Pow2(k)) % 2 == 1 then rest + {k} else rest;
    }
  }

  lemma NextPower(mask: nat, k: nat)
    ensures (mask / Pow2(k)) / 2 == mask / Pow2(k + 1)
  {
    DivTwice(mask, Pow2(k));
  }

  lemma DivTwice(x: nat, d: nat)
    requires d > 0
    ensures (x / d) / 2 == x / (2 * d)
  {
    var q, b, r := x / d / 2, x / d % 2, x % d;
    DivParts(x, d);
    Distributes(d, q, b);
    DivUnique(x, 2 * d, q, if b == 0 then r else d + r);
  }

  lemma DivParts(x: nat, d: nat)
    requires d > 0
    ensures x == d * (2 * (x / d / 2) + x / d % 2) + x % d
  {
  }

  lemma Distributes(d: nat, q: int, b: int)
    ensures d * (2 * q + b) == (2 * d) * q + d * b
  {
  }

  /** Popcount counts the artifacts of a mask. */
  lemma PopcountIsSize(mask: nat, n: nat)
    requires mask < Pow2(n)
    ensures Popcount(mask) == |Artifacts(mask, n)|
  {
    PopcountFrom(mask, n, 0);
    assert Pow2(0) == 1;
    assert ArtifactsFrom(mask, n, 0) == Artifacts(mask, n);
  }

  // ---------------------------------------------------------------- which requests are served

  /** A row belongs to no artifact, or to one of the chosen ones. */
  predicate Admitted(row: Row, chosen: set<nat>) {
    row.cohort == NO_ARTIFACT || row.cohort in chosen
  }

  function RemainingFor(chosen: set<nat>): Row -> int {
    (row: Row) => if Admitted(row, chosen) then row.remaining else 0
  }

  function GamesFor(chosen: set<nat>): Row -> int {
    (row: Row) => if Admitted(row, chosen) then row.initial else 0
  }

  function IssuedFor(chosen: set<nat>): Row -> int {
    (row: Row) => if Admitted(row, chosen) then row.initial - row.remaining else 0
  }

  function CohortGames(chosen: set<nat>): Row -> int {
    (row: Row) => if row.cohort != NO_ARTIFACT && row.cohort in chosen then row.initial else 0
  }

  function CohortIssued(chosen: set<nat>): Row -> int {
    (row: Row) => if row.cohort != NO_ARTIFACT && row.cohort in chosen then row.initial - row.remaining else 0
  }

  /** A choice of artifacts serves the request: few enough of them, the required one among them and
      still with a game, and enough games in all. */
  ghost predicate Serves(rows: seq<Row>, chosen: set<nat>, gameCount: nat, limit: nat, required: uint32) {
    && |chosen| <= limit && Sum(rows, RemainingFor(chosen)) >= gameCount
    && (required != NO_ARTIFACT ==>
          && required in chosen
          && exists i :: 0 <= i < |rows| && Admitted(rows[i], chosen) && rows[i].frozen == required
                         && rows[i].remaining > 0)
  }

  lemma ArtifactsAreMembers(mask: nat, n: nat, slot: nat)
    requires slot < n
    ensures slot in Artifacts(mask, n) <==> InMask(mask, slot)
  {
    InMaskIsDigit(mask, slot);
  }

  lemma RowsAlike(rows: seq<Row>, artifactCount: nat, mask: nat)
    requires RowsOk(rows, artifactCount)
    ensures var chosen := Artifacts(mask, artifactCount);
      && (forall i :: 0 <= i < |rows| ==> (Admitted(rows[i], chosen) <==> Eligible(rows[i], mask)))
      && (forall i :: 0 <= i < |rows| && rows[i].cohort != NO_ARTIFACT ==>
            (rows[i].cohort in chosen <==> InMask(mask, rows[i].cohort)))
  {
    hide InMask, Artifacts;
    forall i | 0 <= i < |rows| && rows[i].cohort != NO_ARTIFACT
      ensures rows[i].cohort in Artifacts(mask, artifactCount) <==> InMask(mask, rows[i].cohort)
    {
      ArtifactsAreMembers(mask, artifactCount, rows[i].cohort);
    }
  }

  lemma SumsAlike(rows: seq<Row>, artifactCount: nat, mask: nat)
    requires RowsOk(rows, artifactCount)
    ensures var chosen := Artifacts(mask, artifactCount);
      && Sum(rows, RemainingFor(chosen)) == Sum(rows, RemainingIf(mask))
      && Sum(rows, GamesFor(chosen)) == Sum(rows, InitialIf(mask))
      && Sum(rows, IssuedFor(chosen)) == Sum(rows, IssuedIf(mask))
      && Sum(rows, CohortGames(chosen)) == Sum(rows, CohortInitialIf(mask))
      && Sum(rows, CohortIssued(chosen)) == Sum(rows, CohortIssuedIf(mask))
  {
    hide Artifacts, InMask, Sum, Admitted, Eligible;
    var chosen := Artifacts(mask, artifactCount);
    RowsAlike(rows, artifactCount, mask);
    SumCongruent(rows, RemainingFor(chosen), RemainingIf(mask));
    SumCongruent(rows, GamesFor(chosen), InitialIf(mask));
    SumCongruent(rows, IssuedFor(chosen), IssuedIf(mask));
    SumCongruent(rows, CohortGames(chosen), CohortInitialIf(mask));
    SumCongruent(rows, CohortIssued(chosen), CohortIssuedIf(mask));
  }

  /** A mask is feasible exactly if its artifacts serve the request. */
  lemma FeasibleServes(rows: seq<Row>, artifactCount: nat, mask: nat, gameCount: nat, limit: nat, required: uint32)
    requires RowsOk(rows, artifactCount) && mask < Pow2(artifactCount) && SlotOk(required, artifactCount)
    ensures Feasible(rows, artifactCount, mask, gameCount, limit, required)
      <==> Serves(rows, Artifacts(mask, artifactCount), gameCount, limit, required)
  {
    hide Artifacts, InMask, Sum, Popcount, Pow2, Admitted, Eligible;
    RowsAlike(rows, artifactCount, mask);
    SumsAlike(rows, artifactCount, mask);
    PopcountIsSize(mask, artifactCount);
    if required != NO_ARTIFACT {
      ArtifactsAreMembers(mask, artifactCount, required);
    }
  }

  lemma MaskOfArtifacts(chosen: set<nat>, n: nat)
    requires forall s :: s in chosen ==> s < n
    ensures Artifacts(MaskOf(chosen, n), n) == chosen
  {
    hide Artifacts, MaskOf;
    forall s: nat ensures s in Artifacts(MaskOf(chosen, n), n) <==> s in chosen {
      ArtifactsBelow(MaskOf(chosen, n), n, s);
      if s < n {
        MaskHolds(chosen, n, s);
        ArtifactsAreMembers(MaskOf(chosen, n), n, s);
      }
    }
  }

  lemma ArtifactsBelow(mask: nat, n: nat, s: nat)
    ensures s in Artifacts(mask, n) ==> s < n
  {
  }

  /** A request can be served exactly if some choice of artifacts serves it. */
  lemma ServableExactly(rows: seq<Row>, artifactCount: nat, gameCount: nat, limit: nat, required: uint32)
    requires RowsOk(rows, artifactCount) && SlotOk(required, artifactCount)
    ensures Servable(rows, artifactCount, gameCount, limit, required) <==>
      exists chosen: set<nat> ::
        (forall s :: s in chosen ==> s < artifactCount) && Serves(rows, chosen, gameCount, limit, required)
  {
    hide Feasible, Serves, Artifacts, MaskOf, RowsOk;
    if mask :| Feasible(rows, artifactCount, mask, gameCount, limit, required) {
      FeasibleIsSmall(rows, artifactCount, mask, gameCount, limit, required);
      FeasibleServes(rows, artifactCount, mask, gameCount, limit, required);
      forall s | s in Artifacts(mask, artifactCount) ensures s < artifactCount {
        ArtifactsBelow(mask, artifactCount, s);
      }
    }
    if chosen: set<nat> :| (forall s :: s in chosen ==> s < artifactCount)
                           && Serves(rows, chosen, gameCount, limit, required) {
      MaskOfArtifacts(chosen, artifactCount);
      FeasibleServes(rows, artifactCount, MaskOf(chosen, artifactCount), gameCount, limit, required);
    }
  }

  lemma FeasibleIsSmall(rows: seq<Row>, artifactCount: nat, mask: nat, gameCount: nat, limit: nat, required: uint32)
    requires Feasible(rows, artifactCount, mask, gameCount, limit, required)
    ensures mask < Pow2(artifactCount)
  {
  }

  // ---------------------------------------------------------------- which cohort serves

  /** The mask serves, and of all that do its cohort has been issued the smallest share of its games:
      s/g <= t/h for shares s of g and t of h, multiplied out.  A cohort without games comes last,
      and of equal cohorts the smaller mask comes first. */
  ghost predicate FurthestBehind(rows: seq<Row>, artifactCount: nat, mask: nat, gameCount: nat, limit: nat,
                                 required: uint32)
  {
    && mask < Pow2(artifactCount)
    && var a := Artifacts(mask, artifactCount);
       var g, s := Sum(rows, CohortGames(a)), Sum(rows, CohortIssued(a));
       && Serves(rows, a, gameCount, limit, required)
       && forall m: nat :: m < Pow2(artifactCount)
                           && Serves(rows, Artifacts(m, artifactCount), gameCount, limit, required) ==>
            var b := Artifacts(m, artifactCount);
            var h, t := Sum(rows, CohortGames(b)), Sum(rows, CohortIssued(b));
            && (h > 0 ==> g > 0 && s * h <= t * g && (s * h == t * g ==> mask <= m))
            && (g == 0 ==> mask <= m)
  }

  /** The scan's answer is exactly that cohort. */
  lemma BestIsFurthestBehind(rows: seq<Row>, artifactCount: nat, mask: nat, gameCount: nat, limit: nat,
                             required: uint32)
    requires RowsOk(rows, artifactCount) && SlotOk(required, artifactCount)
    requires IsBestMask(rows, artifactCount, mask, gameCount, limit, required)
    ensures FurthestBehind(rows, artifactCount, mask, gameCount, limit, required)
  {
    hide Feasible, Serves, Artifacts, Earlier, RowsOk, Sum, Pow2;
    FeasibleIsSmall(rows, artifactCount, mask, gameCount, limit, required);
    FeasibleServes(rows, artifactCount, mask, gameCount, limit, required);
    SumsAlike(rows, artifactCount, mask);
    forall m: nat | m < Pow2(artifactCount) && Serves(rows, Artifacts(m, artifactCount), gameCount, limit, required)
      ensures
        var g, s := Sum(rows, CohortInitialIf(mask)), Sum(rows, CohortIssuedIf(mask));
        var h, t := Sum(rows, CohortInitialIf(m)), Sum(rows, CohortIssuedIf(m));
        && (h > 0 ==> g > 0 && s * h <= t * g && (s * h == t * g ==> mask <= m))
        && (g == 0 ==> mask <= m)
    {
      FeasibleServes(rows, artifactCount, m, gameCount, limit, required);
      if m != mask {
        EarlierInSums(rows, artifactCount, mask, m);
      }
    }
    forall m: nat | m < Pow2(artifactCount)
      ensures var b := Artifacts(m, artifactCount);
        && Sum(rows, CohortGames(b)) == Sum(rows, CohortInitialIf(m))
        && Sum(rows, CohortIssued(b)) == Sum(rows, CohortIssuedIf(m))
    {
      SumsAlike(rows, artifactCount, m);
    }
  }

  lemma EarlierInSums(rows: seq<Row>, artifactCount: nat, a: nat, b: nat)
    requires RowsOk(rows, artifactCount) && Earlier(rows, a, b)
    ensures
      var g, s := Sum(rows, CohortInitialIf(a)), Sum(rows, CohortIssuedIf(a));
      var h, t := Sum(rows, CohortInitialIf(b)), Sum(rows, CohortIssuedIf(b));
      && (h > 0 ==> g > 0 && s * h <= t * g && (s * h == t * g ==> a <= b))
      && (g == 0 ==> a <= b)
  {
    hide RowsOk, Sum;
    SumsFit(rows, artifactCount, a);
    SumsFit(rows, artifactCount, b);
  }

  // ---------------------------------------------------------------- which row a pick serves

  /** Row i is owed at least as much as row j when one more game of the admitted rows is issued, and
      more than any later row owed as much. */
  predicate OwedMost(rows: seq<Row>, games: int, issued: int, i: nat, j: nat)
    requires i < |rows| && j < |rows|
  {
    var owedI := rows[i].initial * (issued + 1) - (rows[i].initial - rows[i].remaining) * games;
    var owedJ := rows[j].initial * (issued + 1) - (rows[j].initial - rows[j].remaining) * games;
    owedI >= owedJ && (owedI == owedJ ==> i <= j)
  }

  predicate Waiting(row: Row, chosen: set<nat>, required: uint32) {
    row.remaining > 0 && Admitted(row, chosen) && (required == NO_ARTIFACT || row.frozen == required)
  }

  /** Row i is waiting, and of all rows waiting it is the one owed most. */
  ghost predicate ServesOwedMost(rows: seq<Row>, chosen: set<nat>, required: uint32, i: nat) {
    && i < |rows| && Waiting(rows[i], chosen, required)
    && var games, issued := Sum(rows, GamesFor(chosen)), Sum(rows, IssuedFor(chosen));
       forall j :: 0 <= j < |rows| && Waiting(rows[j], chosen, required) ==> OwedMost(rows, games, issued, i, j)
  }

  lemma ChoiceIsOwedMost(rows: seq<Row>, artifactCount: nat, mask: nat, required: uint32, i: nat)
    requires RowsOk(rows, artifactCount) && IsChoice(rows, mask, required, i)
    ensures ServesOwedMost(rows, Artifacts(mask, artifactCount), required, i)
  {
    hide RowsOk, Sum, Artifacts, Admitted, Eligible;
    RowsAlike(rows, artifactCount, mask);
    SumsAlike(rows, artifactCount, mask);
  }

  /** Every pick of a shard, the earlier ones counted, serves the row owed most; the first one looks
      at the rows of the required artifact alone. */
  lemma {:induction false} PicksAreOwedMost(rows: seq<Row>, artifactCount: nat, mask: nat, required: uint32,
                                            picks: seq<nat>, k: nat)
    requires RowsOk(rows, artifactCount) && IsShard(rows, mask, required, picks) && k < |picks|
    ensures IsShard(rows, mask, required, picks[..k])
    ensures ServesOwedMost(ApplyShard(rows, mask, required, picks[..k]), Artifacts(mask, artifactCount),
                           if k == 0 then required else NO_ARTIFACT, picks[k])
    decreases k
  {
    hide RowsOk, Artifacts, IsChoice, ServesOwedMost;
    if k == 0 {
      ChoiceIsOwedMost(rows, artifactCount, mask, required, picks[0]);
    } else {
      ChoiceHasGame(rows, mask, required, picks[0]);
      PickLaws(rows, artifactCount, mask, picks[0]);
      PicksAreOwedMost(Pick(rows, picks[0]), artifactCount, mask, NO_ARTIFACT, picks[1..], k - 1);
      assert picks[..k][1..] == picks[1..][..k - 1];
    }
  }

  lemma ChoiceHasGame(rows: seq<Row>, mask: nat, required: uint32, i: nat)
    requires IsChoice(rows, mask, required, i)
    ensures i < |rows| && rows[i].remaining > 0 && Eligible(rows[i], mask)
  {
  }
}
