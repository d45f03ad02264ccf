/** Exact accounting of picks and the proportional-fairness bound, over one shard and over
    any history of shards. */
module QuotaFairness {
  import opened Common
  import opened QuotaModel
  import opened QuotaLaws

  // ---------------------------------------------------------------- one pick

  lemma PickLaws(rows: seq<Row>, artifactCount: nat, mask: nat, i: nat)
    requires RowsOk(rows, artifactCount) && i < |rows| && rows[i].remaining > 0
    ensures RowsOk(Pick(rows, i), artifactCount)
    ensures Sum(Pick(rows, i), RemainingOf) == Sum(rows, RemainingOf) - 1
    ensures Sum(Pick(rows, i), InitialIf(mask)) == Sum(rows, InitialIf(mask))
    ensures Eligible(rows[i], mask) ==>
              Sum(Pick(rows, i), IssuedIf(mask)) == Sum(rows, IssuedIf(mask)) + 1
              && Sum(Pick(rows, i), RemainingIf(mask)) == Sum(rows, RemainingIf(mask)) - 1
    ensures Sum(Pick(rows, i), OneIf(mask)) == Sum(rows, OneIf(mask))
  {
    var row := rows[i].(remaining := rows[i].remaining - 1);
    SumUpdate(rows, i, row, RemainingOf);
    SumUpdate(rows, i, row, InitialOf);
    SumUpdate(rows, i, row, InitialIf(mask));
    SumUpdate(rows, i, row, IssuedIf(mask));
    SumUpdate(rows, i, row, RemainingIf(mask));
    SumUpdate(rows, i, row, OneIf(mask));
  }

  /** The preferred row is unique. */
  lemma ChoiceIsUnique(rows: seq<Row>, mask: nat, required: uint32, i: nat, j: nat)
    requires IsChoice(rows, mask, required, i) && IsChoice(rows, mask, required, j)
    ensures i == j
  {
    var e, next := Sum(rows, InitialIf(mask)), Sum(rows, IssuedIf(mask)) + 1;
    assert i != j ==> !(Preferred(rows, i, j, e, next) && Preferred(rows, j, i, e, next));
  }

  // ---------------------------------------------------------------- one shard

  /** A shard changes nothing but the remaining counts, each by how often it was picked. */
  ghost predicate Accounted(rows: seq<Row>, after: seq<Row>, picks: multiset<nat>) {
    && |after| == |rows|
    && forall i :: 0 <= i < |rows| ==>
         && after[i].(remaining := rows[i].remaining) == rows[i]
         && after[i].remaining == rows[i].remaining - picks[i]
  }

  /** Every pick of a shard is a row its cohort may serve; the first serves the required
      artifact when there is one. */
  lemma {:induction false} ShardIsCoherent(rows: seq<Row>, mask: nat, required: uint32, picks: seq<nat>)
    requires IsShard(rows, mask, required, picks)
    ensures forall k :: 0 <= k < |picks| ==> picks[k] < |rows| && Eligible(rows[picks[k]], mask)
    ensures picks != [] && required != NO_ARTIFACT ==> rows[picks[0]].frozen == required
    decreases |picks|
  {
    hide Sum;
    if picks != [] {
      ShardIsCoherent(Pick(rows, picks[0]), mask, NO_ARTIFACT, picks[1..]);
      forall k | 0 <= k < |picks| ensures picks[k] < |rows| && Eligible(rows[picks[k]], mask) {
        if k > 0 {
          assert picks[k] == picks[1..][k - 1];
        }
      }
    }
  }

  lemma {:induction false} ShardAccounts(rows: seq<Row>, artifactCount: nat, mask: nat, required: uint32,
                                         picks: seq<nat>)
    requires RowsOk(rows, artifactCount) && IsShard(rows, mask, required, picks)
    ensures var after := ApplyShard(rows, mask, required, picks);
      && RowsOk(after, artifactCount)
      && Accounted(rows, after, multiset(picks))
      && Sum(after, RemainingOf) == Sum(rows, RemainingOf) - |picks|
    decreases |picks|
  {
    hide Sum, RowsOk;
    if picks != [] {
      PickLaws(rows, artifactCount, mask, picks[0]);
      ShardAccounts(Pick(rows, picks[0]), artifactCount, mask, NO_ARTIFACT, picks[1..]);
      assert picks == [picks[0]] + picks[1..];
    }
  }

  /** One request has one outcome: the same cohort and length force the same picks. */
  lemma {:induction false} ShardIsUnique(rows: seq<Row>, mask: nat, required: uint32, p: seq<nat>, q: seq<nat>)
    requires IsShard(rows, mask, required, p) && IsShard(rows, mask, required, q) && |p| == |q|
    ensures p == q
    decreases |p|
  {
    if p != [] {
      ChoiceIsUnique(rows, mask, required, p[0], q[0]);
      ShardIsUnique(Pick(rows, p[0]), mask, NO_ARTIFACT, p[1..], q[1..]);
      assert p == [p[0]] + p[1..] && q == [q[0]] + q[1..];
    }
  }

  /** A whole request has one outcome: cohort and picks are forced. */
  lemma TakeHasOneOutcome(rows: seq<Row>, artifactCount: nat, gameCount: nat, limit: nat, required: uint32,
                          m: nat, p: seq<nat>, n: nat, q: seq<nat>)
    requires RowsOk(rows, artifactCount) && |p| == |q| == gameCount
    requires IsBestMask(rows, artifactCount, m, gameCount, limit, required) && IsShard(rows, m, required, p)
    requires IsBestMask(rows, artifactCount, n, gameCount, limit, required) && IsShard(rows, n, required, q)
    ensures m == n && p == q
  {
    hide IsBestMask, IsShard, RowsOk;
    BestMaskIsUnique(rows, artifactCount, m, n, gameCount, limit, required);
    ShardIsUnique(rows, m, required, p, q);
  }

  /** The slots a mask admits, shifted up by `base`. */
  ghost function Bits(mask: nat, base: nat): (slots: set<nat>)
    ensures |slots| <= Popcount(mask)
    ensures forall s: nat :: InMask(mask, s) ==> base + s in slots
    decreases mask
  {
    if mask == 0 then
      NoBits();
      {}
    else
      assert forall s: nat :: s > 0 && InMask(mask, s) ==> InMask(mask / 2, s - 1);
      (if mask % 2 == 1 then {base} else {}) + Bits(mask / 2, base + 1)
  }

  lemma NoBits()
    ensures forall s: nat :: !InMask(0, s)
  {
    forall s: nat ensures !InMask(0, s) {
      NoBit(s);
    }
  }

  lemma {:induction false} NoBit(s: nat)
    ensures !InMask(0, s)
  {
    if s > 0 {
      NoBit(s - 1);
    }
  }

  /** The artifacts of a shard's cohorts. */
  ghost function CohortsOf(rows: seq<Row>, picks: seq<nat>): (slots: set<nat>)
    requires forall k :: 0 <= k < |picks| ==> picks[k] < |rows|
    ensures forall s :: s in slots <==> exists k :: 0 <= k < |picks| && rows[picks[k]].cohort == s && s != NO_ARTIFACT
  {
    if picks == [] then {}
    else
      var n := |picks| - 1;
      assert picks == picks[..n] + [picks[n]];
      CohortsOf(rows, picks[..n]) + if rows[picks[n]].cohort == NO_ARTIFACT then {} else {rows[picks[n]].cohort}
  }

  /** However many games a request takes, they touch at most `limit` artifacts' cohorts. */
  lemma TakeIsCoherent(rows: seq<Row>, artifactCount: nat, gameCount: nat, limit: nat, required: uint32, mask: nat,
                       picks: seq<nat>)
    requires IsBestMask(rows, artifactCount, mask, gameCount, limit, required) && IsShard(rows, mask, required, picks)
    ensures forall k :: 0 <= k < |picks| ==> picks[k] < |rows|
    ensures |CohortsOf(rows, picks)| <= limit
  {
    hide IsShard, Sum;
    ShardIsCoherent(rows, mask, required, picks);
    forall s | s in CohortsOf(rows, picks) ensures s in Bits(mask, 0) {
      var k :| 0 <= k < |picks| && rows[picks[k]].cohort == s && s != NO_ARTIFACT;
      assert Eligible(rows[picks[k]], mask) && 0 + s in Bits(mask, 0);
    }
    SubsetSize(CohortsOf(rows, picks), Bits(mask, 0));
  }

  // ---------------------------------------------------------------- fairness of one pick

  ghost function DeficitIf(mask: nat, e: int, next: int): Row -> int {
    (row: Row) => if Eligible(row, mask) then Deficit(row, e, next) else 0
  }

  lemma {:induction false} SumDeficit(rows: seq<Row>, mask: nat, e: int, next: int)
    ensures Sum(rows, DeficitIf(mask, e, next))
            == Sum(rows, InitialIf(mask)) * next - Sum(rows, IssuedIf(mask)) * e
  {
    if rows != [] {
      var rest, row := rows[..|rows| - 1], rows[|rows| - 1];
      SumDeficit(rest, mask, e, next);
      Distribute(Sum(rest, InitialIf(mask)), InitialIf(mask)(row), next);
      Distribute(Sum(rest, IssuedIf(mask)), IssuedIf(mask)(row), e);
    }
  }

  lemma Distribute(a: int, b: int, c: int)
    ensures (a + b) * c == a * c + b * c
  {
  }

  lemma ExhaustedHasNoDeficit(initial: nat, e: nat, next: nat)
    requires next <= e
    ensures initial * next - initial * e <= 0
  {
    MulMonotone(next, e, initial);
  }

  lemma NobodyBehind(rows: seq<Row>, mask: nat, i: nat, e: nat, next: nat)
    requires i < |rows| && next <= e && Deficit(rows[i], e, next) <= 0
    requires forall j :: 0 <= j < |rows| && j != i && Candidate(rows[j], mask, NO_ARTIFACT) ==>
      Preferred(rows, i, j, e, next)
    ensures Sum(rows, DeficitIf(mask, e, next)) <= 0
  {
    forall j | 0 <= j < |rows| ensures DeficitIf(mask, e, next)(rows[j]) <= 0 {
      if Eligible(rows[j], mask) {
        if rows[j].remaining == 0 {
          ExhaustedHasNoDeficit(rows[j].initial, e, next);
        } else {
          assert Candidate(rows[j], mask, NO_ARTIFACT);
        }
      }
    }
    SumNonPositive(rows, DeficitIf(mask, e, next));
  }

  lemma IssuedBelowTotal(rows: seq<Row>, artifactCount: nat, mask: nat, i: nat)
    requires RowsOk(rows, artifactCount) && i < |rows| && Candidate(rows[i], mask, NO_ARTIFACT)
    ensures 0 <= Sum(rows, IssuedIf(mask)) < Sum(rows, InitialIf(mask))
  {
    SumsFit(rows, artifactCount, mask);
    SumDifference(rows, mask);
    SumDominates(rows, RemainingIf(mask), i);
  }

  lemma NextIsBehind(e: nat, k: nat)
    ensures e * (k + 1) - k * e == e
  {
  }

  /** Every unrestricted pick serves a row that is strictly behind its share. */
  lemma PickedRowIsBehind(rows: seq<Row>, artifactCount: nat, mask: nat, i: nat)
    requires RowsOk(rows, artifactCount) && IsChoice(rows, mask, NO_ARTIFACT, i)
    ensures Deficit(rows[i], Sum(rows, InitialIf(mask)), Sum(rows, IssuedIf(mask)) + 1) > 0
  {
    var e, k := Sum(rows, InitialIf(mask)), Sum(rows, IssuedIf(mask));
    IssuedBelowTotal(rows, artifactCount, mask, i);
    SumDeficit(rows, mask, e, k + 1);
    NextIsBehind(e, k);
    if Deficit(rows[i], e, k + 1) <= 0 {
      NobodyBehind(rows, mask, i, e, k + 1);
    }
  }

  lemma {:induction false} SumNonPositive(rows: seq<Row>, f: Row -> int)
    requires forall i :: 0 <= i < |rows| ==> f(rows[i]) <= 0
    ensures Sum(rows, f) <= 0
  {
    if rows != [] {
      SumNonPositive(rows[..|rows| - 1], f);
    }
  }

  /** No row is ahead of its share by a whole game. */
  ghost predicate NotAhead(rows: seq<Row>, mask: nat) {
    var e, k := Sum(rows, InitialIf(mask)), Sum(rows, IssuedIf(mask));
    forall i :: 0 <= i < |rows| && Eligible(rows[i], mask) ==> Deficit(rows[i], e, k) > -e
  }

  /** No row is behind its share by n - 1 games, for n eligible rows. */
  ghost predicate NotBehind(rows: seq<Row>, mask: nat) {
    var e, k, n := Sum(rows, InitialIf(mask)), Sum(rows, IssuedIf(mask)), Sum(rows, OneIf(mask));
    forall i :: 0 <= i < |rows| && Eligible(rows[i], mask) ==> Deficit(rows[i], e, k) <= (n - 1) * (e - 1)
  }

  lemma DeficitStep(initial: nat, issued: int, e: int, k: int)
    ensures initial * (k + 1) - (issued + 1) * e == (initial * (k + 1) - issued * e) - e
    ensures initial * (k + 1) - issued * e >= initial * k - issued * e
  {
    Distribute(issued, 1, e);
    Distribute(k, 1, initial);
  }

  lemma PickKeepsNotAhead(rows: seq<Row>, artifactCount: nat, mask: nat, i: nat)
    requires RowsOk(rows, artifactCount) && IsChoice(rows, mask, NO_ARTIFACT, i) && NotAhead(rows, mask)
    ensures NotAhead(Pick(rows, i), mask)
  {
    var e, k := Sum(rows, InitialIf(mask)), Sum(rows, IssuedIf(mask));
    PickLaws(rows, artifactCount, mask, i);
    PickedRowIsBehind(rows, artifactCount, mask, i);
    var after := Pick(rows, i);
    forall j | 0 <= j < |after| && Eligible(after[j], mask) ensures Deficit(after[j], e, k + 1) > -e {
      DeficitStep(rows[j].initial, Issued(rows[j]), e, k);
    }
  }

  /** The deficits of the eligible rows sum to zero, so nobody far behind means nobody
      far ahead and conversely. */
  lemma NotAheadImpliesNotBehind(rows: seq<Row>, artifactCount: nat, mask: nat)
    requires RowsOk(rows, artifactCount) && NotAhead(rows, mask)
    ensures NotBehind(rows, mask)
  {
    hide RowsOk, Sum, Deficit, NotAhead, Eligible;
    var e, k, n := Sum(rows, InitialIf(mask)), Sum(rows, IssuedIf(mask)), Sum(rows, OneIf(mask));
    forall i | 0 <= i < |rows| && Eligible(rows[i], mask) ensures Deficit(rows[i], e, k) <= (n - 1) * (e - 1) {
      RowNotFarBehind(rows, mask, i, e, k, n);
    }
  }

  lemma RowNotFarBehind(rows: seq<Row>, mask: nat, i: nat, e: int, k: int, n: int)
    requires NotAhead(rows, mask) && i < |rows| && Eligible(rows[i], mask)
    requires e == Sum(rows, InitialIf(mask)) && k == Sum(rows, IssuedIf(mask)) && n == Sum(rows, OneIf(mask))
    ensures Deficit(rows[i], e, k) <= (n - 1) * (e - 1)
  {
    hide Sum, Deficit, Eligible;
    SumDeficit(rows, mask, e, k);
    SumShifted(rows, mask, e, k);
    SumDominates(rows, ShiftedIf(mask, e, k), i);
    OneLess(e * k - k * e, Deficit(rows[i], e, k), n, e - 1);
  }

  lemma OneLess(zero: int, d: int, n: int, m: int)
    requires zero == 0 && d + m <= zero + n * m
    ensures d <= (n - 1) * m
  {
    Distribute(n, -1, m);
  }

  ghost function ShiftedIf(mask: nat, e: int, k: int): Row -> int {
    (row: Row) => if Eligible(row, mask) then Deficit(row, e, k) + (e - 1) else 0
  }

  lemma {:induction false} SumShifted(rows: seq<Row>, mask: nat, e: int, k: int)
    ensures Sum(rows, ShiftedIf(mask, e, k)) == Sum(rows, DeficitIf(mask, e, k)) + Sum(rows, OneIf(mask)) * (e - 1)
  {
    if rows != [] {
      var rest, row := rows[..|rows| - 1], rows[|rows| - 1];
      SumShifted(rest, mask, e, k);
      Distribute(Sum(rest, OneIf(mask)), OneIf(mask)(row), e - 1);
    }
  }

  // ---------------------------------------------------------------- histories

  datatype Shard = Shard(mask: nat, required: uint32, picks: seq<nat>)

  /** The shards a scheduler emitted, in order, starting from `rows`. */
  ghost predicate IsHistory(rows: seq<Row>, history: seq<Shard>)
    decreases |history|
  {
    history == [] ||
    (IsShard(rows, history[0].mask, history[0].required, history[0].picks) &&
     IsHistory(ApplyShard(rows, history[0].mask, history[0].required, history[0].picks), history[1..]))
  }

  ghost function Final(rows: seq<Row>, history: seq<Shard>): seq<Row>
    requires IsHistory(rows, history)
    decreases |history|
  {
    if history == [] then rows
    else Final(ApplyShard(rows, history[0].mask, history[0].required, history[0].picks), history[1..])
  }

  ghost function Emitted(history: seq<Shard>): multiset<nat> {
    if history == [] then multiset{} else multiset(history[0].picks) + Emitted(history[1..])
  }

  predicate Fresh(rows: seq<Row>) {
    forall i :: 0 <= i < |rows| ==> rows[i].remaining == rows[i].initial
  }

  lemma {:induction false} HistoryAccounts(rows: seq<Row>, artifactCount: nat, history: seq<Shard>)
    requires RowsOk(rows, artifactCount) && IsHistory(rows, history)
    ensures RowsOk(Final(rows, history), artifactCount)
    ensures Accounted(rows, Final(rows, history), Emitted(history))
    decreases |history|
  {
    if history != [] {
      var h := history[0];
      ShardAccounts(rows, artifactCount, h.mask, h.required, h.picks);
      HistoryAccounts(ApplyShard(rows, h.mask, h.required, h.picks), artifactCount, history[1..]);
    }
  }

  /** Over any history, row i was emitted exactly as often as its counter says, and never
      more often than its quota. */
  lemma EmissionsMatchCounters(rows: seq<Row>, artifactCount: nat, history: seq<Shard>, i: nat)
    requires RowsOk(rows, artifactCount) && Fresh(rows) && IsHistory(rows, history) && i < |rows|
    ensures |Final(rows, history)| == |rows|
    ensures Emitted(history)[i] == Issued(Final(rows, history)[i]) <= rows[i].initial
  {
    HistoryAccounts(rows, artifactCount, history);
    assert Final(rows, history)[i].remaining == rows[i].remaining - Emitted(history)[i];
  }

  ghost predicate SameEligible(rows: seq<Row>, a: nat, b: nat) {
    forall i :: 0 <= i < |rows| ==> (Eligible(rows[i], a) <==> Eligible(rows[i], b))
  }

  lemma ChoiceCongruent(rows: seq<Row>, a: nat, b: nat, required: uint32, i: nat)
    requires SameEligible(rows, a, b) && IsChoice(rows, a, required, i)
    ensures IsChoice(rows, b, required, i)
  {
    SumCongruent(rows, InitialIf(a), InitialIf(b));
    SumCongruent(rows, IssuedIf(a), IssuedIf(b));
  }

  lemma {:induction false} ShardKeepsNotAhead(rows: seq<Row>, artifactCount: nat, mask: nat, m: nat, picks: seq<nat>)
    requires RowsOk(rows, artifactCount) && IsShard(rows, m, NO_ARTIFACT, picks)
    requires SameEligible(rows, m, mask) && NotAhead(rows, mask)
    ensures NotAhead(ApplyShard(rows, m, NO_ARTIFACT, picks), mask)
    decreases |picks|
  {
    if picks != [] {
      ChoiceCongruent(rows, m, mask, NO_ARTIFACT, picks[0]);
      PickKeepsNotAhead(rows, artifactCount, mask, picks[0]);
      PickLaws(rows, artifactCount, mask, picks[0]);
      ShardKeepsNotAhead(Pick(rows, picks[0]), artifactCount, mask, m, picks[1..]);
    }
  }

  lemma {:induction false} HistoryKeepsNotAhead(rows: seq<Row>, artifactCount: nat, mask: nat, history: seq<Shard>)
    requires RowsOk(rows, artifactCount) && IsHistory(rows, history) && NotAhead(rows, mask)
    requires forall h :: h in history ==> h.required == NO_ARTIFACT && SameEligible(rows, h.mask, mask)
    ensures NotAhead(Final(rows, history), mask)
    decreases |history|
  {
    if history != [] {
      var h := history[0];
      var after := ApplyShard(rows, h.mask, h.required, h.picks);
      assert h in history;
      ShardAccounts(rows, artifactCount, h.mask, h.required, h.picks);
      ShardKeepsNotAhead(rows, artifactCount, mask, h.mask, h.picks);
      forall g | g in history[1..] ensures g.required == NO_ARTIFACT && SameEligible(after, g.mask, mask) {
        assert SameEligible(rows, g.mask, mask);
      }
      HistoryKeepsNotAhead(after, artifactCount, mask, history[1..]);
    }
  }

  lemma FreshIsNotAhead(rows: seq<Row>, artifactCount: nat, mask: nat)
    requires RowsOk(rows, artifactCount) && Fresh(rows)
    ensures NotAhead(rows, mask)
  {
    SumCongruentZero(rows, mask);
    forall i | 0 <= i < |rows| && Eligible(rows[i], mask) ensures Sum(rows, InitialIf(mask)) > 0 {
      SumDominates(rows, InitialIf(mask), i);
    }
  }

  lemma {:induction false} SumCongruentZero(rows: seq<Row>, mask: nat)
    requires Fresh(rows)
    ensures Sum(rows, IssuedIf(mask)) == 0
  {
    if rows != [] {
      SumCongruentZero(rows[..|rows| - 1], mask);
    }
  }

  /** Proportional fairness over any history of unrestricted requests on one eligible set
      with total e and n rows: after k games every row satisfies
          issued * e < initial * k + e   and   initial * k <= issued * e + (n - 1) * (e - 1). */
  lemma HistoriesAreFair(rows: seq<Row>, artifactCount: nat, mask: nat, history: seq<Shard>, i: nat)
    requires RowsOk(rows, artifactCount) && Fresh(rows) && IsHistory(rows, history)
    requires forall h :: h in history ==> h.required == NO_ARTIFACT && SameEligible(rows, h.mask, mask)
    requires i < |rows| && Eligible(rows[i], mask)
    ensures var after := Final(rows, history);
      var e, k, n := Sum(after, InitialIf(mask)), Sum(after, IssuedIf(mask)), Sum(after, OneIf(mask));
      && |after| == |rows|
      && Issued(after[i]) * e < rows[i].initial * k + e
      && rows[i].initial * k <= Issued(after[i]) * e + (n - 1) * (e - 1)
  {
    FreshIsNotAhead(rows, artifactCount, mask);
    HistoryKeepsNotAhead(rows, artifactCount, mask, history);
    HistoryAccounts(rows, artifactCount, history);
    NotAheadImpliesNotBehind(Final(rows, history), artifactCount, mask);
  }

  /** Without cohort slots every request sees the same eligible set, so the bound covers
      every history of requests that name no artifact. */
  lemma UncohortedHistoriesAreFair(rows: seq<Row>, artifactCount: nat, history: seq<Shard>, i: nat)
    requires RowsOk(rows, artifactCount) && Fresh(rows) && IsHistory(rows, history) && i < |rows|
    requires forall k :: 0 <= k < |rows| ==> rows[k].cohort == NO_ARTIFACT
    requires forall h :: h in history ==> h.required == NO_ARTIFACT
    ensures var after := Final(rows, history);
      var e, k := Sum(after, InitialOf), Sum(after, InitialOf) - Sum(after, RemainingOf);
      && |after| == |rows|
      && Issued(after[i]) * e < rows[i].initial * k + e
      && rows[i].initial * k <= Issued(after[i]) * e + (|rows| - 1) * (e - 1)
  {
    hide RowsOk, Sum, IsHistory, Final, Fresh;
    HistoriesAreFair(rows, artifactCount, 0, history, i);
    HistoryAccounts(rows, artifactCount, history);
    UncohortedTotals(Final(rows, history));
  }

  lemma UncohortedTotals(rows: seq<Row>)
    requires forall k :: 0 <= k < |rows| ==> rows[k].cohort == NO_ARTIFACT
    ensures Sum(rows, InitialIf(0)) == Sum(rows, InitialOf)
    ensures Sum(rows, IssuedIf(0)) == Sum(rows, InitialOf) - Sum(rows, RemainingOf)
    ensures Sum(rows, OneIf(0)) == |rows|
  {
    SumCongruent(rows, InitialIf(0), InitialOf);
    SumCongruent(rows, RemainingIf(0), RemainingOf);
    SumDifference(rows, 0);
    CountAll(rows);
  }

  lemma {:induction false} CountAll(rows: seq<Row>)
    requires forall k :: 0 <= k < |rows| ==> rows[k].cohort == NO_ARTIFACT
    ensures Sum(rows, OneIf(0)) == |rows|
  {
    if rows != [] {
      CountAll(rows[..|rows| - 1]);
    }
  }
}
