/** Laws of the quota model: exact accounting, absence of 128-bit overflow, the progress
    order on cohorts, and proportional fairness. */
module QuotaLaws {
  import opened Common
  import opened QuotaModel

  // ---------------------------------------------------------------- sums

  lemma {:induction false} SumUpdate(rows: seq<Row>, i: nat, row: Row, f: Row -> int)
    requires i < |rows|
    ensures Sum(rows[i := row], f) == Sum(rows, f) - f(rows[i]) + f(row)
  {
    var n := |rows| - 1;
    if i == n {
      assert rows[i := row][..n] == rows[..n];
    } else {
      assert rows[i := row][..n] == rows[..n][i := row];
      SumUpdate(rows[..n], i, row, f);
    }
  }

  lemma {:induction false} SumMonotone(rows: seq<Row>, f: Row -> int, g: Row -> int)
    requires forall i :: 0 <= i < |rows| ==> f(rows[i]) <= g(rows[i])
    ensures Sum(rows, f) <= Sum(rows, g)
  {
    if rows != [] {
      SumMonotone(rows[..|rows| - 1], f, g);
    }
  }

  lemma {:induction false} SumNonNegative(rows: seq<Row>, f: Row -> int)
    requires forall i :: 0 <= i < |rows| ==> 0 <= f(rows[i])
    ensures 0 <= Sum(rows, f)
  {
    if rows != [] {
      SumNonNegative(rows[..|rows| - 1], f);
    }
  }

  /** A member contributes at most the whole sum; two different members at most together. */
  lemma {:induction false} SumDominates(rows: seq<Row>, f: Row -> int, i: nat)
    requires i < |rows| && forall k :: 0 <= k < |rows| ==> 0 <= f(rows[k])
    ensures f(rows[i]) <= Sum(rows, f)
  {
    var n := |rows| - 1;
    SumNonNegative(rows[..n], f);
    if i < n {
      SumDominates(rows[..n], f, i);
    }
  }

  lemma {:induction false} SumDominatesTwo(rows: seq<Row>, f: Row -> int, i: nat, j: nat)
    requires i < |rows| && j < |rows| && i != j && forall k :: 0 <= k < |rows| ==> 0 <= f(rows[k])
    ensures f(rows[i]) + f(rows[j]) <= Sum(rows, f)
  {
    var n := |rows| - 1;
    if i == n {
      SumDominates(rows[..n], f, j);
    } else if j == n {
      SumDominates(rows[..n], f, i);
    } else {
      SumDominatesTwo(rows[..n], f, i, j);
    }
  }

  lemma {:induction false} SumDifference(rows: seq<Row>, mask: nat)
    ensures Sum(rows, IssuedIf(mask)) == Sum(rows, InitialIf(mask)) - Sum(rows, RemainingIf(mask))
  {
    if rows != [] {
      SumDifference(rows[..|rows| - 1], mask);
    }
  }

  /** Every partial sum of a valid scheduler fits in 64 bits. */
  lemma SumsFit(rows: seq<Row>, artifactCount: nat, mask: nat)
    requires RowsOk(rows, artifactCount)
    ensures 0 <= Sum(rows, IssuedIf(mask)) <= Sum(rows, InitialIf(mask)) <= UINT64_MAX
    ensures 0 <= Sum(rows, RemainingIf(mask)) <= Sum(rows, RemainingOf) <= UINT64_MAX
    ensures 0 <= Sum(rows, CohortIssuedIf(mask)) <= Sum(rows, CohortInitialIf(mask)) <= UINT64_MAX
  {
    SumNonNegative(rows, IssuedIf(mask));
    SumMonotone(rows, IssuedIf(mask), InitialIf(mask));
    SumMonotone(rows, InitialIf(mask), InitialOf);
    SumNonNegative(rows, RemainingIf(mask));
    SumMonotone(rows, RemainingIf(mask), RemainingOf);
    SumMonotone(rows, RemainingOf, InitialOf);
    SumNonNegative(rows, CohortIssuedIf(mask));
    SumMonotone(rows, CohortIssuedIf(mask), CohortInitialIf(mask));
    SumMonotone(rows, CohortInitialIf(mask), InitialOf);
  }

  lemma {:induction false} PrefixOk(rows: seq<Row>, f: Row -> int, n: nat)
    requires n <= |rows| && forall k :: 0 <= k < |rows| ==> 0 <= f(rows[k])
    ensures Sum(rows[..n], f) <= Sum(rows, f)
    decreases |rows| - n
  {
    if n == |rows| {
      assert rows[..n] == rows;
    } else {
      PrefixOk(rows, f, n + 1);
      assert rows[..n + 1][..n] == rows[..n];
    }
  }

  // ---------------------------------------------------------------- no overflow

  lemma MulBound(a: nat, b: nat, m: nat, n: nat)
    requires a <= m && b <= n
    ensures a * b <= m * n
  {
    assert a * b <= m * b <= m * n;
  }

  /** Scaled cohort fractions never wrap, so the comparison is the order on fractions. */
  lemma EarlierProgressIsExact(rows: seq<Row>, artifactCount: nat, a: nat, b: nat, pa: MaskProgress, pb: MaskProgress)
    requires RowsOk(rows, artifactCount) && ProgressIs(rows, a, pa) && ProgressIs(rows, b, pb)
    ensures pa.issued * pb.initial < TWO_TO_128 && pb.issued * pa.initial < TWO_TO_128
    ensures EarlierProgress(pa, a, pb, b) <==> Earlier(rows, a, b)
    ensures EarlierProgress(pa, a, pb, b) <==>
      if pa.initial > 0 && pb.initial > 0 then
        pa.issued * pb.initial < pb.issued * pa.initial || (pa.issued * pb.initial == pb.issued * pa.initial && a < b)
      else pa.initial > 0 || (pb.initial == 0 && a < b)
  {
    hide RowsOk, Sum, U128;
    ProductsCompare(pa, a, pb, b);
    CohortSums(rows, artifactCount, a);
    CohortSums(rows, artifactCount, b);
  }

  lemma CohortSums(rows: seq<Row>, artifactCount: nat, mask: nat)
    requires RowsOk(rows, artifactCount)
    ensures Sum(rows, CohortInitialIf(mask)) >= 0
  {
    SumsFit(rows, artifactCount, mask);
  }

  lemma ProductsCompare(pa: MaskProgress, a: nat, pb: MaskProgress, b: nat)
    ensures pa.issued * pb.initial < TWO_TO_128 && pb.issued * pa.initial < TWO_TO_128
    ensures EarlierProgress(pa, a, pb, b) <==>
      if pa.initial > 0 && pb.initial > 0 then
        pa.issued * pb.initial < pb.issued * pa.initial || (pa.issued * pb.initial == pb.issued * pa.initial && a < b)
      else pa.initial > 0 || (pb.initial == 0 && a < b)
  {
    hide U128;
    MulBound(pa.issued, pb.initial, UINT64_MAX, UINT64_MAX);
    MulBound(pb.issued, pa.initial, UINT64_MAX, UINT64_MAX);
    SmallIsExact(pa.issued * pb.initial);
    SmallIsExact(pb.issued * pa.initial);
  }

  lemma SmallIsExact(x: nat)
    requires x < TWO_TO_128
    ensures U128(x) == x
  {
  }

  lemma TwoRowsFit(rows: seq<Row>, artifactCount: nat, mask: nat, i: nat, j: nat)
    requires RowsOk(rows, artifactCount) && i < |rows| && j < |rows| && i != j
    requires Eligible(rows[i], mask) && Eligible(rows[j], mask)
    ensures rows[i].initial + Issued(rows[j]) <= Sum(rows, InitialIf(mask)) <= UINT64_MAX
    ensures Issued(rows[j]) >= 0
  {
    SumsFit(rows, artifactCount, mask);
    SumDominatesTwo(rows, InitialIf(mask), i, j);
  }

  ghost predicate ScoreFits(left: Row, right: Row, e: nat, next: nat) {
    0 <= left.initial * next + Issued(right) * e <= e * e < TWO_TO_128
  }

  ghost predicate DecidesSignedOrder(left: Row, li: nat, right: Row, ri: nat, e: nat, next: nat)
    requires left.remaining <= left.initial && right.remaining <= right.initial
  {
    GreaterRowDeficit(left, li, right, ri, e, next) <==>
    Deficit(left, e, next) > Deficit(right, e, next) || (Deficit(left, e, next) == Deficit(right, e, next) && li < ri)
  }

  lemma PairFits(left: Row, right: Row, e: nat, next: nat)
    requires Issued(right) >= 0 && left.initial + Issued(right) <= e && next <= e <= UINT64_MAX
    ensures ScoreFits(left, right, e, next)
  {
    hide Issued;
    ScoreBound(left.initial, next, Issued(right), e);
  }

  lemma PairDecides(left: Row, li: nat, right: Row, ri: nat, e: nat, next: nat)
    requires left.remaining <= left.initial && right.remaining <= right.initial
    requires ScoreFits(left, right, e, next) && ScoreFits(right, left, e, next)
    ensures DecidesSignedOrder(left, li, right, ri, e, next)
  {
    SmallIsExact(left.initial * next + Issued(right) * e);
    SmallIsExact(right.initial * next + Issued(left) * e);
  }

  /** Neither score of two distinct eligible rows exceeds the square of the eligible total,
      and the unsigned comparison decides the signed deficit order. */
  lemma RowDeficitIsExact(rows: seq<Row>, artifactCount: nat, mask: nat, i: nat, j: nat, next: nat)
    requires RowsOk(rows, artifactCount) && i < |rows| && j < |rows| && i != j
    requires Eligible(rows[i], mask) && Eligible(rows[j], mask)
    requires next <= Sum(rows, InitialIf(mask))
    ensures ScoreFits(rows[i], rows[j], Sum(rows, InitialIf(mask)), next)
    ensures DecidesSignedOrder(rows[i], i, rows[j], j, Sum(rows, InitialIf(mask)), next)
  {
    var e := Sum(rows, InitialIf(mask));
    TwoRowsFit(rows, artifactCount, mask, i, j);
    TwoRowsFit(rows, artifactCount, mask, j, i);
    PairFits(rows[i], rows[j], e, next);
    PairFits(rows[j], rows[i], e, next);
    PairDecides(rows[i], i, rows[j], j, e, next);
  }

  lemma ScoreBound(a: nat, next: nat, b: nat, e: nat)
    requires next <= e <= UINT64_MAX && a + b <= e
    ensures 0 <= a * next + b * e <= e * e < TWO_TO_128
  {
    MulBound(0, 0, a, next);
    MulBound(0, 0, b, e);
    MulBound(a, next, a, e);
    Distribute(a, b, e);
    MulBound(a + b, e, e, e);
    MulBound(e, e, UINT64_MAX, UINT64_MAX);
  }

  lemma Distribute(a: nat, b: nat, e: nat)
    ensures a * e + b * e == (a + b) * e
  {
  }

  // ---------------------------------------------------------------- the progress order

  lemma ProgressSigns(rows: seq<Row>, artifactCount: nat, m: nat)
    requires RowsOk(rows, artifactCount)
    ensures 0 <= Sum(rows, CohortIssuedIf(m)) <= Sum(rows, CohortInitialIf(m))
  {
    SumsFit(rows, artifactCount, m);
  }

  /** Cross-multiplied fractions compose: s/i is the issued share of a cohort. */
  lemma FractionTransitive(sa: nat, ia: nat, sb: nat, ib: nat, sc: nat, ic: nat)
    requires ia > 0 && ib > 0 && ic > 0
    requires sa * ib <= sb * ia && sb * ic <= sc * ib
    ensures sa * ic <= sc * ia
    ensures sa * ib < sb * ia || sb * ic < sc * ib ==> sa * ic < sc * ia
    ensures sa * ib == sb * ia && sb * ic == sc * ib ==> sa * ic == sc * ia
  {
    var x, y, z := sa * ic, sb * ia * ic, sc * ia;
    assert sa * ib * ic <= sb * ia * ic by { MulBound(sa * ib, ic, sb * ia, ic); }
    assert sb * ic * ia <= sc * ib * ia by { MulBound(sb * ic, ia, sc * ib, ia); }
    assert x * ib == sa * ib * ic && z * ib == sc * ib * ia && sb * ia * ic == sb * ic * ia;
    assert x * ib <= z * ib;
    CancelFactor(x, z, ib);
    if sa * ib < sb * ia {
      MulStrict(sa * ib, sb * ia, ic);
      CancelStrict(x, z, ib);
    }
    if sb * ic < sc * ib {
      MulStrict(sb * ic, sc * ib, ia);
      CancelStrict(x, z, ib);
    }
    if sa * ib == sb * ia && sb * ic == sc * ib {
      assert z * ib <= x * ib;
      CancelFactor(z, x, ib);
    }
  }

  lemma CancelFactor(x: int, y: int, k: nat)
    requires k > 0 && x * k <= y * k
    ensures x <= y
  {
    if x > y {
      MulStrict(y, x, k);
    }
  }

  lemma CancelStrict(x: int, y: int, k: nat)
    requires k > 0 && x * k < y * k
    ensures x < y
  {
    if x >= y {
      MulMonotone(y, x, k);
    }
  }

  /** The progress order is a strict total order on cohorts. */
  lemma EarlierIsStrictTotalOrder(rows: seq<Row>, artifactCount: nat, a: nat, b: nat, c: nat)
    requires RowsOk(rows, artifactCount)
    ensures !Earlier(rows, a, a)
    ensures a != b ==> (Earlier(rows, a, b) <==> !Earlier(rows, b, a))
    ensures Earlier(rows, a, b) && Earlier(rows, b, c) ==> Earlier(rows, a, c)
  {
    ProgressSigns(rows, artifactCount, a);
    ProgressSigns(rows, artifactCount, b);
    ProgressSigns(rows, artifactCount, c);
    var ia, ib, ic := Sum(rows, CohortInitialIf(a)), Sum(rows, CohortInitialIf(b)), Sum(rows, CohortInitialIf(c));
    if Earlier(rows, a, b) && Earlier(rows, b, c) && ia > 0 && ib > 0 && ic > 0 {
      FractionTransitive(Sum(rows, CohortIssuedIf(a)), ia, Sum(rows, CohortIssuedIf(b)), ib,
                         Sum(rows, CohortIssuedIf(c)), ic);
    }
  }

  /** The subset scan has one possible answer. */
  lemma BestMaskIsUnique(rows: seq<Row>, artifactCount: nat, m: nat, n: nat, gameCount: nat, limit: nat,
                         required: uint32)
    requires RowsOk(rows, artifactCount)
    requires IsBestMask(rows, artifactCount, m, gameCount, limit, required)
    requires IsBestMask(rows, artifactCount, n, gameCount, limit, required)
    ensures m == n
  {
    EarlierIsStrictTotalOrder(rows, artifactCount, m, n, m);
  }

  // ---------------------------------------------------------------- feasibility

  /** Admitting more artifacts never makes a request infeasible, within the limit. */
  lemma FeasibleIsMonotone(rows: seq<Row>, artifactCount: nat, a: nat, b: nat, gameCount: nat, limit: nat,
                           required: uint32)
    requires RowsOk(rows, artifactCount) && Feasible(rows, artifactCount, a, gameCount, limit, required)
    requires Submask(a, b) && b < Pow2(artifactCount) && Popcount(b) <= limit
    ensures Feasible(rows, artifactCount, b, gameCount, limit, required)
  {
    SumMonotone(rows, RemainingIf(a), RemainingIf(b));
    if required != NO_ARTIFACT {
      var i :| 0 <= i < |rows| && Eligible(rows[i], a) && rows[i].frozen == required && rows[i].remaining > 0;
      assert Eligible(rows[i], b);
    }
  }

  lemma {:induction false} FullMask(n: nat, s: nat)
    requires s < n
    ensures InMask(Pow2(n) - 1, s)
  {
    assert (Pow2(n) - 1) / 2 == Pow2(n - 1) - 1;
    if s > 0 {
      FullMask(n - 1, s - 1);
    }
  }

  lemma {:induction false} PopcountBound(n: nat, mask: nat)
    requires mask < Pow2(n)
    ensures Popcount(mask) <= n
  {
    if mask != 0 {
      PopcountBound(n - 1, mask / 2);
    }
  }

  lemma {:induction false} SumCongruent(rows: seq<Row>, f: Row -> int, g: Row -> int)
    requires forall i :: 0 <= i < |rows| ==> f(rows[i]) == g(rows[i])
    ensures Sum(rows, f) == Sum(rows, g)
  {
    if rows != [] {
      SumCongruent(rows[..|rows| - 1], f, g);
    }
  }

  /** With every artifact admitted and none required, a request is servable exactly when
      enough games remain in total. */
  lemma UnrestrictedRequest(rows: seq<Row>, artifactCount: nat, gameCount: nat)
    requires RowsOk(rows, artifactCount)
    ensures Servable(rows, artifactCount, gameCount, artifactCount, NO_ARTIFACT)
            <==> gameCount <= Sum(rows, RemainingOf)
  {
    var full := Pow2(artifactCount) - 1;
    PopcountBound(artifactCount, full);
    forall i | 0 <= i < |rows| ensures RemainingIf(full)(rows[i]) == RemainingOf(rows[i]) {
      if rows[i].cohort != NO_ARTIFACT {
        FullMask(artifactCount, rows[i].cohort);
      }
    }
    SumCongruent(rows, RemainingIf(full), RemainingOf);
    if gameCount <= Sum(rows, RemainingOf) {
      assert Feasible(rows, artifactCount, full, gameCount, artifactCount, NO_ARTIFACT);
    }
    if mask :| Feasible(rows, artifactCount, mask, gameCount, artifactCount, NO_ARTIFACT) {
      SumsFit(rows, artifactCount, mask);
    }
  }
}
