/** The quota scheduler object: Create, CanTake and Take as loops over rows and cohort
    masks, proved against the quota model. */
module QuotaScheduler {
  import opened Common
  import opened QuotaModel
  import opened QuotaLaws
  import opened QuotaFairness
  import opened QuotaSelection

  datatype RowSpec = RowSpec(gameCount: uint64, frozen: uint32, cohort: uint32)

  datatype Code = Ok | InsufficientCapacity | InvalidArgument

  function FreshRow(spec: RowSpec): Row {
    Row(spec.gameCount, spec.gameCount, spec.frozen, spec.cohort)
  }

  function FreshRows(specs: seq<RowSpec>): (rows: seq<Row>)
    ensures |rows| == |specs| && forall i :: 0 <= i < |specs| ==> rows[i] == FreshRow(specs[i])
  {
    seq(|specs|, i requires 0 <= i < |specs| => FreshRow(specs[i]))
  }

  // ---------------------------------------------------------------- proof helpers

  lemma {:induction false} SomethingRemains(rows: seq<Row>, mask: nat)
    requires Sum(rows, RemainingIf(mask)) > 0
    ensures exists i :: 0 <= i < |rows| && Candidate(rows[i], mask, NO_ARTIFACT)
  {
    var n := |rows| - 1;
    if !Candidate(rows[n], mask, NO_ARTIFACT) {
      SomethingRemains(rows[..n], mask);
      var i :| 0 <= i < n && Candidate(rows[..n][i], mask, NO_ARTIFACT);
      assert rows[i] == rows[..n][i];
    }
  }

  lemma CandidateLeavesRoom(rows: seq<Row>, artifactCount: nat, mask: nat, filter: uint32)
    requires RowsOk(rows, artifactCount) && exists i :: 0 <= i < |rows| && Candidate(rows[i], mask, filter)
    ensures Sum(rows, IssuedIf(mask)) + 1 <= Sum(rows, InitialIf(mask)) <= UINT64_MAX
    ensures Sum(rows, RemainingOf) > 0
  {
    var i :| 0 <= i < |rows| && Candidate(rows[i], mask, filter);
    SumsFit(rows, artifactCount, mask);
    SumDifference(rows, mask);
    SumDominates(rows, RemainingIf(mask), i);
    SumDominates(rows, RemainingOf, i);
  }

  lemma RequiredCandidate(rows: seq<Row>, mask: nat, required: uint32)
    requires required != NO_ARTIFACT && RequiredAvailable(rows, mask, required)
    ensures exists i :: 0 <= i < |rows| && Candidate(rows[i], mask, required)
  {
    var i :| 0 <= i < |rows| && Eligible(rows[i], mask) && rows[i].frozen == required && rows[i].remaining > 0;
    assert Candidate(rows[i], mask, required);
  }

  /** Extending a shard by the next preferred row. */
  lemma {:induction false} ShardAppend(rows: seq<Row>, mask: nat, required: uint32, picks: seq<nat>, i: nat)
    requires IsShard(rows, mask, required, picks)
    requires IsChoice(ApplyShard(rows, mask, required, picks), mask,
                      if picks == [] then required else NO_ARTIFACT, i)
    ensures IsShard(rows, mask, required, picks + [i])
    ensures ApplyShard(rows, mask, required, picks + [i]) == Pick(ApplyShard(rows, mask, required, picks), i)
    decreases |picks|
  {
    if picks == [] {
      assert picks + [i] == [i] && [i][1..] == [];
    } else {
      assert (picks + [i])[1..] == picks[1..] + [i];
      ShardAppend(Pick(rows, picks[0]), mask, NO_ARTIFACT, picks[1..], i);
    }
  }

  lemma RequiredStep(rows: seq<Row>, row: Row, mask: nat, required: uint32)
    ensures RequiredAvailable(rows + [row], mask, required) <==>
            (RequiredAvailable(rows, mask, required) ||
             (Eligible(row, mask) && row.frozen == required && row.remaining > 0))
  {
    var all := rows + [row];
    assert all[|rows|] == row;
    if i :| 0 <= i < |rows| && Eligible(rows[i], mask) && rows[i].frozen == required && rows[i].remaining > 0 {
      assert all[i] == rows[i];
    }
  }

  // ---------------------------------------------------------------- the object

  class CgTrainQuotaScheduler {
    var rows: seq<Row>
    var remaining: uint64
    var artifactCount: nat

    ghost predicate Valid()
      reads this
    {
      RowsOk(rows, artifactCount) && remaining == Sum(rows, RemainingOf)
    }

    constructor (rows: seq<Row>, remaining: uint64, artifactCount: nat)
      ensures this.rows == rows && this.remaining == remaining && this.artifactCount == artifactCount
    {
      this.rows := rows;
      this.remaining := remaining;
      this.artifactCount := artifactCount;
    }

    /** Create succeeds exactly for non-empty rows of positive quota whose slots exist and
        whose total fits in 64 bits; every row then starts with its whole quota. */
    static method Create(specs: seq<RowSpec>, artifactCount: uint32) returns (scheduler: CgTrainQuotaScheduler?)
      requires |specs| <= UINT32_MAX
      ensures scheduler != null <==> RowsOk(FreshRows(specs), artifactCount)
      ensures scheduler != null ==>
                fresh(scheduler) && scheduler.Valid() && scheduler.rows == FreshRows(specs)
                && scheduler.artifactCount == artifactCount && Fresh(scheduler.rows)
    {
      if |specs| == 0 || artifactCount == 0 || artifactCount > MAXIMUM_ARTIFACTS {
        return null;
      }
      ghost var all := FreshRows(specs);
      var rows: seq<Row> := [];
      var remaining: uint64 := 0;
      for index := 0 to |specs|
        invariant rows == all[..index]
        invariant remaining == Sum(rows, InitialOf) == Sum(rows, RemainingOf)
        invariant forall i :: 0 <= i < index ==>
                    0 < rows[i].initial && SlotOk(rows[i].frozen, artifactCount)
                        && SlotOk(rows[i].cohort, artifactCount)
      {
        var row := specs[index];
        assert all[index] == FreshRow(row);
        if row.gameCount == 0 {
          return null;
        }
        if (row.frozen != NO_ARTIFACT && row.frozen >= artifactCount) ||
           (row.cohort != NO_ARTIFACT && row.cohort >= artifactCount) {
          return null;
        }
        assert all[..index + 1][..index] == all[..index];
        if remaining > UINT64_MAX - row.gameCount {
          PrefixOk(all, InitialOf, index + 1);
          return null;
        }
        rows := rows + [FreshRow(row)];
        remaining := remaining + row.gameCount;
      }
      assert rows == all;
      scheduler := new CgTrainQuotaScheduler(rows, remaining, artifactCount);
    }

    /** Games a cohort can still serve, and whether it can serve the required artifact. */
    method Probe(mask: nat, required: uint32) returns (available: uint64, requiredAvailable: bool)
      requires Valid()
      ensures available == Sum(rows, RemainingIf(mask))
      ensures requiredAvailable <==> RequiredAvailable(rows, mask, required)
    {
      available := 0;
      requiredAvailable := required == NO_ARTIFACT;
      SumsFit(rows, artifactCount, mask);
      for index := 0 to |rows|
        invariant available == Sum(rows[..index], RemainingIf(mask))
        invariant requiredAvailable == RequiredAvailable(rows[..index], mask, required)
      {
        var row := rows[index];
        assert rows[..index + 1][..index] == rows[..index];
        RequiredStep(rows[..index], row, mask, required);
        assert rows[..index + 1] == rows[..index] + [row];
        PrefixOk(rows, RemainingIf(mask), index + 1);
        if row.cohort == NO_ARTIFACT || InMask(mask, row.cohort) {
          available := available + row.remaining;
          requiredAvailable := requiredAvailable || (row.frozen == required && row.remaining > 0);
        }
      }
      assert rows[..|rows|] == rows;
    }

    method CohortProgress(mask: nat) returns (progress: MaskProgress)
      requires Valid()
      ensures ProgressIs(rows, mask, progress)
    {
      var initial: uint64, issued: uint64 := 0, 0;
      SumsFit(rows, artifactCount, mask);
      for index := 0 to |rows|
        invariant initial == Sum(rows[..index], CohortInitialIf(mask))
        invariant issued == Sum(rows[..index], CohortIssuedIf(mask))
      {
        var row := rows[index];
        assert rows[..index + 1][..index] == rows[..index];
        PrefixOk(rows, CohortInitialIf(mask), index + 1);
        PrefixOk(rows, CohortIssuedIf(mask), index + 1);
        if row.cohort != NO_ARTIFACT && InMask(mask, row.cohort) {
          initial := initial + row.initial;
          issued := issued + (row.initial - row.remaining);
        }
      }
      assert rows[..|rows|] == rows;
      progress := MaskProgress(initial, issued);
    }

    method CanTake(gameCount: uint32, limit: uint32, required: uint32) returns (possible: bool)
      requires Valid()
      ensures possible <==> ArgumentsOk(artifactCount, gameCount, limit, required)
                            && Servable(rows, artifactCount, gameCount, limit, required)
    {
      if gameCount == 0 || limit == 0 || limit > artifactCount ||
         (required != NO_ARTIFACT && required >= artifactCount) {
        return false;
      }
      for mask := 0 to Pow2(artifactCount)
        invariant forall m :: 0 <= m < mask ==> !Feasible(rows, artifactCount, m, gameCount, limit, required)
      {
        if !(required == NO_ARTIFACT || InMask(mask, required)) || Popcount(mask) > limit {
          continue;
        }
        var available, requiredAvailable := Probe(mask, required);
        if requiredAvailable && available >= gameCount {
          assert Feasible(rows, artifactCount, mask, gameCount, limit, required);
          return true;
        }
      }
      return false;
    }

    /** The subset scan of Take. */
    method BestMask(gameCount: uint32, limit: uint32, required: uint32) returns (found: bool, best: nat)
      requires Valid()
      ensures found <==> Servable(rows, artifactCount, gameCount, limit, required)
      ensures found ==> IsBestMask(rows, artifactCount, best, gameCount, limit, required)
      ensures found && SlotOk(required, artifactCount) ==>
        FurthestBehind(rows, artifactCount, best, gameCount, limit, required)
    {
      hide Sum, InMask, Popcount, Earlier, RowsOk, FurthestBehind;
      best := 0;
      found := false;
      var bestProgress := MaskProgress(0, 0);
      for mask := 0 to Pow2(artifactCount)
        invariant !found ==> forall m :: 0 <= m < mask ==> !Feasible(rows, artifactCount, m, gameCount, limit, required)
        invariant found ==> best < mask && Feasible(rows, artifactCount, best, gameCount, limit, required)
        invariant found ==> ProgressIs(rows, best, bestProgress)
        invariant found ==>
          forall m :: 0 <= m < mask && m != best && Feasible(rows, artifactCount, m, gameCount, limit, required) ==>
            Earlier(rows, best, m)
      {
        if !(required == NO_ARTIFACT || InMask(mask, required)) || Popcount(mask) > limit {
          continue;
        }
        var available, requiredAvailable := Probe(mask, required);
        if !requiredAvailable || available < gameCount {
          continue;
        }
        var progress := CohortProgress(mask);
        if found {
          EarlierProgressIsExact(rows, artifactCount, mask, best, progress, bestProgress);
          forall m | 0 <= m < mask
            ensures Earlier(rows, mask, best) && Earlier(rows, best, m) ==> Earlier(rows, mask, m)
          {
            EarlierIsStrictTotalOrder(rows, artifactCount, mask, best, m);
          }
          EarlierIsStrictTotalOrder(rows, artifactCount, mask, best, mask);
        }
        if !found || EarlierProgress(progress, mask, bestProgress, best) {
          found := true;
          best := mask;
          bestProgress := progress;
        }
      }
      if found && SlotOk(required, artifactCount) {
        BestIsFurthestBehind(rows, artifactCount, best, gameCount, limit, required);
      }
    }

    /** Initial and issued totals of the rows a cohort can serve. */
    method EligibleTotals(mask: nat) returns (initial: uint64, issued: uint64)
      requires Valid()
      ensures initial == Sum(rows, InitialIf(mask)) && issued == Sum(rows, IssuedIf(mask))
    {
      initial, issued := 0, 0;
      SumsFit(rows, artifactCount, mask);
      for index := 0 to |rows|
        invariant initial == Sum(rows[..index], InitialIf(mask))
        invariant issued == Sum(rows[..index], IssuedIf(mask))
      {
        var row := rows[index];
        assert rows[..index + 1][..index] == rows[..index];
        PrefixOk(rows, InitialIf(mask), index + 1);
        PrefixOk(rows, IssuedIf(mask), index + 1);
        if row.cohort == NO_ARTIFACT || InMask(mask, row.cohort) {
          initial := initial + row.initial;
          issued := issued + (row.initial - row.remaining);
        }
      }
      assert rows[..|rows|] == rows;
    }

    /** One scan for the row with the greatest deficit; UINT32_MAX when no row qualifies. */
    method SelectRow(mask: nat, required: uint32, eligibleInitial: uint64, nextIssued: uint64)
      returns (selected: uint32)
      requires Valid() && eligibleInitial == Sum(rows, InitialIf(mask))
      requires nextIssued == Sum(rows, IssuedIf(mask)) + 1 <= eligibleInitial
      ensures selected == UINT32_MAX <==> forall i :: 0 <= i < |rows| ==> !Candidate(rows[i], mask, required)
      ensures selected != UINT32_MAX ==> IsChoice(rows, mask, required, selected)
    {
      selected := UINT32_MAX;
      for index := 0 to |rows|
        invariant selected == UINT32_MAX <==> forall i :: 0 <= i < index ==> !Candidate(rows[i], mask, required)
        invariant selected != UINT32_MAX ==> selected < index && Candidate(rows[selected], mask, required)
        invariant selected != UINT32_MAX ==>
                    forall j :: 0 <= j < index && j != selected && Candidate(rows[j], mask, required)
                                ==> Preferred(rows, selected, j, eligibleInitial, nextIssued)
      {
        var row := rows[index];
        if row.remaining == 0 || (required != NO_ARTIFACT && row.frozen != required) ||
           !(row.cohort == NO_ARTIFACT || InMask(mask, row.cohort)) {
          continue;
        }
        if selected != UINT32_MAX {
          RowDeficitIsExact(rows, artifactCount, mask, index, selected, nextIssued);
        }
        if selected == UINT32_MAX ||
           GreaterRowDeficit(row, index, rows[selected], selected, eligibleInitial, nextIssued) {
          selected := index;
        }
      }
    }

    /** Select the preferred candidate, write its index and charge one game to it.  The
        source throws when there is no candidate; callers show there always is one. */
    method Emit(mask: nat, filter: uint32, eligibleInitial: uint64, eligibleIssued: uint64,
                output: array<uint32>, written: uint32,
                ghost before: seq<Row>, ghost required: uint32, ghost picks: seq<nat>) returns (selected: uint32)
      requires Valid() && written < output.Length
      requires eligibleInitial == Sum(rows, InitialIf(mask)) && eligibleIssued == Sum(rows, IssuedIf(mask))
      requires exists i :: 0 <= i < |rows| && Candidate(rows[i], mask, filter)
      requires IsShard(before, mask, required, picks) && rows == ApplyShard(before, mask, required, picks)
      requires filter == if picks == [] then required else NO_ARTIFACT
      modifies this, output
      ensures Valid() && artifactCount == old(artifactCount) && remaining == old(remaining) - 1
      ensures IsShard(before, mask, required, picks + [selected])
      ensures rows == ApplyShard(before, mask, required, picks + [selected])
      ensures Sum(rows, InitialIf(mask)) == eligibleInitial
      ensures Sum(rows, IssuedIf(mask)) == eligibleIssued + 1 <= UINT64_MAX
      ensures Sum(rows, RemainingIf(mask)) == old(Sum(rows, RemainingIf(mask))) - 1
      ensures output[..] == old(output[..])[written := selected]
    {
      hide RowsOk, Sum, IsShard, ApplyShard;
      CandidateLeavesRoom(rows, artifactCount, mask, filter);
      selected := SelectRow(mask, filter, eligibleInitial, eligibleIssued + 1);
      ShardAppend(before, mask, required, picks, selected);
      PickLaws(rows, artifactCount, mask, selected);
      output[written] := selected;
      rows := rows[selected := rows[selected].(remaining := rows[selected].remaining - 1)];
      remaining := remaining - 1;
    }

    /** The unrestricted picking loop of Take; `first` is what was picked before it. */
    method EmitRest(mask: nat, first: nat, gameCount: uint32, required: uint32, issuedSoFar: uint64,
                    eligibleInitial: uint64, output: array<uint32>, ghost before: seq<Row>, ghost picked: seq<nat>)
      returns (ghost picks: seq<nat>)
      requires Valid() && first == |picked| <= gameCount <= output.Length
      requires required == NO_ARTIFACT || picked != []
      requires IsShard(before, mask, required, picked) && rows == ApplyShard(before, mask, required, picked)
      requires Sum(rows, RemainingIf(mask)) >= gameCount - first
      requires eligibleInitial == Sum(rows, InitialIf(mask)) && issuedSoFar == Sum(rows, IssuedIf(mask))
      requires output[..first] == picked
      modifies this, output
      ensures Valid() && artifactCount == old(artifactCount) && remaining == old(remaining) - (gameCount - first)
      ensures |picks| == gameCount && IsShard(before, mask, required, picks)
      ensures rows == ApplyShard(before, mask, required, picks)
      ensures output[..gameCount] == picks && output[gameCount..] == old(output[gameCount..])
    {
      hide RowsOk, IsShard, ApplyShard, Sum;
      picks := picked;
      var written: uint32, eligibleIssued := first, issuedSoFar;
      while written < gameCount
        invariant first <= written == |picks| <= gameCount
        invariant Valid() && artifactCount == old(artifactCount)
        invariant IsShard(before, mask, required, picks) && rows == ApplyShard(before, mask, required, picks)
        invariant remaining == old(remaining) - (written - first)
        invariant eligibleInitial == Sum(rows, InitialIf(mask)) && eligibleIssued == Sum(rows, IssuedIf(mask))
        invariant Sum(rows, RemainingIf(mask)) >= gameCount - written
        invariant output[..written] == picks && output[gameCount..] == old(output[gameCount..])
      {
        SomethingRemains(rows, mask);
        var selected := Emit(mask, NO_ARTIFACT, eligibleInitial, eligibleIssued, output, written, before, required,
                             picks);
        picks := picks + [selected];
        written := written + 1;
        eligibleIssued := eligibleIssued + 1;
      }
    }

    /** The picks of Take for the chosen cohort: the required artifact first, if any. */
    method EmitShard(mask: nat, gameCount: uint32, required: uint32, output: array<uint32>)
      returns (ghost picks: seq<nat>)
      requires Valid() && 0 < gameCount <= output.Length
      requires RequiredAvailable(rows, mask, required) && Sum(rows, RemainingIf(mask)) >= gameCount
      modifies this, output
      ensures Valid() && artifactCount == old(artifactCount) && remaining == old(remaining) - gameCount
      ensures |picks| == gameCount && IsShard(old(rows), mask, required, picks)
      ensures rows == ApplyShard(old(rows), mask, required, picks)
      ensures output[..gameCount] == picks && output[gameCount..] == old(output[gameCount..])
    {
      var eligibleInitial, eligibleIssued := EligibleTotals(mask);
      ghost var before := rows;
      if required == NO_ARTIFACT {
        picks := EmitRest(mask, 0, gameCount, required, eligibleIssued, eligibleInitial, output, before, []);
      } else {
        RequiredCandidate(rows, mask, required);
        var selected := Emit(mask, required, eligibleInitial, eligibleIssued, output, 0, before, required, []);
        assert [] + [selected] == [selected];
        picks := EmitRest(mask, 1, gameCount, required, eligibleIssued + 1, eligibleInitial, output, before,
                          [selected]);
      }
    }

    /** Take emits exactly `gameCount` row indices: the shard of the best feasible cohort.
        It fails without touching scheduler or rows when the arguments are invalid or no cohort
        can serve the request, and for no other reason; the caller's count is then zero, or
        what it was when the arguments are already invalid. */
    method Take(gameCount: uint32, limit: uint32, required: uint32, output: array<uint32>, outputCapacity: uint32,
                previousCount: uint32)
      returns (code: Code, outputCount: uint32, ghost shard: Shard)
      requires Valid() && outputCapacity <= output.Length
      modifies this, output
      ensures Valid() && artifactCount == old(artifactCount)
      ensures code == InvalidArgument <==>
              !ArgumentsOk(artifactCount, gameCount, limit, required) || outputCapacity < gameCount
      ensures code == InsufficientCapacity <==>
              ArgumentsOk(artifactCount, gameCount, limit, required) && outputCapacity >= gameCount
              && !Servable(old(rows), artifactCount, gameCount, limit, required)
      ensures code == Code.Ok <==>
              ArgumentsOk(artifactCount, gameCount, limit, required) && outputCapacity >= gameCount
              && Servable(old(rows), artifactCount, gameCount, limit, required)
      ensures code != Code.Ok ==> rows == old(rows) && remaining == old(remaining) && output[..] == old(output[..])
      ensures code != Code.Ok ==> outputCount == if code == InvalidArgument then previousCount else 0
      ensures code == Code.Ok ==>
              outputCount == gameCount == |shard.picks| && shard.required == required
              && IsBestMask(old(rows), artifactCount, shard.mask, gameCount, limit, required)
              && FurthestBehind(old(rows), artifactCount, shard.mask, gameCount, limit, required)
              && IsShard(old(rows), shard.mask, required, shard.picks)
              && rows == ApplyShard(old(rows), shard.mask, required, shard.picks)
              && remaining == old(remaining) - gameCount
              && output[..gameCount] == shard.picks && output[gameCount..] == old(output[gameCount..])
    {
      shard := Shard(0, required, []);
      if gameCount == 0 || outputCapacity < gameCount || limit == 0 || limit > artifactCount ||
         (required != NO_ARTIFACT && required >= artifactCount) {
        return InvalidArgument, previousCount, shard;
      }
      var found, mask := BestMask(gameCount, limit, required);
      if !found {
        return InsufficientCapacity, 0, shard;
      }
      ghost var picks := EmitShard(mask, gameCount, required, output);
      return Code.Ok, gameCount, Shard(mask, required, picks);
    }
  }
}
