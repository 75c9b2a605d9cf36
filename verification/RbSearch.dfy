/**
 Sizing a downlink block (eNB_scheduler_dlsch.c): resource blocks are added until the block
 fits, resource block groups are picked from the UE's own, and the MCS is walked down and up
 again to the smallest transport block that still fits. The transport block size table is a
 parameter.
 */
module RbSearch {

  /** Octets of a block with this MCS on so many resource blocks. */
  type TbsTable = (nat, nat) -> nat

  ghost predicate Monotone(f: TbsTable) {
    forall m, n, r, s :: m <= n && r <= s ==> f(m, r) <= f(n, s)
  }

  /** Smallest number of resource blocks tried. */
  function StartRbs(mcs: nat, unit: nat): (r: nat) {
    if mcs == 0 then 4 else unit
  }

  /** Highest MCS the upward walk reaches. */
  function ClimbLimit(powOff: nat): (r: nat) {
    if powOff > 0 then 28 else 16
  }

  /** Adds groups until the block fits or everything available is used; a whole group less would not do. */
  method FindRbs(f: TbsTable, mcs: nat, unit: nat, available: nat, need: nat) returns (nbRb: nat, tbs: nat)
    requires Monotone(f) && unit > 0
    ensures tbs == f(mcs, nbRb)
    ensures StartRbs(mcs, unit) <= available ==> nbRb <= available
    ensures StartRbs(mcs, unit) <= available && f(mcs, available) >= need ==> tbs >= need
    ensures forall r: nat :: StartRbs(mcs, unit) < nbRb && r + unit <= nbRb ==> f(mcs, r) < need
    ensures mcs > 0 && f(mcs, unit) >= need ==> nbRb == unit
    ensures mcs == 0 && f(0, 4) >= need ==> nbRb == 4
  {
    nbRb := StartRbs(mcs, unit);
    tbs := f(mcs, nbRb);
    while tbs < need
      invariant tbs == f(mcs, nbRb) && StartRbs(mcs, unit) <= nbRb
      invariant nbRb == StartRbs(mcs, unit) || f(mcs, StartRbs(mcs, unit)) < need
      invariant StartRbs(mcs, unit) <= available ==> nbRb <= available
      invariant forall r: nat :: StartRbs(mcs, unit) < nbRb && r + unit <= nbRb ==> f(mcs, r) < need
      decreases available - nbRb
    {
      ghost var before := nbRb;
      nbRb := nbRb + unit;
      if nbRb > available {
        tbs := f(mcs, available);
        nbRb := available;
        assert forall r: nat :: r + unit <= nbRb ==> f(mcs, r) <= f(mcs, before);
        break;
      }
      tbs := f(mcs, nbRb);
      assert forall r: nat :: r + unit <= nbRb ==> f(mcs, r) <= f(mcs, before);
    }
  }

  /** The MCS walk of the source: down while the block is too large, then up while it is too small. */
  method WalkMcs(f: TbsTable, mcs0: nat, nbRb: nat, need: nat, powOff: nat) returns (mcs: nat, tbs: nat)
    requires Monotone(f)
    ensures tbs == f(mcs, nbRb)
    ensures mcs0 <= ClimbLimit(powOff) && f(mcs0, nbRb) >= need ==>
      && mcs <= mcs0 && tbs >= need
      && forall m: nat :: m <= mcs0 && f(m, nbRb) >= need ==> f(m, nbRb) >= tbs
    ensures mcs0 <= ClimbLimit(powOff) && f(mcs0, nbRb) < need ==>
      && mcs0 <= mcs <= ClimbLimit(powOff)
      && (tbs >= need <==> f(ClimbLimit(powOff), nbRb) >= need)
      && (forall m: nat :: m < mcs ==> f(m, nbRb) < need)
  {
    mcs, tbs := mcs0, f(mcs0, nbRb);
    while tbs > need && mcs > 0
      invariant mcs <= mcs0 && tbs == f(mcs, nbRb)
      invariant mcs < mcs0 ==> f(mcs + 1, nbRb) > need
    {
      mcs := mcs - 1;
      tbs := f(mcs, nbRb);
    }
    ghost var low := mcs;
    while tbs < need && ((powOff > 0 && mcs < 28) || (powOff == 0 && mcs <= 15))
      invariant tbs == f(mcs, nbRb) && low <= mcs
      invariant mcs0 <= ClimbLimit(powOff) ==> mcs <= ClimbLimit(powOff)
      invariant f(mcs0, nbRb) >= need ==> mcs <= mcs0
      invariant f(mcs0, nbRb) < need ==> mcs0 <= mcs
      invariant f(low, nbRb) >= need ==> mcs == low
      invariant low < mcs ==> f(mcs - 1, nbRb) < need
      decreases 28 - mcs
    {
      mcs := mcs + 1;
      tbs := f(mcs, nbRb);
    }
  }

  /**
   Both searches together: what is chosen holds the block, uses no more than allowed and wastes as
   little as the MCS steps permit.
   */
  method ChooseSize(f: TbsTable, mcs0: nat, unit: nat, available: nat, need: nat, powOff: nat)
    returns (nbRb: nat, mcs: nat, tbs: nat)
    requires Monotone(f) && unit > 0
    ensures tbs == f(mcs, nbRb)
    ensures StartRbs(mcs0, unit) <= available && f(mcs0, available) >= need && mcs0 <= ClimbLimit(powOff) ==>
      && nbRb <= available && mcs <= mcs0 && need <= tbs <= f(mcs0, available)
      && forall m: nat :: m <= mcs0 && f(m, nbRb) >= need ==> f(m, nbRb) >= tbs
  {
    nbRb, tbs := FindRbs(f, mcs0, unit, available, need);
    mcs, tbs := WalkMcs(f, mcs0, nbRb, need, powOff);
  }

  // ----- resource block groups (type 0 allocation, section 7.1.6.1 of 3GPP TS 36.213)

  /** PRBs of group j: the last group is one short at 25 and 50 PRBs. */
  function GroupSize(j: nat, groups: nat, unit: nat, nRbDl: nat): (r: int) {
    if j == groups - 1 && (nRbDl == 25 || nRbDl == 50) then unit - 1 else unit
  }

  function AllOf(n: nat): (r: seq<bool>)
    ensures |r| == n
  {
    seq(n, _ => true)
  }

  lemma {:induction false} FullGroups(groups: nat, j: nat, unit: nat, nRbDl: nat)
    requires j <= groups - 1 || (j <= groups && nRbDl != 25 && nRbDl != 50)
    ensures OwnPrbs(AllOf(groups), j, unit, nRbDl) == j * unit
    decreases j
  {
    if j > 0 {
      FullGroups(groups, j - 1, unit, nRbDl);
      assert j * unit == (j - 1) * unit + unit;
    }
  }

  /** The groups of a carrier add up to its PRBs: 13 of two and 17 of three, the last one short, and 25 of four. */
  lemma CarrierTotals()
    ensures OwnPrbs(AllOf(13), 13, 2, 25) == 25 && OwnPrbs(AllOf(17), 17, 3, 50) == 50
    ensures OwnPrbs(AllOf(25), 25, 4, 100) == 100 && OwnPrbs(AllOf(6), 6, 1, 6) == 6
  {
    FullGroups(13, 12, 2, 25);
    FullGroups(17, 16, 3, 50);
    FullGroups(25, 25, 4, 100);
    FullGroups(6, 6, 1, 6);
  }

  /** Every group has a PRB: where the last one is short, the others have at least two. */
  predicate NoEmptyGroup(unit: nat, nRbDl: nat) {
    unit >= 1 && (nRbDl == 25 || nRbDl == 50 ==> unit >= 2)
  }

  /** PRBs of the UE's own groups among the first j. */
  function OwnPrbs(mask: seq<bool>, j: nat, unit: nat, nRbDl: nat): (r: int)
    requires j <= |mask|
  {
    if j == 0 then 0
    else OwnPrbs(mask, j - 1, unit, nRbDl) + (if mask[j - 1] then GroupSize(j - 1, |mask|, unit, nRbDl) else 0)
  }

  lemma {:induction false} OwnPrbsGrow(mask: seq<bool>, i: nat, j: nat, unit: nat, nRbDl: nat)
    requires i <= j <= |mask| && NoEmptyGroup(unit, nRbDl)
    ensures OwnPrbs(mask, i, unit, nRbDl) <= OwnPrbs(mask, j, unit, nRbDl)
    ensures forall k :: i <= k < j && mask[k] ==> OwnPrbs(mask, i, unit, nRbDl) < OwnPrbs(mask, j, unit, nRbDl)
    decreases j - i
  {
    if i < j { OwnPrbsGrow(mask, i, j - 1, unit, nRbDl); }
  }

  /**
   The chosen groups are the UE's own ones among the first `cut`, which is as small as covering nbRb
   allows.
   */
  ghost predicate CutAt(mask: seq<bool>, chosen: seq<bool>, nbRb: int, unit: nat, nRbDl: nat, cut: nat) {
    && |chosen| == |mask| && cut <= |mask|
    && (forall i :: 0 <= i < |mask| ==> chosen[i] == (mask[i] && i < cut))
    && (cut == |mask| || OwnPrbs(mask, cut, unit, nRbDl) >= nbRb)
    && (forall j :: 0 <= j < cut ==> OwnPrbs(mask, j, unit, nRbDl) < nbRb)
  }

  ghost predicate ShortestCover(mask: seq<bool>, chosen: seq<bool>, nbRb: int, unit: nat, nRbDl: nat) {
    exists cut :: CutAt(mask, chosen, nbRb, unit, nRbDl, cut)
  }

  /** New data: the remaining need shrinks by the group's size. */
  method SelectForNewData(mask: seq<bool>, nbRb: int, unit: nat, nRbDl: nat) returns (chosen: seq<bool>)
    ensures ShortestCover(mask, chosen, nbRb, unit, nRbDl)
  {
    chosen := seq(|mask|, _ => false);
    var left, j := nbRb, 0;
    while left > 0 && j < |mask|
      invariant 0 <= j <= |mask| == |chosen| && left == nbRb - OwnPrbs(mask, j, unit, nRbDl)
      invariant forall i :: 0 <= i < |mask| ==> chosen[i] == (mask[i] && i < j)
      invariant forall i :: 0 <= i < j ==> OwnPrbs(mask, i, unit, nRbDl) < nbRb
      decreases |mask| - j
    {
      if mask[j] {
        chosen := chosen[j := mask[j]];
        if j == |mask| - 1 && (nRbDl == 25 || nRbDl == 50) {
          left := left - unit + 1;
        } else {
          left := left - unit;
        }
      }
      j := j + 1;
    }
    assert CutAt(mask, chosen, nbRb, unit, nRbDl, j);
  }

  /** Retransmission: the short last group is corrected after a full one has been subtracted. */
  method SelectForRetransmission(mask: seq<bool>, nbRb: int, unit: nat, nRbDl: nat) returns (chosen: seq<bool>)
    ensures ShortestCover(mask, chosen, nbRb, unit, nRbDl)
  {
    chosen := seq(|mask|, _ => false);
    var left, j := nbRb, 0;
    while left > 0 && j < |mask|
      invariant 0 <= j <= |mask| == |chosen| && left == nbRb - OwnPrbs(mask, j, unit, nRbDl)
      invariant forall i :: 0 <= i < |mask| ==> chosen[i] == (mask[i] && i < j)
      invariant forall i :: 0 <= i < j ==> OwnPrbs(mask, i, unit, nRbDl) < nbRb
      decreases |mask| - j
    {
      if mask[j] {
        chosen := chosen[j := mask[j]];
        left := left - unit;
        if j == |mask| - 1 && (nRbDl == 25 || nRbDl == 50) {
          left := left + 1;
        }
      }
      j := j + 1;
    }
    assert CutAt(mask, chosen, nbRb, unit, nRbDl, j);
  }

  /** There is only one shortest cover, so a retransmission gets the groups a new block of that size would. */
  lemma CoverUnique(mask: seq<bool>, a: seq<bool>, b: seq<bool>, nbRb: int, unit: nat, nRbDl: nat)
    requires ShortestCover(mask, a, nbRb, unit, nRbDl) && ShortestCover(mask, b, nbRb, unit, nRbDl)
    ensures a == b
  {
    var i :| CutAt(mask, a, nbRb, unit, nRbDl, i);
    var j :| CutAt(mask, b, nbRb, unit, nRbDl, j);
    assert i == j;
  }

  /** The least number of groups that hold nbRb of the UE's PRBs, at most j of which are needed. */
  lemma {:induction false} LeastCut(mask: seq<bool>, nbRb: int, unit: nat, nRbDl: nat, j: nat) returns (cut: nat)
    requires NoEmptyGroup(unit, nRbDl) && j <= |mask| && OwnPrbs(mask, j, unit, nRbDl) >= nbRb
    ensures cut <= j && OwnPrbs(mask, cut, unit, nRbDl) >= nbRb
    ensures forall i :: 0 <= i < cut ==> OwnPrbs(mask, i, unit, nRbDl) < nbRb
    decreases j
  {
    if j > 0 && OwnPrbs(mask, j - 1, unit, nRbDl) >= nbRb {
      cut := LeastCut(mask, nbRb, unit, nRbDl, j - 1);
    } else {
      cut := j;
      forall i | 0 <= i < j ensures OwnPrbs(mask, i, unit, nRbDl) < nbRb {
        OwnPrbsGrow(mask, i, j - 1, unit, nRbDl);
      }
    }
  }

  /** The whole mask is the shortest cover of all its PRBs. */
  lemma WholeMaskIsCover(mask: seq<bool>, unit: nat, nRbDl: nat)
    requires NoEmptyGroup(unit, nRbDl)
    ensures ShortestCover(mask, mask, OwnPrbs(mask, |mask|, unit, nRbDl), unit, nRbDl)
  {
    var total := OwnPrbs(mask, |mask|, unit, nRbDl);
    var cut := LeastCut(mask, total, unit, nRbDl, |mask|);
    OwnPrbsGrow(mask, cut, |mask|, unit, nRbDl);
    assert CutAt(mask, mask, total, unit, nRbDl, cut);
  }

  /**
   Both branches of the selection: if `preAvailable` is the mask's PRB total, copying the mask makes no
   difference.
   */
  method SelectGroups(mask: seq<bool>, nbRb: int, preAvailable: int, unit: nat, nRbDl: nat) returns (chosen: seq<bool>)
    requires NoEmptyGroup(unit, nRbDl)
    ensures nbRb != preAvailable || preAvailable == OwnPrbs(mask, |mask|, unit, nRbDl) ==>
      ShortestCover(mask, chosen, nbRb, unit, nRbDl)
  {
    if nbRb == preAvailable {
      chosen := mask;
      WholeMaskIsCover(mask, unit, nRbDl);
    } else {
      chosen := SelectForNewData(mask, nbRb, unit, nRbDl);
    }
  }
}
