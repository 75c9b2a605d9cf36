/**
 Inter-slice multiplexing of one carrier (dlsch_scheduler_interslice_multiplexing in
 eNB_scheduler_dlsch.c): resource block groups that a slice left unused are offered to UEs of
 other slices. The loop nest is proved to perform a list of grants, each one permitted when it
 is made; the guarantees are proved about such lists.
 */
module InterSlice {
  import RbSearch

  /** One carrier: `unit` PRBs per group, of which the last is one short at 25 and 50 PRBs. */
  datatype Config = Config(groups: nat, unit: nat, nRbDl: nat, slices: nat, ues: nat,
                           owner: seq<nat>, isolated: seq<bool>,
                           required: seq<seq<nat>>, mode5: seq<bool>)

  predicate ValidConfig(c: Config) {
    && RbSearch.NoEmptyGroup(c.unit, c.nRbDl)
    && |c.owner| == c.groups && (forall r :: 0 <= r < c.groups ==> c.owner[r] < c.slices)
    && |c.isolated| == c.slices && |c.required| == c.slices
    && (forall s :: 0 <= s < c.slices ==> |c.required[s]| == c.ues)
    && |c.mode5| == c.ues
  }

  function GroupSize(c: Config, rbg: nat): (r: nat)
    requires RbSearch.NoEmptyGroup(c.unit, c.nRbDl)
  {
    RbSearch.GroupSize(rbg, c.groups, c.unit, c.nRbDl)
  }

  /** `free[r]` is -1 for a used group, else the slice it belongs to; `remaining` is per slice and UE. */
  datatype Alloc = Alloc(used: seq<bool>, free: seq<int>, byUe: seq<seq<bool>>, remaining: seq<seq<nat>>,
                         available: seq<nat>, powOff: seq<nat>)

  predicate Shaped(c: Config, a: Alloc) {
    && |a.used| == |a.free| == c.groups
    && |a.byUe| == c.ues && (forall u :: 0 <= u < c.ues ==> |a.byUe[u]| == c.groups)
    && |a.remaining| == c.slices && (forall s :: 0 <= s < c.slices ==> |a.remaining[s]| == c.ues)
    && |a.available| == |a.powOff| == c.ues
  }

  /** The map of free groups mirrors the used ones. */
  predicate FreeMapOk(c: Config, a: Alloc)
    requires ValidConfig(c) && Shaped(c, a)
  {
    forall r :: 0 <= r < c.groups ==> a.free[r] == (if a.used[r] then -1 else c.owner[r])
  }

  datatype Grant = Grant(slice: nat, ue: nat, rbg: nat)

  predicate InRange(c: Config, g: Grant) {
    g.slice < c.slices && g.ue < c.ues && g.rbg < c.groups
  }

  /** A group may be granted: free, of a slice that shares, to a UE that still needs it and may use it. */
  predicate Permitted(c: Config, a: Alloc, g: Grant)
    requires ValidConfig(c) && Shaped(c, a)
  {
    && InRange(c, g)
    && !a.used[g.rbg] && !c.isolated[c.owner[g.rbg]]
    && !a.byUe[g.ue][g.rbg]
    && a.remaining[g.slice][g.ue] >= GroupSize(c, g.rbg)
    && a.available[g.ue] < c.required[g.slice][g.ue]
    && a.powOff[g.ue] != 0
  }

  function Apply(c: Config, a: Alloc, g: Grant): (r: Alloc)
    requires ValidConfig(c) && Shaped(c, a) && InRange(c, g) && a.remaining[g.slice][g.ue] >= GroupSize(c, g.rbg)
    ensures Shaped(c, r)
  {
    var size := GroupSize(c, g.rbg);
    Alloc(a.used[g.rbg := true], a.free[g.rbg := -1],
          a.byUe[g.ue := a.byUe[g.ue][g.rbg := true]],
          a.remaining[g.slice := a.remaining[g.slice][g.ue := a.remaining[g.slice][g.ue] - size]],
          a.available[g.ue := a.available[g.ue] + size],
          if c.mode5[g.ue] then a.powOff[g.ue := 1] else a.powOff)
  }

  /** A list of grants, each permitted in the state the earlier ones leave. */
  predicate Lawful(c: Config, a: Alloc, grants: seq<Grant>)
    requires ValidConfig(c) && Shaped(c, a)
    decreases |grants|
  {
    grants == [] || (Permitted(c, a, grants[0]) && Lawful(c, Apply(c, a, grants[0]), grants[1..]))
  }

  function ApplyAll(c: Config, a: Alloc, grants: seq<Grant>): (r: Alloc)
    requires ValidConfig(c) && Shaped(c, a) && Lawful(c, a, grants)
    ensures Shaped(c, r)
    decreases |grants|
  {
    if grants == [] then a else ApplyAll(c, Apply(c, a, grants[0]), grants[1..])
  }

  lemma {:induction false} LawfulAppend(c: Config, a: Alloc, grants: seq<Grant>, g: Grant)
    requires ValidConfig(c) && Shaped(c, a) && Lawful(c, a, grants) && Permitted(c, ApplyAll(c, a, grants), g)
    ensures Lawful(c, a, grants + [g])
    ensures ApplyAll(c, a, grants + [g]) == Apply(c, ApplyAll(c, a, grants), g)
    decreases |grants|
  {
    var all := grants + [g];
    if grants == [] {
      assert all[1..] == [];
    } else {
      assert all[1..] == grants[1..] + [g];
      LawfulAppend(c, Apply(c, a, grants[0]), grants[1..], g);
    }
  }

  // ----- what a lawful list guarantees

  /** PRBs of the groups granted to one UE. */
  function Granted(c: Config, grants: seq<Grant>, ue: nat): (r: nat)
    requires RbSearch.NoEmptyGroup(c.unit, c.nRbDl)
  {
    if grants == [] then 0
    else (if grants[0].ue == ue then GroupSize(c, grants[0].rbg) else 0) + Granted(c, grants[1..], ue)
  }

  /** What the slices still want for one UE. */
  function Wanted(remaining: seq<seq<nat>>, ue: nat): (r: nat)
    requires forall s :: 0 <= s < |remaining| ==> ue < |remaining[s]|
  {
    if remaining == [] then 0 else remaining[0][ue] + Wanted(remaining[1..], ue)
  }

  lemma {:induction false} WantedUpdate(remaining: seq<seq<nat>>, s: nat, row: seq<nat>, ue: nat)
    requires forall i :: 0 <= i < |remaining| ==> ue < |remaining[i]|
    requires s < |remaining| && ue < |row|
    ensures var after := remaining[s := row]; forall i :: 0 <= i < |after| ==> ue < |after[i]|
    ensures Wanted(remaining[s := row], ue) == Wanted(remaining, ue) - remaining[s][ue] + row[ue]
    decreases |remaining|
  {
    var after := remaining[s := row];
    if s == 0 {
      assert after[1..] == remaining[1..];
    } else {
      assert after[1..] == remaining[1..][s - 1 := row];
      WantedUpdate(remaining[1..], s - 1, row, ue);
    }
  }

  /** One grant moves PRBs from what is wanted to what is available, for its UE only. */
  lemma GrantMoves(c: Config, a: Alloc, g: Grant, ue: nat)
    requires ValidConfig(c) && Shaped(c, a) && Permitted(c, a, g) && ue < c.ues
    ensures var b := Apply(c, a, g); var moved := if g.ue == ue then GroupSize(c, g.rbg) else 0;
      Wanted(b.remaining, ue) == Wanted(a.remaining, ue) - moved && b.available[ue] == a.available[ue] + moved
  {
    WantedUpdate(a.remaining, g.slice,
        a.remaining[g.slice][g.ue := a.remaining[g.slice][g.ue] - GroupSize(c, g.rbg)], ue);
  }

  /** Per UE, wanted plus available is conserved, and available grows by exactly the PRBs granted. */
  lemma {:induction false} Conservation(c: Config, a: Alloc, grants: seq<Grant>, ue: nat)
    requires ValidConfig(c) && Shaped(c, a) && Lawful(c, a, grants) && ue < c.ues
    ensures var b := ApplyAll(c, a, grants);
      && Wanted(b.remaining, ue) + b.available[ue] == Wanted(a.remaining, ue) + a.available[ue]
      && b.available[ue] == a.available[ue] + Granted(c, grants, ue)
    decreases |grants|
  {
    hide Wanted, Apply;
    if grants != [] {
      GrantMoves(c, a, grants[0], ue);
      Conservation(c, Apply(c, a, grants[0]), grants[1..], ue);
    }
  }

  /** What happens to one group: at most one grant, and only if it was free and its slice shares. */
  lemma {:induction false} GroupFate(c: Config, a: Alloc, grants: seq<Grant>, r: nat)
    requires ValidConfig(c) && Shaped(c, a) && Lawful(c, a, grants) && r < c.groups
    ensures var b := ApplyAll(c, a, grants);
      && (a.used[r] || c.isolated[c.owner[r]] ==>
            && (forall k :: 0 <= k < |grants| ==> grants[k].rbg != r)
            && b.used[r] == a.used[r] && forall u :: 0 <= u < c.ues ==> b.byUe[u][r] == a.byUe[u][r])
      && (forall j, k :: 0 <= j < k < |grants| && grants[j].rbg == r ==> grants[k].rbg != r)
      && (b.used[r] <==> a.used[r] || exists k :: 0 <= k < |grants| && grants[k].rbg == r)
    decreases |grants|
  {
    if grants != [] {
      var a1, rest := Apply(c, a, grants[0]), grants[1..];
      GroupFate(c, a1, rest, r);
      assert forall k :: 0 < k < |grants| ==> grants[k] == rest[k - 1];
      if grants[0].rbg == r {
        assert a1.used[r];
      }
    }
  }

  /** A UE gets a group exactly by a grant. */
  lemma {:induction false} UeGets(c: Config, a: Alloc, grants: seq<Grant>, u: nat, r: nat)
    requires ValidConfig(c) && Shaped(c, a) && Lawful(c, a, grants) && u < c.ues && r < c.groups
    ensures ApplyAll(c, a, grants).byUe[u][r] <==>
      a.byUe[u][r] || exists k :: 0 <= k < |grants| && grants[k].ue == u && grants[k].rbg == r
    decreases |grants|
  {
    if grants != [] {
      var rest := grants[1..];
      UeGets(c, Apply(c, a, grants[0]), rest, u, r);
      assert forall k :: 0 < k < |grants| ==> grants[k] == rest[k - 1];
    }
  }

  lemma FreeMapStays(c: Config, a: Alloc, g: Grant)
    requires ValidConfig(c) && Shaped(c, a) && FreeMapOk(c, a) && Permitted(c, a, g)
    ensures FreeMapOk(c, Apply(c, a, g))
  {
  }

  /** Transmission power offset: set to 1 for UEs in transmission mode 5 that are granted something. */
  lemma {:induction false} PowerFate(c: Config, a: Alloc, grants: seq<Grant>, u: nat)
    requires ValidConfig(c) && Shaped(c, a) && Lawful(c, a, grants) && u < c.ues
    ensures ApplyAll(c, a, grants).powOff[u] ==
      if c.mode5[u] && exists k :: 0 <= k < |grants| && grants[k].ue == u then 1 else a.powOff[u]
    decreases |grants|
  {
    if grants != [] {
      var rest := grants[1..];
      PowerFate(c, Apply(c, a, grants[0]), rest, u);
      if k :| 0 <= k < |rest| && rest[k].ue == u { assert grants[k + 1].ue == u; }
      if k :| 0 <= k < |grants| && grants[k].ue == u { assert k > 0 ==> rest[k - 1].ue == u; }
    }
  }

  /** A UE that was granted something exceeds what some slice requires for it by less than a group. */
  lemma {:induction false} NeverFarOver(c: Config, a: Alloc, grants: seq<Grant>, u: nat)
    requires ValidConfig(c) && Shaped(c, a) && Lawful(c, a, grants) && u < c.ues
    requires exists k :: 0 <= k < |grants| && grants[k].ue == u
    ensures exists s :: 0 <= s < c.slices && ApplyAll(c, a, grants).available[u] < c.required[s][u] + c.unit
    decreases |grants|
  {
    var g, b, rest := grants[0], Apply(c, a, grants[0]), grants[1..];
    if k :| 0 <= k < |rest| && rest[k].ue == u {
      NeverFarOver(c, b, rest, u);
    } else {
      assert forall k :: 0 < k < |grants| ==> grants[k] == rest[k - 1];
      assert g.ue == u;
      NothingGranted(c, rest, u);
      Conservation(c, b, rest, u);
      assert b.available[u] < c.required[g.slice][u] + c.unit;
    }
  }

  lemma {:induction false} NothingGranted(c: Config, grants: seq<Grant>, u: nat)
    requires RbSearch.NoEmptyGroup(c.unit, c.nRbDl) && forall k :: 0 <= k < |grants| ==> grants[k].ue != u
    ensures Granted(c, grants, u) == 0
  {
    if grants != [] { NothingGranted(c, grants[1..], u); }
  }

  // ----- what is left over

  /** Whatever may be granted in b might have been granted in a. */
  ghost predicate NoNew(c: Config, a: Alloc, b: Alloc)
    requires ValidConfig(c) && Shaped(c, a) && Shaped(c, b)
  {
    forall h :: Permitted(c, b, h) ==> Permitted(c, a, h)
  }

  /** A grant uses up its own permission and gives none. */
  lemma GrantGivesNone(c: Config, a: Alloc, g: Grant)
    requires ValidConfig(c) && Shaped(c, a) && Permitted(c, a, g)
    ensures NoNew(c, a, Apply(c, a, g)) && !Permitted(c, Apply(c, a, g), g)
  {
  }

  /** Nothing more may be granted to the UE on behalf of the slice. */
  ghost predicate UeDone(c: Config, a: Alloc, slice: nat, ue: nat)
    requires ValidConfig(c) && Shaped(c, a)
  {
    forall r :: 0 <= r < c.groups ==> !Permitted(c, a, Grant(slice, ue, r))
  }

  ghost predicate UesDone(c: Config, a: Alloc, slice: nat, ues: seq<nat>)
    requires ValidConfig(c) && Shaped(c, a)
  {
    forall k :: 0 <= k < |ues| ==> UeDone(c, a, slice, ues[k])
  }

  ghost predicate SlicesDone(c: Config, a: Alloc, order: seq<nat>, ueOrder: seq<seq<nat>>)
    requires ValidConfig(c) && Shaped(c, a) && |order| == |ueOrder|
  {
    forall i :: 0 <= i < |order| ==> UesDone(c, a, order[i], ueOrder[i])
  }

  lemma DoneStays(c: Config, a: Alloc, b: Alloc, slice: nat, ues: seq<nat>)
    requires ValidConfig(c) && Shaped(c, a) && Shaped(c, b) && NoNew(c, a, b) && UesDone(c, a, slice, ues)
    ensures UesDone(c, b, slice, ues)
  {
    hide Permitted;
  }

  lemma SlicesDoneStay(c: Config, a: Alloc, b: Alloc, order: seq<nat>, ueOrder: seq<seq<nat>>)
    requires ValidConfig(c) && Shaped(c, a) && Shaped(c, b) && |order| == |ueOrder|
    requires NoNew(c, a, b) && SlicesDone(c, a, order, ueOrder)
    ensures SlicesDone(c, b, order, ueOrder)
  {
    hide NoNew, UesDone;
    forall i | 0 <= i < |order| ensures UesDone(c, b, order[i], ueOrder[i]) {
      DoneStays(c, a, b, order[i], ueOrder[i]);
    }
  }

  lemma NoNewTransitive(c: Config, a: Alloc, b: Alloc, d: Alloc)
    requires ValidConfig(c) && Shaped(c, a) && Shaped(c, b) && Shaped(c, d) && NoNew(c, a, b) && NoNew(c, b, d)
    ensures NoNew(c, a, d)
  {
    hide Permitted;
  }

  /** A UE for which the slice wants nothing is done. */
  lemma NothingWanted(c: Config, a: Alloc, b: Alloc, slice: nat, ues: seq<nat>)
    requires ValidConfig(c) && Shaped(c, a) && Shaped(c, b) && NoNew(c, a, b) && slice < c.slices
    requires forall u :: 0 <= u < c.ues ==> a.remaining[slice][u] == 0
    ensures UesDone(c, b, slice, ues)
  {
    forall k, r | 0 <= k < |ues| && 0 <= r < c.groups ensures !Permitted(c, b, Grant(slice, ues[k], r)) {
      assert !Permitted(c, a, Grant(slice, ues[k], r));
    }
  }

  // ----- the loop nest

  /** The first slice whose allocation mask covers the group owns it. */
  predicate OwnedBy(masks: seq<seq<bool>>, r: nat, owner: nat) {
    && owner < |masks| && (forall s :: 0 <= s < |masks| ==> r < |masks[s]|)
    && masks[owner][r] && forall s :: 0 <= s < owner ==> !masks[s][r]
  }

  /** The allocation as it is on entry, with the map of free groups built. */
  function Entry(c: Config, a: Alloc): (r: Alloc)
    requires ValidConfig(c) && Shaped(c, a)
    ensures Shaped(c, r) && FreeMapOk(c, r)
  {
    a.(free := seq(c.groups, r requires 0 <= r < c.groups => if a.used[r] then -1 else c.owner[r] as int))
  }

  class Carrier {
    const c: Config
    var used: seq<bool>
    var free: seq<int>
    var byUe: seq<seq<bool>>
    var remaining: seq<seq<nat>>
    var available: seq<nat>
    var powOff: seq<nat>

    function State(): (r: Alloc)
      reads this
    {
      Alloc(used, free, byUe, remaining, available, powOff)
    }

    ghost predicate Valid()
      reads this
    {
      ValidConfig(c) && Shaped(c, State())
    }

    constructor (config: Config, a: Alloc)
      requires ValidConfig(config) && Shaped(config, a)
      ensures Valid() && c == config && State() == a
    {
      c := config;
      used, free, byUe, remaining, available, powOff := a.used, a.free, a.byUe, a.remaining, a.available, a.powOff;
    }

    /** Used groups are marked, free ones get the slice they belong to. */
    method BuildFreeMap(masks: seq<seq<bool>>)
      requires Valid() && |masks| == c.slices && forall r :: 0 <= r < c.groups ==> OwnedBy(masks, r, c.owner[r])
      modifies this
      ensures Valid() && State() == Entry(c, old(State()))
    {
      for r := 0 to c.groups
        invariant Valid() && used == old(used) && byUe == old(byUe) && remaining == old(remaining)
        invariant available == old(available) && powOff == old(powOff)
        invariant forall k :: 0 <= k < r ==> free[k] == (if used[k] then -1 else c.owner[k])
      {
        assert OwnedBy(masks, r, c.owner[r]);
        var i := 0;
        while !masks[i][r]
          invariant 0 <= i <= c.owner[r]
          decreases c.owner[r] - i
        {
          i := i + 1;
        }
        free := free[r := if used[r] then -1 else i];
      }
    }

    /** The checks and the update for one slice, UE and group. */
    method TryGrant(mask: seq<bool>, g: Grant) returns (granted: bool)
      requires Valid() && InRange(c, g) && |mask| == c.groups
      modifies this
      ensures Valid()
      ensures granted <==> mask[g.rbg] && old(Eligible(g))
      ensures State() == if granted then Apply(c, old(State()), g) else old(State())
    {
      var size := if g.rbg == c.groups - 1 && (c.nRbDl == 25 || c.nRbDl == 50) then c.unit - 1 else c.unit;
      if !mask[g.rbg] || used[g.rbg] || byUe[g.ue][g.rbg] || remaining[g.slice][g.ue] <= 0
         || available[g.ue] >= c.required[g.slice][g.ue] || powOff[g.ue] == 0 || remaining[g.slice][g.ue] < size {
        return false;
      }
      used := used[g.rbg := true];
      free := free[g.rbg := -1];
      byUe := byUe[g.ue := byUe[g.ue][g.rbg := true]];
      if c.mode5[g.ue] {
        powOff := powOff[g.ue := 1];
      }
      remaining := remaining[g.slice := remaining[g.slice][g.ue := remaining[g.slice][g.ue] - size]];
      available := available[g.ue := available[g.ue] + size];
      granted := true;
    }

    /** Permitted, leaving the isolation check to the mask. */
    ghost predicate Eligible(g: Grant)
      requires Valid() && InRange(c, g)
      reads this
    {
      && !used[g.rbg] && !byUe[g.ue][g.rbg] && remaining[g.slice][g.ue] >= GroupSize(c, g.rbg)
      && available[g.ue] < c.required[g.slice][g.ue] && powOff[g.ue] != 0
    }

    /** A slice may reach for every group that is free and belongs to no isolated slice. */
    method BuildMask() returns (mask: seq<bool>)
      requires Valid() && FreeMapOk(c, State())
      ensures |mask| == c.groups
      ensures forall r :: 0 <= r < c.groups ==> (mask[r] <==> !used[r] && !c.isolated[c.owner[r]])
    {
      mask := [];
      for r := 0 to c.groups
        invariant |mask| == r
        invariant forall k :: 0 <= k < r ==> (mask[k] <==> !used[k] && !c.isolated[c.owner[k]])
      {
        if free[r] == -1 {
          mask := mask + [false];
        } else if c.isolated[free[r]] {
          mask := mask + [false];
        } else {
          mask := mask + [true];
        }
      }
    }

    /** The groups that the mask leaves out may not be granted. */
    ghost predicate MaskOk(mask: seq<bool>)
      requires Valid()
      reads this
    {
      && |mask| == c.groups
      && (forall r :: 0 <= r < c.groups ==> (mask[r] ==> !c.isolated[c.owner[r]]))
      && (forall r :: 0 <= r < c.groups ==> (!mask[r] ==> used[r] || c.isolated[c.owner[r]]))
    }

    /** One group for one UE: if it still may be granted, it is. */
    method ServeGroup(mask: seq<bool>, g: Grant, ghost a0: Alloc, ghost before: seq<Grant>)
      returns (ghost grants: seq<Grant>)
      requires Valid() && InRange(c, g) && MaskOk(mask)
      requires Shaped(c, a0) && Lawful(c, a0, before) && State() == ApplyAll(c, a0, before) && FreeMapOk(c, State())
      modifies this
      ensures Valid() && Lawful(c, a0, grants) && State() == ApplyAll(c, a0, grants) && FreeMapOk(c, State())
      ensures MaskOk(mask) && NoNew(c, old(State()), State()) && !Permitted(c, State(), g)
    {
      grants := before;
      ghost var a := State();
      var granted := TryGrant(mask, g);
      if granted {
        MaskedIsPermitted(c, a, g);
        GrantGivesNone(c, a, g);
        hide Permitted, Lawful, ApplyAll, NoNew;
        FreeMapStays(c, a, g);
        LawfulAppend(c, a0, grants, g);
        grants := grants + [g];
      }
    }

    /** All groups for one UE of one slice: nothing that may be granted to it is left. */
    method ServeUe(mask: seq<bool>, slice: nat, ue: nat, ghost a0: Alloc, ghost before: seq<Grant>)
      returns (ghost grants: seq<Grant>)
      requires Valid() && slice < c.slices && ue < c.ues && MaskOk(mask)
      requires Shaped(c, a0) && Lawful(c, a0, before) && State() == ApplyAll(c, a0, before) && FreeMapOk(c, State())
      modifies this
      ensures Valid() && Lawful(c, a0, grants) && State() == ApplyAll(c, a0, grants) && FreeMapOk(c, State())
      ensures MaskOk(mask) && NoNew(c, old(State()), State()) && UeDone(c, State(), slice, ue)
    {
      hide Apply, Permitted, Lawful, ApplyAll, MaskOk;
      grants := before;
      for r := 0 to c.groups
        invariant Valid() && Lawful(c, a0, grants) && State() == ApplyAll(c, a0, grants) && FreeMapOk(c, State())
        invariant MaskOk(mask) && NoNew(c, old(State()), State())
        invariant forall k :: 0 <= k < r ==> !Permitted(c, State(), Grant(slice, ue, k))
      {
        ghost var a := State();
        grants := ServeGroup(mask, Grant(slice, ue, r), a0, grants);
        NoNewTransitive(c, old(State()), a, State());
      }
    }

    /** All UEs of one slice, with a fresh mask. */
    method ServeSlice(slice: nat, ues: seq<nat>, ghost a0: Alloc, ghost before: seq<Grant>)
      returns (ghost grants: seq<Grant>)
      requires Valid() && slice < c.slices && forall k :: 0 <= k < |ues| ==> ues[k] < c.ues
      requires Shaped(c, a0) && Lawful(c, a0, before) && State() == ApplyAll(c, a0, before) && FreeMapOk(c, State())
      modifies this
      ensures Valid() && Lawful(c, a0, grants) && State() == ApplyAll(c, a0, grants) && FreeMapOk(c, State())
      ensures NoNew(c, old(State()), State()) && UesDone(c, State(), slice, ues)
    {
      var mask := BuildMask();
      assert MaskOk(mask);
      hide Apply, Permitted, Lawful, ApplyAll, MaskOk, NoNew, UeDone;
      grants := before;
      SameGivesNone(c, State());
      for k := 0 to |ues|
        invariant Valid() && Lawful(c, a0, grants) && State() == ApplyAll(c, a0, grants) && FreeMapOk(c, State())
        invariant MaskOk(mask) && NoNew(c, old(State()), State()) && UesDone(c, State(), slice, ues[..k])
      {
        ghost var a := State();
        grants := ServeUe(mask, slice, ues[k], a0, grants);
        NoNewTransitive(c, old(State()), a, State());
        DoneStays(c, a, State(), slice, ues[..k]);
      }
      assert ues[..|ues|] == ues;
    }

    /**
     The whole pass: slices in priority order, skipping those without traffic; for each a fresh
     mask, and all its UEs in the order given. The result is the entry state after a lawful list
     of grants, to which no grant to a UE that was in line may be added.
     */
    method Multiplex(masks: seq<seq<bool>>, order: seq<nat>, ueOrder: seq<seq<nat>>) returns (ghost grants: seq<Grant>)
      requires Valid() && |masks| == c.slices && (forall r :: 0 <= r < c.groups ==> OwnedBy(masks, r, c.owner[r]))
      requires |ueOrder| == |order| && (forall i :: 0 <= i < |order| ==> order[i] < c.slices)
      requires forall i, k :: 0 <= i < |ueOrder| && 0 <= k < |ueOrder[i]| ==> ueOrder[i][k] < c.ues
      modifies this
      ensures Valid()
      ensures Lawful(c, Entry(c, old(State())), grants) && State() == ApplyAll(c, Entry(c, old(State())), grants)
      ensures SlicesDone(c, State(), order, ueOrder)
    {
      hide Apply, Permitted, Entry, NoNew, UesDone;
      ghost var a0 := Entry(c, State());
      BuildFreeMap(masks);
      grants := [];
      var traffic := HasTraffic();
      SameGivesNone(c, State());
      for i := 0 to |order|
        invariant Valid() && Lawful(c, a0, grants) && State() == ApplyAll(c, a0, grants) && FreeMapOk(c, State())
        invariant NoNew(c, a0, State()) && SlicesDone(c, State(), order[..i], ueOrder[..i])
      {
        ghost var a := State();
        if traffic[order[i]] {
          grants := ServeSlice(order[i], ueOrder[i], a0, grants);
          NoNewTransitive(c, a0, a, State());
          SlicesDoneStay(c, a, State(), order[..i], ueOrder[..i]);
        } else {
          NothingWanted(c, a0, State(), order[i], ueOrder[i]);
        }
      }
      assert order[..|order|] == order && ueOrder[..|order|] == ueOrder;
    }

    /** Slices with some UE that still wants resource blocks. */
    method HasTraffic() returns (traffic: seq<bool>)
      requires Valid()
      ensures |traffic| == c.slices
      ensures forall s :: 0 <= s < c.slices ==> (traffic[s] <==> exists u :: 0 <= u < c.ues && remaining[s][u] > 0)
    {
      traffic := [];
      for s := 0 to c.slices
        invariant |traffic| == s
        invariant forall k :: 0 <= k < s ==> (traffic[k] <==> exists u :: 0 <= u < c.ues && remaining[k][u] > 0)
      {
        var found, u := false, 0;
        while u < c.ues && !found
          invariant 0 <= u <= c.ues
          invariant found ==> exists v :: 0 <= v < c.ues && remaining[s][v] > 0
          invariant !found ==> forall v :: 0 <= v < u ==> remaining[s][v] <= 0
          decreases c.ues - u, !found
        {
          if remaining[s][u] > 0 {
            found := true;
          } else {
            u := u + 1;
          }
        }
        traffic := traffic + [found];
      }
    }
  }

  lemma SameGivesNone(c: Config, a: Alloc)
    requires ValidConfig(c) && Shaped(c, a)
    ensures NoNew(c, a, a)
  {
  }

  lemma MaskedIsPermitted(c: Config, a: Alloc, g: Grant)
    requires ValidConfig(c) && Shaped(c, a) && InRange(c, g) && !c.isolated[c.owner[g.rbg]]
    requires !a.used[g.rbg] && !a.byUe[g.ue][g.rbg] && a.remaining[g.slice][g.ue] >= GroupSize(c, g.rbg)
    requires a.available[g.ue] < c.required[g.slice][g.ue] && a.powOff[g.ue] != 0
    ensures Permitted(c, a, g)
  {
  }
}
