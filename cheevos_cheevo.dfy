/**
 * Achievements and the per-frame driver.  An achievement holds its condition
 * sets (set 0 is the core set, the others are alternatives) and is tested
 * each frame while active: it unlocks when the core set and at least one
 * alternative (or no alternative at all) are valid, and unlocking clears
 * `active`, so each achievement is awarded at most once.  A reset raised by
 * any set clears every hit count of the achievement after all its sets were
 * evaluated.
 */
module Cheevos {
  import opened CheevosTypes
  import opened CheevosMemory
  import opened CheevosEval

  // ---------------------------------------------------------------------
  // Specification of one achievement

  /** What testing an achievement produces: the unlock decision, its sets afterwards, and whether its conditions became dirty. */
  datatype CheevoOutcome = CheevoOutcome(result: bool, states: seq<seq<Cond>>, dirty: bool)

  /** Each set evaluated on its own, in order (the sets share nothing but the flags they raise). */
  function EvalSets(sts: seq<seq<Cond>>, mem: Memory): (r: seq<SetOutcome>)
    ensures |r| == |sts|
    ensures forall k :: 0 <= k < |sts| ==> r[k] == EvalCondSet(sts[k], mem, false)
  {
    seq(|sts|, k requires 0 <= k < |sts| => EvalCondSet(sts[k], mem, false))
  }

  /** One of the first `n` outcomes raised the dirty flag. */
  predicate AnyDirty(outs: seq<SetOutcome>, n: nat)
    requires n <= |outs|
  {
    n > 0 && (AnyDirty(outs, n - 1) || outs[n - 1].dirty)
  }

  /** One of the first `n` outcomes raised the reset flag. */
  predicate AnyReset(outs: seq<SetOutcome>, n: nat)
    requires n <= |outs|
  {
    n > 0 && (AnyReset(outs, n - 1) || outs[n - 1].reset)
  }

  /** One of the alternative sets (index 1 on) among the first `n` is valid. */
  predicate AnyAltValid(outs: seq<SetOutcome>, n: nat)
    requires n <= |outs|
  {
    n > 1 && (AnyAltValid(outs, n - 1) || outs[n - 1].valid)
  }

  /** One of the first `n` sets has a hit. */
  predicate AnySetHits(sts: seq<seq<Cond>>, n: nat)
    requires n <= |sts|
  {
    n > 0 && (AnySetHits(sts, n - 1) || AnyHits(sts[n - 1]))
  }

  lemma {:induction false} AnyResetExists(outs: seq<SetOutcome>, n: nat)
    requires n <= |outs|
    ensures AnyReset(outs, n) <==> exists k :: 0 <= k < n && outs[k].reset
  {
    if n > 0 {
      AnyResetExists(outs, n - 1);
    }
  }

  lemma {:induction false} AnyAltValidExists(outs: seq<SetOutcome>, n: nat)
    requires n <= |outs|
    ensures AnyAltValid(outs, n) <==> exists k :: 1 <= k < n && outs[k].valid
  {
    if n > 1 {
      AnyAltValidExists(outs, n - 1);
    }
  }

  lemma {:induction false} AnySetHitsExists(sts: seq<seq<Cond>>, n: nat)
    requires n <= |sts|
    ensures AnySetHits(sts, n) <==> exists k :: 0 <= k < n && AnyHits(sts[k])
  {
    if n > 0 {
      AnySetHitsExists(sts, n - 1);
    }
  }

  /** The conditions of each outcome. */
  function CondsOf(outs: seq<SetOutcome>): (r: seq<seq<Cond>>)
    ensures |r| == |outs| && forall k :: 0 <= k < |outs| ==> r[k] == outs[k].conds
  {
    seq(|outs|, k requires 0 <= k < |outs| => outs[k].conds)
  }

  /** Every set cleared by `cheevos_reset_cond_set` without deltas. */
  function ResetAll(sts: seq<seq<Cond>>): (r: seq<seq<Cond>>)
    ensures |r| == |sts| && forall k :: 0 <= k < |sts| ==> r[k] == ResetConds(sts[k], false)
  {
    seq(|sts|, k requires 0 <= k < |sts| => ResetConds(sts[k], false))
  }

  /** `cheevos_test_cheevo` as a function of the achievement's sets. */
  function EvalCheevo(sts: seq<seq<Cond>>, mem: Memory): (r: CheevoOutcome)
    ensures |r.states| == |sts|
  {
    var outs := EvalSets(sts, mem);
    var n := |sts|;
    var result := n >= 1 && outs[0].valid && (n == 1 || AnyAltValid(outs, n));
    var conds := CondsOf(outs);
    if AnyReset(outs, n) then CheevoOutcome(result, ResetAll(conds), AnyDirty(outs, n) || AnySetHits(conds, n))
    else CheevoOutcome(result, conds, AnyDirty(outs, n))
  }

  /** The parts of `EvalCheevo` the in-place evaluation computes one by one. */
  lemma EvalCheevoParts(sts: seq<seq<Cond>>, mem: Memory)
    ensures var outs, n, e := EvalSets(sts, mem), |sts|, EvalCheevo(sts, mem);
            e.result == (n >= 1 && outs[0].valid && (n == 1 || AnyAltValid(outs, n)))
            && e.states == (if AnyReset(outs, n) then ResetAll(CondsOf(outs)) else CondsOf(outs))
            && e.dirty == (AnyDirty(outs, n) || (AnyReset(outs, n) && AnySetHits(CondsOf(outs), n)))
  {
  }

  /** A set passes this frame: not paused, every Standard condition satisfied, no reset. */
  predicate Passes(cs: seq<Cond>, mem: Memory)
  {
    !PauseHolds(cs, mem, 0) && AllSatisfied(cs, mem, 0) && !ResetHolds(cs, mem, 0)
  }

  /**
   * An achievement unlocks exactly when it has a core set that passes and
   * either no alternative set or some alternative set that passes.
   */
  lemma UnlockIff(sts: seq<seq<Cond>>, mem: Memory)
    ensures EvalCheevo(sts, mem).result
            <==> |sts| >= 1 && Passes(sts[0], mem)
                 && (|sts| == 1 || exists k :: 1 <= k < |sts| && Passes(sts[k], mem))
  {
    var outs := EvalSets(sts, mem);
    forall k | 0 <= k < |sts|
      ensures outs[k].valid <==> Passes(sts[k], mem)
    {
      ValidIff(sts[k], mem);
    }
    AnyAltValidExists(outs, |sts|);
  }

  /** An achievement with no condition set never unlocks. */
  lemma NoSetsNeverUnlocks(mem: Memory)
    ensures !EvalCheevo([], mem).result
  {
  }

  /**
   * The loader leaves every alternative set empty; an empty alternative is
   * valid, so such an achievement unlocks exactly when its core set is valid.
   */
  lemma EmptyAlternativesDefer(sts: seq<seq<Cond>>, mem: Memory)
    requires |sts| >= 1 && forall k :: 1 <= k < |sts| ==> sts[k] == []
    ensures EvalCheevo(sts, mem).result == EvalCondSet(sts[0], mem, false).valid
  {
    if |sts| > 1 {
      EmptySetValid(mem, false);
      assert EvalSets(sts, mem)[1].valid;
    }
  }

  /**
   * A reset raised by any set leaves no hit in any set, and one is raised
   * exactly when some set is not paused and has a ResetIf condition that
   * holds.
   */
  lemma ResetClearsEveryHit(sts: seq<seq<Cond>>, mem: Memory)
    ensures AnyReset(EvalSets(sts, mem), |sts|)
            <==> exists k :: 0 <= k < |sts| && !PauseHolds(sts[k], mem, 0) && ResetHolds(sts[k], mem, 0)
    ensures AnyReset(EvalSets(sts, mem), |sts|) ==> !AnySetHits(EvalCheevo(sts, mem).states, |sts|)
  {
    var outs := EvalSets(sts, mem);
    AnyResetExists(outs, |sts|);
    forall k | 0 <= k < |sts|
      ensures outs[k].reset <==> !PauseHolds(sts[k], mem, 0) && ResetHolds(sts[k], mem, 0)
    {
      ResetIff(sts[k], mem);
    }
    if AnyReset(outs, |sts|) {
      var st := EvalCheevo(sts, mem).states;
      AnySetHitsExists(st, |sts|);
      forall k | 0 <= k < |sts|
        ensures !AnyHits(st[k])
      {
        ResetCondsIdempotent(outs[k].conds, false);
      }
    }
  }

  // ---------------------------------------------------------------------
  // Achievements over frames

  /** The part of `cheevo_t` the evaluator reads and writes. */
  datatype CheevoState = CheevoState(id: u32, active: bool, dirty: bv32, sets: seq<seq<Cond>>)

  /** The dirty mask with the conditions bit added when `b` holds. */
  function MarkDirty(dirty: bv32, b: bool): bv32
  {
    if b then dirty | DIRTY_CONDITIONS else dirty
  }

  /** Marking sets the conditions bit and no other. */
  lemma MarkDirtySetsOnlyConditions(dirty: bv32, b: bool)
    ensures b ==> MarkDirty(dirty, b) & DIRTY_CONDITIONS == DIRTY_CONDITIONS
    ensures MarkDirty(dirty, b) & !DIRTY_CONDITIONS == dirty & !DIRTY_CONDITIONS
  {
  }

  /** Marking twice is marking once for either reason. */
  lemma MarkDirtyTwice(dirty: bv32, a: bool, b: bool)
    ensures MarkDirty(MarkDirty(dirty, a), b) == MarkDirty(dirty, a || b)
  {
  }

  /**
   * One frame of `cheevos_test_cheevo_set` for one achievement: an inactive
   * achievement is not tested; an active one that unlocks becomes inactive
   * and is awarded (second component).
   */
  function StepCheevo(c: CheevoState, mem: Memory): (CheevoState, bool)
  {
    if !c.active then (c, false)
    else
      var e := EvalCheevo(c.sets, mem);
      (c.(active := !e.result, dirty := MarkDirty(c.dirty, e.dirty), sets := e.states), e.result)
  }

  /** How many times an achievement is awarded over a run of frames. */
  function Awards(c: CheevoState, frames: seq<Memory>): nat
    decreases |frames|
  {
    if |frames| == 0 then 0
    else
      var (next, awarded) := StepCheevo(c, frames[0]);
      (if awarded then 1 else 0) + Awards(next, frames[1..])
  }

  /** An inactive achievement is never tested, so nothing about it changes. */
  lemma {:induction false} InactiveNeverAwarded(c: CheevoState, frames: seq<Memory>)
    requires !c.active
    ensures Awards(c, frames) == 0
    decreases |frames|
  {
    if |frames| > 0 {
      InactiveNeverAwarded(c, frames[1..]);
    }
  }

  /** However many frames run, an achievement is awarded at most once, and never once inactive. */
  lemma {:induction false} AwardedAtMostOnce(c: CheevoState, frames: seq<Memory>)
    ensures Awards(c, frames) <= 1
    ensures !c.active ==> Awards(c, frames) == 0
    decreases |frames|
  {
    if !c.active {
      InactiveNeverAwarded(c, frames);
    } else if |frames| > 0 {
      var (next, awarded) := StepCheevo(c, frames[0]);
      if awarded {
        InactiveNeverAwarded(next, frames[1..]);
      } else {
        AwardedAtMostOnce(next, frames[1..]);
      }
    }
  }

  // ---------------------------------------------------------------------
  // Achievements in place

  /** The conditions each set's array holds now. */
  function SetStates(css: seq<CondSet>): (r: seq<seq<Cond>>)
    reads set k | 0 <= k < |css| :: css[k].conds
    ensures |r| == |css| && forall k :: 0 <= k < |css| ==> r[k] == css[k].conds[..]
  {
    seq(|css|, k requires 0 <= k < |css| reads set j | 0 <= j < |css| :: css[j].conds => css[k].conds[..])
  }

  /** Each set owns its array. */
  predicate DistinctArrays(css: seq<CondSet>)
  {
    forall i, j :: 0 <= i < j < |css| ==> css[i].conds != css[j].conds
  }

  /** The descriptive fields of an achievement, fixed once it is loaded. */
  datatype CheevoInfo = CheevoInfo(title: string, description: string, author: string, badge: string, points: u32)

  /** An achievement as `cheevo_t` holds it: identity, state flags and its condition sets. */
  class Cheevo {
    const id: u32
    const info: CheevoInfo
    var active: bool
    var dirty: bv32
    const condsets: seq<CondSet>
    /** The arrays of the condition sets. */
    ghost const Arrays: set<object>

    ghost predicate Valid()
    {
      DistinctArrays(condsets)
      && Arrays == (set k | 0 <= k < |condsets| :: condsets[k].conds)
      && this !in Arrays
    }

    /** The abstract state the frame specification works on. */
    function State(): CheevoState
      reads this, Arrays
      requires Valid()
    {
      CheevoState(id, active, dirty, SetStates(condsets))
    }

    constructor(id: u32, info: CheevoInfo, active: bool, condsets: seq<CondSet>)
      requires DistinctArrays(condsets)
      ensures Valid() && State() == CheevoState(id, active, 0, SetStates(condsets))
      ensures this.info == info && this.condsets == condsets
    {
      this.id := id;
      this.info := info;
      this.active := active;
      this.dirty := 0;
      this.condsets := condsets;
      this.Arrays := set k | 0 <= k < |condsets| :: condsets[k].conds;
    }

    /**
     * The first two loops of `cheevos_test_cheevo`: every set evaluated in
     * place, with the core set's validity, whether some alternative (or no
     * alternative at all) is valid, and the dirty and reset flags raised.
     */
    method EvalSetsInPlace(mem: Memory, ghost sts: seq<seq<Cond>>)
        returns (retVal: bool, retValSubCond: bool, dirtyConds: bool, resetConds: bool)
      requires Valid() && sts == SetStates(condsets)
      modifies Arrays
      ensures var outs, n := EvalSets(sts, mem), |condsets|;
              (forall j :: 0 <= j < n ==> condsets[j].conds[..] == outs[j].conds)
              && retVal == (n >= 1 && outs[0].valid)
              && retValSubCond == (n == 1 || AnyAltValid(outs, n))
              && dirtyConds == AnyDirty(outs, n) && resetConds == AnyReset(outs, n)
    {
      ghost var outs := EvalSets(sts, mem);
      dirtyConds, resetConds := false, false;
      retVal := false;
      retValSubCond := |condsets| == 1;
      var k := 0;
      while k < |condsets|
        invariant k <= |condsets|
        invariant forall j :: 0 <= j < k ==> condsets[j].conds[..] == outs[j].conds
        invariant forall j :: k <= j < |condsets| ==> condsets[j].conds[..] == sts[j]
        invariant dirtyConds == AnyDirty(outs, k) && resetConds == AnyReset(outs, k)
        invariant retVal == (k >= 1 && outs[0].valid)
        invariant retValSubCond == (|condsets| == 1 || AnyAltValid(outs, k))
      {
        ghost var o := outs[k];
        assert condsets[k].conds[..] == sts[k] && o == EvalCondSet(sts[k], mem, false);
        label L:
        var valid, d, rs := TestCondSet(condsets[k].conds, mem, false);
        forall j | 0 <= j < |condsets| && j != k
          ensures condsets[j].conds[..] == old@L(condsets[j].conds[..])
        {
          assert condsets[j].conds != condsets[k].conds;
        }
        assert valid == o.valid && d == o.dirty && rs == o.reset && condsets[k].conds[..] == o.conds;
        if k == 0 {
          retVal := valid;
        } else {
          retValSubCond := retValSubCond || valid;
        }
        dirtyConds := dirtyConds || d;
        resetConds := resetConds || rs;
        k := k + 1;
      }
    }

    /** The reset loop of `cheevos_test_cheevo`: every set cleared, and whether any hit was. */
    method ResetSetsInPlace(ghost sts: seq<seq<Cond>>) returns (cleared: bool)
      requires Valid() && |sts| == |condsets|
      requires forall j :: 0 <= j < |condsets| ==> condsets[j].conds[..] == sts[j]
      modifies Arrays
      ensures forall j :: 0 <= j < |condsets| ==> condsets[j].conds[..] == ResetConds(sts[j], false)
      ensures cleared == AnySetHits(sts, |condsets|)
    {
      cleared := false;
      var k := 0;
      while k < |condsets|
        invariant k <= |condsets|
        invariant forall j :: 0 <= j < k ==> condsets[j].conds[..] == ResetConds(sts[j], false)
        invariant forall j :: k <= j < |condsets| ==> condsets[j].conds[..] == sts[j]
        invariant cleared == AnySetHits(sts, k)
      {
        label L:
        var d := ResetCondSet(condsets[k].conds, false);
        forall j | 0 <= j < |condsets| && j != k
          ensures condsets[j].conds[..] == old@L(condsets[j].conds[..])
        {
          assert condsets[j].conds != condsets[k].conds;
        }
        cleared := cleared || d;
        k := k + 1;
      }
    }

    /**
     * `cheevos_test_cheevo`: evaluates every set in place, clears every
     * set when one raised a reset, and marks the conditions dirty.
     */
    method TestCheevo(mem: Memory) returns (r: bool)
      requires Valid()
      modifies this, Arrays
      ensures r == EvalCheevo(old(SetStates(condsets)), mem).result
      ensures SetStates(condsets) == EvalCheevo(old(SetStates(condsets)), mem).states
      ensures dirty == MarkDirty(old(dirty), EvalCheevo(old(SetStates(condsets)), mem).dirty)
      ensures active == old(active)
    {
      ghost var sts := SetStates(condsets);
      ghost var outs := EvalSets(sts, mem);
      ghost var conds := CondsOf(outs);
      EvalCheevoParts(sts, mem);
      var retVal, retValSubCond, dirtyConds, resetConds := EvalSetsInPlace(mem, sts);
      dirty := MarkDirty(dirty, dirtyConds);
      if resetConds {
        var cleared := ResetSetsInPlace(conds);
        MarkDirtyTwice(old(dirty), dirtyConds, cleared);
        dirty := MarkDirty(dirty, cleared);
        assert SetStates(condsets) == ResetAll(conds);
      } else {
        assert SetStates(condsets) == conds;
      }
      r := retVal && retValSubCond;
    }
  }

  // ---------------------------------------------------------------------
  // Sets of achievements

  /** Each achievement is valid, and no two share the achievement or an array. */
  ghost predicate Owned(cheevos: seq<Cheevo>)
  {
    (forall i :: 0 <= i < |cheevos| ==> cheevos[i].Valid())
    && (forall i, j :: 0 <= i < j < |cheevos| ==> cheevos[i] != cheevos[j] && cheevos[i].Arrays !! cheevos[j].Arrays)
  }

  /** Everything a pass over `cheevos` may change. */
  ghost function Footprint(cheevos: seq<Cheevo>): set<object>
  {
    (set i | 0 <= i < |cheevos| :: cheevos[i] as object)
    + (set i, o | 0 <= i < |cheevos| && o in cheevos[i].Arrays :: o)
  }

  /** The ids of the achievements, in order, that one frame awards. */
  function AwardedIds(states: seq<CheevoState>, mem: Memory): seq<u32>
    decreases |states|
  {
    if |states| == 0 then []
    else
      var rest := AwardedIds(states[..|states| - 1], mem);
      var last := states[|states| - 1];
      if StepCheevo(last, mem).1 then rest + [last.id] else rest
  }

  /** Awarded achievements were active and unlocked this frame. */
  lemma {:induction false} AwardedWereActive(states: seq<CheevoState>, mem: Memory, id: u32)
    requires id in AwardedIds(states, mem)
    ensures exists i :: 0 <= i < |states| && states[i].id == id && states[i].active
                        && EvalCheevo(states[i].sets, mem).result
    decreases |states|
  {
    var n := |states| - 1;
    if id in AwardedIds(states[..n], mem) {
      AwardedWereActive(states[..n], mem, id);
      var i :| 0 <= i < n && states[..n][i].id == id && states[..n][i].active
               && EvalCheevo(states[..n][i].sets, mem).result;
      assert states[i] == states[..n][i];
    }
  }

  /** The loop body of `cheevos_test_cheevo_set` for one achievement. */
  method StepOne(c: Cheevo, mem: Memory) returns (unlocked: bool)
    requires c.Valid()
    modifies c, c.Arrays
    ensures (c.State(), unlocked) == StepCheevo(old(c.State()), mem)
  {
    unlocked := false;
    if c.active {
      unlocked := c.TestCheevo(mem);
      if unlocked {
        c.active := false;
      }
    }
  }

  /** Steps the `i`-th achievement of an owned sequence and no other. */
  method StepAt(cheevos: seq<Cheevo>, i: int, mem: Memory) returns (unlocked: bool)
    requires Owned(cheevos) && 0 <= i < |cheevos|
    modifies cheevos[i], cheevos[i].Arrays
    ensures (cheevos[i].State(), unlocked) == StepCheevo(old(cheevos[i].State()), mem)
    ensures forall j :: 0 <= j < |cheevos| && j != i ==> cheevos[j].State() == old(cheevos[j].State())
  {
    unlocked := StepOne(cheevos[i], mem);
    forall j | 0 <= j < |cheevos| && j != i
      ensures cheevos[j].State() == old(cheevos[j].State())
    {
      assert cheevos[j] != cheevos[i] && cheevos[j].Arrays !! cheevos[i].Arrays;
    }
  }

  /**
   * `cheevos_test_cheevo_set`: tests every active achievement in order;
   * each one that unlocks is deactivated before it is awarded.  `before`
   * is the state of the achievements on entry; the result lists the ids
   * awarded (the award messages and unlock requests are not modelled).
   */
  method TestCheevoSet(cheevos: seq<Cheevo>, mem: Memory, ghost before: seq<CheevoState>) returns (awarded: seq<u32>)
    requires Owned(cheevos) && |before| == |cheevos|
    requires forall i :: 0 <= i < |cheevos| ==> cheevos[i].State() == before[i]
    modifies Footprint(cheevos)
    ensures forall i :: 0 <= i < |cheevos| ==> cheevos[i].State() == StepCheevo(before[i], mem).0
    ensures awarded == AwardedIds(before, mem)
  {
    awarded := [];
    var i := 0;
    while i < |cheevos|
      invariant i <= |cheevos|
      invariant forall j :: 0 <= j < i ==> cheevos[j].State() == StepCheevo(before[j], mem).0
      invariant forall j :: i <= j < |cheevos| ==> cheevos[j].State() == before[j]
      invariant awarded == AwardedIds(before[..i], mem)
    {
      assert before[..i + 1][..i] == before[..i];
      var unlocked := StepAt(cheevos, i, mem);
      if unlocked {
        awarded := awarded + [cheevos[i].id];
      }
      i := i + 1;
    }
    assert before[..i] == before;
  }

  /** No achievement of `a` shares itself or an array with one of `b`. */
  ghost predicate Apart(a: seq<Cheevo>, b: seq<Cheevo>)
  {
    forall i, j :: 0 <= i < |a| && 0 <= j < |b| ==> a[i] != b[j] && a[i].Arrays !! b[j].Arrays
  }

  /** An achievement of `b` lies outside the footprint of `a` when the two are apart. */
  lemma Untouched(a: seq<Cheevo>, b: seq<Cheevo>, j: int)
    requires Owned(a) && 0 <= j < |b| && b[j].Valid() && Apart(a, b)
    ensures b[j] !in Footprint(a) && b[j].Arrays !! Footprint(a)
  {
  }
}
