/**
 * The per-frame evaluator of one condition set.  Evaluation runs in three
 * passes over the set's array of conditions: the PauseIf conditions (the
 * first that holds pauses the whole set), the Standard conditions (hit
 * counting), then the ResetIf conditions (the first that holds asks for every
 * hit count of the achievement to be cleared).  Each pass is specified by a
 * function over the sequence of conditions; the methods rewrite the array in
 * place and are proved to end in the state those functions describe.
 */
module CheevosEval {
  import opened CheevosTypes
  import opened CheevosMemory

  // ---------------------------------------------------------------------
  // One condition

  /** `cheevos_test_condition`'s comparator. */
  predicate Compare(op: Op, sval: u32, tval: u32)
  {
    match op
    case Equals => sval == tval
    case LessThan => sval < tval
    case LessThanOrEqual => sval <= tval
    case GreaterThan => sval > tval
    case GreaterThanOrEqual => sval >= tval
    case NotEqualTo => sval != tval
  }

  /** The operator that holds exactly when `op` does not. */
  function Negated(op: Op): Op
  {
    match op
    case Equals => NotEqualTo
    case NotEqualTo => Equals
    case LessThan => GreaterThanOrEqual
    case GreaterThanOrEqual => LessThan
    case LessThanOrEqual => GreaterThan
    case GreaterThan => LessThanOrEqual
  }

  /** Every comparison has a complement. */
  lemma CompareNegated(op: Op, sval: u32, tval: u32)
    ensures Compare(Negated(op), sval, tval) <==> !Compare(op, sval, tval)
    ensures Negated(Negated(op)) == op
  {
  }

  /**
   * `cheevos_test_condition`: reads the source, then the target, and compares
   * them.  The second component is the condition after the reads, which
   * have updated the remembered value of a delta operand.
   */
  function TestCondition(c: Cond, mem: Memory): (r: (bool, Cond))
    ensures r.1 == c.(source := r.1.source, target := r.1.target)
  {
    var (sval, source) := ReadVar(c.source, mem);
    var (tval, target) := ReadVar(c.target, mem);
    (Compare(c.op, sval, tval), c.(source := source, target := target))
  }

  /** Whether a condition's comparison holds on `mem`. */
  predicate Holds(c: Cond, mem: Memory)
  {
    TestCondition(c, mem).0
  }

  /** The comparison looks only at the operands: hit counters play no part. */
  lemma HoldsIgnoresHits(c: Cond, hits: u32, mem: Memory)
    ensures Holds(c.(currHits := hits), mem) == Holds(c, mem)
    ensures TestCondition(c.(currHits := hits), mem).1 == TestCondition(c, mem).1.(currHits := hits)
  {
  }

  /** The comparison of two constants is the operator applied to them. */
  lemma ConstantsCompare(c: Cond, mem: Memory)
    requires c.source.varType == ValueComp && c.target.varType == ValueComp
    ensures Holds(c, mem) <==> Compare(c.op, c.source.value, c.target.value)
    ensures TestCondition(c, mem).1 == c
  {
  }

  // ---------------------------------------------------------------------
  // Specification of the three passes

  /**
   * The PauseIf pass from position `i`: each PauseIf condition examined has
   * its hit count cleared and is tested; the first that holds gets one hit
   * and stops the pass (first component true).
   */
  function PauseFrom(cs: seq<Cond>, mem: Memory, i: nat): (r: (bool, seq<Cond>))
    requires i <= |cs|
    ensures |r.1| == |cs|
    decreases |cs| - i
  {
    if i == |cs| then (false, cs)
    else if cs[i].condType == PauseIf then
      var (holds, c) := TestCondition(cs[i].(currHits := 0), mem);
      if holds then (true, cs[i := c.(currHits := 1)])
      else PauseFrom(cs[i := c], mem, i + 1)
    else PauseFrom(cs, mem, i + 1)
  }

  /** The outcome of the Standard pass. */
  datatype StandardPass = StandardPass(valid: bool, conds: seq<Cond>, dirty: bool)

  /**
   * The Standard pass from position `i`, with the validity and dirty flags
   * accumulated so far.  A condition whose hit target is already reached is
   * skipped; otherwise a comparison that holds adds a hit, and counts as true
   * only once the target (if any) is reached.  With `matchAny` the first
   * comparison that holds ends the pass without affecting validity.
   */
  function StandardFrom(cs: seq<Cond>, mem: Memory, matchAny: bool, i: nat, valid: bool, dirty: bool): (r: StandardPass)
    requires i <= |cs|
    ensures |r.conds| == |cs|
    decreases |cs| - i
  {
    if i == |cs| then StandardPass(valid, cs, dirty)
    else
      var c := cs[i];
      if c.condType != Standard || (c.reqHits != 0 && c.currHits >= c.reqHits) then
        StandardFrom(cs, mem, matchAny, i + 1, valid, dirty)
      else
        var (holds, tested) := TestCondition(c, mem);
        if holds then
          var hit := tested.(currHits := Wrap32(c.currHits + 1));
          var counts := hit.reqHits == 0 || hit.currHits >= hit.reqHits;
          if matchAny then StandardPass(valid, cs[i := hit], true)
          else StandardFrom(cs[i := hit], mem, matchAny, i + 1, valid && counts, true)
        else StandardFrom(cs[i := tested], mem, matchAny, i + 1, false, dirty)
  }

  /**
   * The ResetIf pass from position `i`: the first ResetIf condition that holds
   * stops the pass (first component true).
   */
  function ResetFrom(cs: seq<Cond>, mem: Memory, i: nat): (r: (bool, seq<Cond>))
    requires i <= |cs|
    ensures |r.1| == |cs|
    decreases |cs| - i
  {
    if i == |cs| then (false, cs)
    else if cs[i].condType == ResetIf then
      var (holds, c) := TestCondition(cs[i], mem);
      if holds then (true, cs[i := c])
      else ResetFrom(cs[i := c], mem, i + 1)
    else ResetFrom(cs, mem, i + 1)
  }

  /** What evaluating a set produces: its validity, its new conditions and the two flags it can raise. */
  datatype SetOutcome = SetOutcome(valid: bool, conds: seq<Cond>, dirty: bool, reset: bool)

  /** `cheevos_test_cond_set` as a function of the set's conditions. */
  function EvalCondSet(cs: seq<Cond>, mem: Memory, matchAny: bool): (r: SetOutcome)
    ensures |r.conds| == |cs|
  {
    var (paused, p) := PauseFrom(cs, mem, 0);
    if paused then SetOutcome(false, p, true, false)
    else
      var s := StandardFrom(p, mem, matchAny, 0, true, false);
      var (reset, q) := ResetFrom(s.conds, mem, 0);
      SetOutcome(s.valid && !reset, q, s.dirty, reset)
  }

  // ---------------------------------------------------------------------
  // What the passes mean

  /** Some PauseIf condition of `cs` from position `i` on holds. */
  predicate PauseHolds(cs: seq<Cond>, mem: Memory, i: nat)
  {
    exists j :: i <= j < |cs| && cs[j].condType == PauseIf && Holds(cs[j], mem)
  }

  /** Some ResetIf condition of `cs` from position `i` on holds. */
  predicate ResetHolds(cs: seq<Cond>, mem: Memory, i: nat)
  {
    exists j :: i <= j < |cs| && cs[j].condType == ResetIf && Holds(cs[j], mem)
  }

  /**
   * A Standard condition is satisfied this frame when its hit target was
   * already reached, or its comparison holds and that hit reaches the target
   * (or it has none).
   */
  predicate Satisfied(c: Cond, mem: Memory)
  {
    (c.reqHits != 0 && c.currHits >= c.reqHits)
    || (Holds(c, mem) && (c.reqHits == 0 || c.currHits + 1 >= c.reqHits))
  }

  /** Every Standard condition of `cs` from position `i` on is satisfied. */
  predicate AllSatisfied(cs: seq<Cond>, mem: Memory, i: nat)
  {
    forall j :: i <= j < |cs| && cs[j].condType == Standard ==> Satisfied(cs[j], mem)
  }

  /** `ds` has the condition types of `cs`, and agrees with it on every condition not of type `t`. */
  predicate OnlyTypeChanges(cs: seq<Cond>, ds: seq<Cond>, t: CondType)
  {
    |ds| == |cs|
    && (forall j :: 0 <= j < |cs| ==> ds[j].condType == cs[j].condType)
    && (forall j :: 0 <= j < |cs| && cs[j].condType != t ==> ds[j] == cs[j])
  }

  /** The PauseIf pass stops exactly when a PauseIf condition holds, and touches no other condition. */
  lemma {:induction false} PauseFromMeaning(cs: seq<Cond>, mem: Memory, i: nat)
    requires i <= |cs|
    ensures PauseFrom(cs, mem, i).0 <==> PauseHolds(cs, mem, i)
    ensures OnlyTypeChanges(cs, PauseFrom(cs, mem, i).1, PauseIf)
    decreases |cs| - i
  {
    if i < |cs| {
      if cs[i].condType == PauseIf {
        HoldsIgnoresHits(cs[i], 0, mem);
        var (holds, c) := TestCondition(cs[i].(currHits := 0), mem);
        if !holds {
          PauseFromMeaning(cs[i := c], mem, i + 1);
          var next := cs[i := c];
          if PauseHolds(cs, mem, i) {
            var j :| i <= j < |cs| && cs[j].condType == PauseIf && Holds(cs[j], mem);
            assert next[j] == cs[j];
          }
          if PauseHolds(next, mem, i + 1) {
            var j :| i + 1 <= j < |cs| && next[j].condType == PauseIf && Holds(next[j], mem);
            assert next[j] == cs[j];
          }
        }
      } else {
        PauseFromMeaning(cs, mem, i + 1);
        assert PauseHolds(cs, mem, i) == PauseHolds(cs, mem, i + 1);
      }
    }
  }

  /** The ResetIf pass stops exactly when a ResetIf condition holds, and touches no other condition. */
  lemma {:induction false} ResetFromMeaning(cs: seq<Cond>, mem: Memory, i: nat)
    requires i <= |cs|
    ensures ResetFrom(cs, mem, i).0 <==> ResetHolds(cs, mem, i)
    ensures OnlyTypeChanges(cs, ResetFrom(cs, mem, i).1, ResetIf)
    decreases |cs| - i
  {
    if i < |cs| {
      if cs[i].condType == ResetIf {
        var (holds, c) := TestCondition(cs[i], mem);
        if !holds {
          ResetFromMeaning(cs[i := c], mem, i + 1);
          var next := cs[i := c];
          if ResetHolds(cs, mem, i) {
            var j :| i <= j < |cs| && cs[j].condType == ResetIf && Holds(cs[j], mem);
            assert next[j] == cs[j];
          }
          if ResetHolds(next, mem, i + 1) {
            var j :| i + 1 <= j < |cs| && next[j].condType == ResetIf && Holds(next[j], mem);
            assert next[j] == cs[j];
          }
        }
      } else {
        ResetFromMeaning(cs, mem, i + 1);
        assert ResetHolds(cs, mem, i) == ResetHolds(cs, mem, i + 1);
      }
    }
  }

  /** `AllSatisfied` from `i` splits into position `i` and a rest that `next` shares with `cs`. */
  lemma AllSatisfiedStep(cs: seq<Cond>, next: seq<Cond>, mem: Memory, i: nat)
    requires i < |cs| == |next|
    requires forall j :: i < j < |cs| ==> next[j] == cs[j]
    ensures AllSatisfied(cs, mem, i)
            <==> (cs[i].condType == Standard ==> Satisfied(cs[i], mem)) && AllSatisfied(next, mem, i + 1)
  {
  }

  /**
   * One hit on a Standard condition short of its target: it counts as true
   * exactly when the condition is satisfied, and stays within the target.
   */
  lemma HitStep(c: Cond, mem: Memory)
    requires !Reached(c)
    ensures var (holds, tested) := TestCondition(c, mem);
            var hit := tested.(currHits := Wrap32(c.currHits + 1));
            (holds && (hit.reqHits == 0 || hit.currHits >= hit.reqHits) <==> Satisfied(c, mem))
            && hit.condType == c.condType
            && (hit.reqHits != 0 ==> hit.currHits <= hit.reqHits)
            && !(!holds && Satisfied(c, mem))
  {
  }

  /**
   * Without `matchAny`, the Standard pass ends valid exactly when it started
   * valid and every Standard condition it reaches is satisfied; it touches no
   * other condition.
   */
  lemma StandardFromMeaning(cs: seq<Cond>, mem: Memory, i: nat, valid: bool, dirty: bool)
    requires i <= |cs|
    ensures StandardFrom(cs, mem, false, i, valid, dirty).valid <==> valid && AllSatisfied(cs, mem, i)
    ensures OnlyTypeChanges(cs, StandardFrom(cs, mem, false, i, valid, dirty).conds, Standard)
  {
    StandardFromValid(cs, mem, i, valid, dirty);
    StandardFromKeeps(cs, mem, i, valid, dirty);
  }

  lemma {:induction false} StandardFromValid(cs: seq<Cond>, mem: Memory, i: nat, valid: bool, dirty: bool)
    requires i <= |cs|
    ensures StandardFrom(cs, mem, false, i, valid, dirty).valid <==> valid && AllSatisfied(cs, mem, i)
    decreases |cs| - i
  {
    if i < |cs| {
      var c := cs[i];
      if c.condType != Standard || Reached(c) {
        StandardFromValid(cs, mem, i + 1, valid, dirty);
        AllSatisfiedStep(cs, cs, mem, i);
      } else {
        HitStep(c, mem);
        var (holds, tested) := TestCondition(c, mem);
        var hit := tested.(currHits := Wrap32(c.currHits + 1));
        var next := if holds then cs[i := hit] else cs[i := tested];
        var v := if holds then valid && (hit.reqHits == 0 || hit.currHits >= hit.reqHits) else false;
        StandardFromValid(next, mem, i + 1, v, holds || dirty);
        AllSatisfiedStep(cs, next, mem, i);
      }
    }
  }

  lemma {:induction false} StandardFromKeeps(cs: seq<Cond>, mem: Memory, i: nat, valid: bool, dirty: bool)
    requires i <= |cs|
    ensures OnlyTypeChanges(cs, StandardFrom(cs, mem, false, i, valid, dirty).conds, Standard)
    decreases |cs| - i
  {
    if i < |cs| {
      var c := cs[i];
      if c.condType != Standard || Reached(c) {
        StandardFromKeeps(cs, mem, i + 1, valid, dirty);
      } else {
        HitStep(c, mem);
        var (holds, tested) := TestCondition(c, mem);
        var hit := tested.(currHits := Wrap32(c.currHits + 1));
        var next := if holds then cs[i := hit] else cs[i := tested];
        var v := if holds then valid && (hit.reqHits == 0 || hit.currHits >= hit.reqHits) else false;
        StandardFromKeeps(next, mem, i + 1, v, holds || dirty);
        TypeChangesCompose(cs, next, StandardFrom(next, mem, false, i + 1, v, holds || dirty).conds, i);
      }
    }
  }

  /** Changing the Standard condition at `i` and then only Standard conditions changes only Standard conditions. */
  lemma TypeChangesCompose(cs: seq<Cond>, next: seq<Cond>, ds: seq<Cond>, i: nat)
    requires i < |cs| == |next| && cs[i].condType == Standard && next[i].condType == Standard
    requires forall j :: 0 <= j < |cs| && j != i ==> next[j] == cs[j]
    requires OnlyTypeChanges(next, ds, Standard)
    ensures OnlyTypeChanges(cs, ds, Standard)
  {
  }

  // ---------------------------------------------------------------------
  // What evaluating a set means

  /**
   * A paused set is invalid, raises no reset, and leaves every Standard and
   * ResetIf condition as it was.
   */
  lemma PausedChangesOnlyPauseIf(cs: seq<Cond>, mem: Memory, matchAny: bool)
    requires PauseHolds(cs, mem, 0)
    ensures var r := EvalCondSet(cs, mem, matchAny);
            !r.valid && !r.reset && r.dirty && OnlyTypeChanges(cs, r.conds, PauseIf)
  {
    PauseFromMeaning(cs, mem, 0);
  }

  /** The Standard and ResetIf conditions are the same after the PauseIf pass. */
  lemma AfterPause(cs: seq<Cond>, mem: Memory)
    ensures var p := PauseFrom(cs, mem, 0).1;
            AllSatisfied(p, mem, 0) == AllSatisfied(cs, mem, 0)
            && ResetHolds(p, mem, 0) == ResetHolds(cs, mem, 0)
  {
    var p := PauseFrom(cs, mem, 0).1;
    PauseFromMeaning(cs, mem, 0);
    assert AllSatisfied(p, mem, 0) == AllSatisfied(cs, mem, 0) by {
      assert forall j :: 0 <= j < |cs| && cs[j].condType == Standard ==> p[j] == cs[j];
    }
    assert ResetHolds(p, mem, 0) == ResetHolds(cs, mem, 0) by {
      assert forall j :: 0 <= j < |cs| && cs[j].condType == ResetIf ==> p[j] == cs[j];
    }
  }

  /** The ResetIf conditions are the same after the Standard pass. */
  lemma AfterStandard(cs: seq<Cond>, mem: Memory)
    ensures ResetHolds(StandardFrom(cs, mem, false, 0, true, false).conds, mem, 0) == ResetHolds(cs, mem, 0)
  {
    var s := StandardFrom(cs, mem, false, 0, true, false).conds;
    StandardFromMeaning(cs, mem, 0, true, false);
    assert forall j :: 0 <= j < |cs| && cs[j].condType == ResetIf ==> s[j] == cs[j];
  }

  /** A set raises a reset exactly when it is not paused and one of its ResetIf conditions holds. */
  lemma ResetIff(cs: seq<Cond>, mem: Memory)
    ensures EvalCondSet(cs, mem, false).reset <==> !PauseHolds(cs, mem, 0) && ResetHolds(cs, mem, 0)
  {
    PauseFromMeaning(cs, mem, 0);
    var p := PauseFrom(cs, mem, 0).1;
    AfterPause(cs, mem);
    AfterStandard(p, mem);
    ResetFromMeaning(StandardFrom(p, mem, false, 0, true, false).conds, mem, 0);
  }

  /**
   * A set (evaluated without `matchAny`) is valid exactly when no PauseIf
   * condition holds, every Standard condition is satisfied, and no ResetIf
   * condition holds.
   */
  lemma ValidIff(cs: seq<Cond>, mem: Memory)
    ensures EvalCondSet(cs, mem, false).valid
            <==> !PauseHolds(cs, mem, 0) && AllSatisfied(cs, mem, 0) && !ResetHolds(cs, mem, 0)
  {
    PauseFromMeaning(cs, mem, 0);
    var p := PauseFrom(cs, mem, 0).1;
    AfterPause(cs, mem);
    StandardFromMeaning(p, mem, 0, true, false);
    AfterStandard(p, mem);
    ResetFromMeaning(StandardFrom(p, mem, false, 0, true, false).conds, mem, 0);
  }

  /** An empty set is valid: there is nothing to fail. */
  lemma EmptySetValid(mem: Memory, matchAny: bool)
    ensures EvalCondSet([], mem, matchAny) == SetOutcome(true, [], false, false)
  {
  }

  /** A condition whose hit target is set and reached. */
  predicate Reached(c: Cond)
  {
    c.reqHits != 0 && c.currHits >= c.reqHits
  }

  /** No Standard condition counts more hits than its target. */
  predicate WithinTarget(cs: seq<Cond>)
  {
    forall j :: 0 <= j < |cs| && cs[j].condType == Standard && cs[j].reqHits != 0 ==> cs[j].currHits <= cs[j].reqHits
  }

  /**
   * The Standard pass adds at most one hit to a condition still short of
   * its target, and leaves a condition that reached it untouched.
   */
  lemma {:induction false} StandardFromHits(cs: seq<Cond>, mem: Memory, matchAny: bool, i: nat, valid: bool, dirty: bool)
    requires i <= |cs| && WithinTarget(cs)
    ensures var r := StandardFrom(cs, mem, matchAny, i, valid, dirty).conds;
            WithinTarget(r) && forall j :: 0 <= j < |cs| && Reached(cs[j]) ==> r[j] == cs[j]
    decreases |cs| - i
  {
    if i < |cs| {
      var c := cs[i];
      if c.condType != Standard || Reached(c) {
        StandardFromHits(cs, mem, matchAny, i + 1, valid, dirty);
      } else {
        HitStep(c, mem);
        var (holds, tested) := TestCondition(c, mem);
        var hit := tested.(currHits := Wrap32(c.currHits + 1));
        var next := if holds then cs[i := hit] else cs[i := tested];
        assert WithinTarget(next);
        assert forall j :: 0 <= j < |cs| && Reached(cs[j]) ==> next[j] == cs[j];
        if !holds || !matchAny {
          var v := if holds then valid && (hit.reqHits == 0 || hit.currHits >= hit.reqHits) else false;
          StandardFromHits(next, mem, matchAny, i + 1, v, holds || dirty);
        }
      }
    }
  }

  /**
   * Evaluating a set keeps every Standard condition within its hit target,
   * and a Standard condition that has reached its target is not even
   * compared: it comes out exactly as it went in.
   */
  lemma EvalKeepsHitsWithinTarget(cs: seq<Cond>, mem: Memory, matchAny: bool, k: nat)
    requires WithinTarget(cs)
    ensures WithinTarget(EvalCondSet(cs, mem, matchAny).conds)
    ensures k < |cs| && cs[k].condType == Standard && Reached(cs[k]) ==> EvalCondSet(cs, mem, matchAny).conds[k] == cs[k]
  {
    PauseFromMeaning(cs, mem, 0);
    var (paused, p) := PauseFrom(cs, mem, 0);
    assert WithinTarget(p);
    if !paused {
      var s := StandardFrom(p, mem, matchAny, 0, true, false);
      StandardFromHits(p, mem, matchAny, 0, true, false);
      ResetFromMeaning(s.conds, mem, 0);
      var q := ResetFrom(s.conds, mem, 0).1;
      assert forall j :: 0 <= j < |q| && q[j].condType == Standard ==> q[j] == s.conds[j];
    }
  }

  // ---------------------------------------------------------------------
  // The passes, in place

  /** The PauseIf loop of `cheevos_test_cond_set`. */
  method PausePass(conds: array<Cond>, mem: Memory) returns (paused: bool)
    modifies conds
    ensures (paused, conds[..]) == PauseFrom(old(conds[..]), mem, 0)
  {
    var i := 0;
    while i < conds.Length
      invariant i <= conds.Length
      invariant PauseFrom(old(conds[..]), mem, 0) == PauseFrom(conds[..], mem, i)
    {
      if conds[i].condType == PauseIf {
        ghost var before := conds[..];
        var (holds, c) := TestCondition(conds[i].(currHits := 0), mem);
        if holds {
          conds[i] := c.(currHits := 1);
          assert conds[..] == before[i := c.(currHits := 1)];
          return true;
        }
        conds[i] := c;
        assert conds[..] == before[i := c];
      }
      i := i + 1;
    }
    return false;
  }

  /** The Standard loop of `cheevos_test_cond_set`. */
  method StandardPassInPlace(conds: array<Cond>, mem: Memory, matchAny: bool) returns (valid: bool, dirty: bool)
    modifies conds
    ensures StandardPass(valid, conds[..], dirty) == StandardFrom(old(conds[..]), mem, matchAny, 0, true, false)
  {
    valid, dirty := true, false;
    var i := 0;
    while i < conds.Length
      invariant i <= conds.Length
      invariant StandardFrom(old(conds[..]), mem, matchAny, 0, true, false)
                == StandardFrom(conds[..], mem, matchAny, i, valid, dirty)
    {
      var c := conds[i];
      if c.condType != Standard || (c.reqHits != 0 && c.currHits >= c.reqHits) {
        i := i + 1;
        continue;
      }
      ghost var before := conds[..];
      var (holds, tested) := TestCondition(c, mem);
      if holds {
        var hit := tested.(currHits := Wrap32(c.currHits + 1));
        conds[i] := hit;
        assert conds[..] == before[i := hit];
        dirty := true;
        if matchAny {
          return;
        }
        valid := valid && (hit.reqHits == 0 || hit.currHits >= hit.reqHits);
      } else {
        conds[i] := tested;
        assert conds[..] == before[i := tested];
        valid := false;
      }
      i := i + 1;
    }
  }

  /** The ResetIf loop of `cheevos_test_cond_set`. */
  method ResetPass(conds: array<Cond>, mem: Memory) returns (reset: bool)
    modifies conds
    ensures (reset, conds[..]) == ResetFrom(old(conds[..]), mem, 0)
  {
    var i := 0;
    while i < conds.Length
      invariant i <= conds.Length
      invariant ResetFrom(old(conds[..]), mem, 0) == ResetFrom(conds[..], mem, i)
    {
      if conds[i].condType == ResetIf {
        ghost var before := conds[..];
        var (holds, c) := TestCondition(conds[i], mem);
        conds[i] := c;
        assert conds[..] == before[i := c];
        if holds {
          return true;
        }
      }
      i := i + 1;
    }
    return false;
  }

  /**
   * `cheevos_test_cond_set`: evaluates the set in place; `dirty` and `reset`
   * report whether it raised the caller's dirty and reset flags.
   */
  method TestCondSet(conds: array<Cond>, mem: Memory, matchAny: bool) returns (valid: bool, dirty: bool, reset: bool)
    modifies conds
    ensures SetOutcome(valid, conds[..], dirty, reset) == EvalCondSet(old(conds[..]), mem, matchAny)
  {
    var paused := PausePass(conds, mem);
    if paused {
      return false, true, false;
    }
    valid, dirty := StandardPassInPlace(conds, mem, matchAny);
    reset := ResetPass(conds, mem);
    if reset {
      valid := false;
    }
  }

  // ---------------------------------------------------------------------
  // Clearing a set

  /** A condition after `cheevos_reset_cond_set`: no hits, and with `deltas` each operand's remembered value reset to its `value` field. */
  function ResetCond(c: Cond, deltas: bool): (r: Cond)
    ensures r.currHits == 0
    ensures r.condType == c.condType && r.reqHits == c.reqHits && r.op == c.op
    ensures !deltas ==> r == c.(currHits := 0)
  {
    if deltas then
      c.(currHits := 0,
         source := c.source.(previous := c.source.value),
         target := c.target.(previous := c.target.value))
    else c.(currHits := 0)
  }

  function ResetConds(cs: seq<Cond>, deltas: bool): (r: seq<Cond>)
    ensures |r| == |cs|
  {
    seq(|cs|, j requires 0 <= j < |cs| => ResetCond(cs[j], deltas))
  }

  /** Some condition of `cs` has a hit. */
  predicate AnyHits(cs: seq<Cond>)
  {
    exists j :: 0 <= j < |cs| && cs[j].currHits != 0
  }

  /** Clearing leaves no hit, and clearing a cleared set changes nothing. */
  lemma ResetCondsIdempotent(cs: seq<Cond>, deltas: bool)
    ensures !AnyHits(ResetConds(cs, deltas))
    ensures ResetConds(ResetConds(cs, deltas), deltas) == ResetConds(cs, deltas)
  {
  }

  /**
   * `cheevos_reset_cond_set`: clears every hit count (and with `deltas` the
   * remembered operand values); the result says whether any hit was cleared.
   */
  method ResetCondSet(conds: array<Cond>, deltas: bool) returns (dirty: bool)
    modifies conds
    ensures conds[..] == ResetConds(old(conds[..]), deltas)
    ensures dirty <==> AnyHits(old(conds[..]))
  {
    dirty := false;
    var i := 0;
    while i < conds.Length
      invariant i <= conds.Length
      invariant conds[..i] == ResetConds(old(conds[..i]), deltas)
      invariant conds[i..] == old(conds[i..])
      invariant dirty <==> AnyHits(old(conds[..i]))
    {
      dirty := dirty || conds[i].currHits != 0;
      conds[i] := ResetCond(conds[i], deltas);
      i := i + 1;
      assert old(conds[..i]) == old(conds[..i - 1]) + [old(conds[i - 1])];
    }
    assert conds[..] == conds[..i] && old(conds[..]) == old(conds[..i]);
  }
}
