/**
 * The non-drawing part of the viewer's per-frame trajectory update: when a
 * tick does any work, which frame-counter methods it calls, which atoms the
 * tube follows, the index window of each interpolated tube point, and which
 * bonds and tube segments are skipped.
 */
module Trajectory {
  import opened Common
  import opened Structure

  /** A call the tick makes on the state: `next_frame_id` or `loop_frame_id`. */
  datatype CounterCall = NextFrame | LoopFrame

  /** The tick works when a playback flag is set, both data are loaded and
      there is a selection. */
  predicate TickRuns(update: bool, tmp: bool, loop: bool, hasStructure: bool, hasTrajectory: bool,
                     selectionCount: nat)
  {
    (update || tmp || loop) && hasStructure && hasTrajectory && selectionCount > 0
  }

  /** The counter calls of one tick, in order. */
  function TickCalls(update: bool, tmp: bool, loop: bool, hasStructure: bool, hasTrajectory: bool,
                     selectionCount: nat): seq<CounterCall>
  {
    if !TickRuns(update, tmp, loop, hasStructure, hasTrajectory, selectionCount) then []
    else (if update then [NextFrame] else []) + (if loop then [LoopFrame] else [])
  }

  /** `next_frame_id` is called exactly when the tick runs with
      `update_trajectory` set, `loop_frame_id` exactly when it runs with
      `loop_trajectory` set, once each and in that order. */
  lemma TickCallsSpec(update: bool, tmp: bool, loop: bool, hasStructure: bool, hasTrajectory: bool,
                      selectionCount: nat)
    ensures var calls := TickCalls(update, tmp, loop, hasStructure, hasTrajectory, selectionCount);
      var runs := TickRuns(update, tmp, loop, hasStructure, hasTrajectory, selectionCount);
      (NextFrame in calls <==> runs && update) &&
      (LoopFrame in calls <==> runs && loop) &&
      |calls| <= 2 &&
      (|calls| == 2 ==> calls == [NextFrame, LoopFrame]) &&
      (selectionCount == 0 ==> calls == [])
  {
  }

  class MoguraState {
    var updateTrajectory: bool
    var updateTmpTrajectory: bool
    var loopTrajectory: bool
    var hasStructureData: bool
    var hasTrajectoryData: bool
    /** The counter methods called so far. */
    var counterCalls: seq<CounterCall>

    constructor(update: bool, tmp: bool, loop: bool, hasStructure: bool, hasTrajectory: bool)
      ensures updateTrajectory == update && updateTmpTrajectory == tmp && loopTrajectory == loop
      ensures hasStructureData == hasStructure && hasTrajectoryData == hasTrajectory
      ensures counterCalls == []
    {
      updateTrajectory := update;
      updateTmpTrajectory := tmp;
      loopTrajectory := loop;
      hasStructureData := hasStructure;
      hasTrajectoryData := hasTrajectory;
      counterCalls := [];
    }

    method NextFrameId()
      modifies this
      ensures counterCalls == old(counterCalls) + [NextFrame]
      ensures updateTrajectory == old(updateTrajectory) && updateTmpTrajectory == old(updateTmpTrajectory)
      ensures loopTrajectory == old(loopTrajectory)
      ensures hasStructureData == old(hasStructureData) && hasTrajectoryData == old(hasTrajectoryData)
    {
      counterCalls := counterCalls + [NextFrame];
    }

    method LoopFrameId()
      modifies this
      ensures counterCalls == old(counterCalls) + [LoopFrame]
      ensures updateTrajectory == old(updateTrajectory) && updateTmpTrajectory == old(updateTmpTrajectory)
      ensures loopTrajectory == old(loopTrajectory)
      ensures hasStructureData == old(hasStructureData) && hasTrajectoryData == old(hasTrajectoryData)
    {
      counterCalls := counterCalls + [LoopFrame];
    }

    /** `update_trajectory`, without the drawing: a tick that runs makes its
        counter calls and clears `update_tmp_trajectory`; one that does not
        changes nothing. */
    method UpdateTrajectory(selectionCount: nat)
      modifies this
      ensures counterCalls == old(counterCalls) +
        TickCalls(old(updateTrajectory), old(updateTmpTrajectory), old(loopTrajectory),
                  old(hasStructureData), old(hasTrajectoryData), selectionCount)
      ensures updateTmpTrajectory ==
        (if TickRuns(old(updateTrajectory), old(updateTmpTrajectory), old(loopTrajectory),
                     old(hasStructureData), old(hasTrajectoryData), selectionCount)
         then false else old(updateTmpTrajectory))
      ensures updateTrajectory == old(updateTrajectory) && loopTrajectory == old(loopTrajectory)
      ensures hasStructureData == old(hasStructureData) && hasTrajectoryData == old(hasTrajectoryData)
    {
      if (updateTrajectory || updateTmpTrajectory || loopTrajectory) && hasStructureData && hasTrajectoryData {
        if selectionCount == 0 {
          return;
        }
        if updateTrajectory {
          NextFrameId();
        }
        if loopTrajectory {
          LoopFrameId();
        }
        updateTmpTrajectory := false;
      }
    }
  }

  // ---------------------------------------------------------------------
  // The tube

  /** An atom the tube follows: a backbone atom other than HA and O. */
  predicate TubeAtom(a: Atom)
  {
    !(!AtomIsBackbone(a) || (AtomIsBackbone(a) && a.atomName == "HA") ||
      (AtomIsBackbone(a) && a.atomName == "O"))
  }

  /** The ids of the atoms satisfying `keep`, in atom order. */
  function IdsWhere(atoms: seq<Atom>, keep: Atom -> bool): seq<nat>
  {
    if atoms == [] then []
    else
      var last := atoms[|atoms| - 1];
      IdsWhere(atoms[..|atoms| - 1], keep) + (if keep(last) then [last.id] else [])
  }

  /** The ids of the tube atoms, in atom order. */
  function TubeTargets(atoms: seq<Atom>): seq<nat>
  {
    IdsWhere(atoms, TubeAtom)
  }

  /** The target loop of the Tube branch. */
  method CollectTubeTargets(atoms: seq<Atom>) returns (targetAtoms: seq<nat>)
    ensures targetAtoms == TubeTargets(atoms)
  {
    targetAtoms := [];
    for k := 0 to |atoms|
      invariant targetAtoms == TubeTargets(atoms[..k])
    {
      assert atoms[..k + 1][..k] == atoms[..k];
      var atom := atoms[k];
      if !AtomIsBackbone(atom) || (AtomIsBackbone(atom) && atom.atomName == "HA") ||
         (AtomIsBackbone(atom) && atom.atomName == "O") {
        continue;
      }
      targetAtoms := targetAtoms + [atom.id];
    }
    assert atoms[..|atoms|] == atoms;
  }

  /** The tube atoms are the protein atoms named N, CA or C. */
  lemma TubeAtomIff(a: Atom)
    ensures TubeAtom(a) <==> AtomIsProtein(a) && a.atomName in {"N", "CA", "C"}
  {
  }

  /** An id is kept exactly when some atom satisfying `keep` carries it. */
  lemma {:induction false} IdsWhereMembers(atoms: seq<Atom>, keep: Atom -> bool, id: nat)
    ensures id in IdsWhere(atoms, keep) <==> exists k | 0 <= k < |atoms| :: atoms[k].id == id && keep(atoms[k])
  {
    if atoms != [] {
      var init := atoms[..|atoms| - 1];
      var last := atoms[|atoms| - 1];
      IdsWhereMembers(init, keep, id);
      assert IdsWhere(atoms, keep) == IdsWhere(init, keep) + (if keep(last) then [last.id] else []);
      if id in IdsWhere(atoms, keep) {
        if id in IdsWhere(init, keep) {
          var k :| 0 <= k < |init| && init[k].id == id && keep(init[k]);
          assert atoms[k] == init[k];
        } else {
          assert keep(atoms[|atoms| - 1]) && atoms[|atoms| - 1].id == id;
        }
      }
      if exists k | 0 <= k < |atoms| :: atoms[k].id == id && keep(atoms[k]) {
        var k :| 0 <= k < |atoms| && atoms[k].id == id && keep(atoms[k]);
        if k < |init| {
          assert init[k] == atoms[k];
        } else {
          assert id in IdsWhere(atoms, keep)[|IdsWhere(init, keep)|..];
        }
      }
    }
  }

  /** The tube targets are the ids of the protein atoms named N, CA or C. */
  lemma TubeTargetsMembers(atoms: seq<Atom>, id: nat)
    ensures id in TubeTargets(atoms) <==>
      exists k | 0 <= k < |atoms| :: atoms[k].id == id && AtomIsProtein(atoms[k]) && atoms[k].atomName in {"N", "CA", "C"}
  {
    IdsWhereMembers(atoms, TubeAtom, id);
    forall k | 0 <= k < |atoms|
      ensures TubeAtom(atoms[k]) <==> AtomIsProtein(atoms[k]) && atoms[k].atomName in {"N", "CA", "C"}
    {
      TubeAtomIff(atoms[k]);
    }
  }

  /** One interpolated point: window `i` (it reads targets `i - 1 .. i + 2`),
      step `j`, interpolation id `id`. */
  datatype TubePoint = TubePoint(i: nat, j: nat, id: nat)

  /** The points of windows `1 .. e - 1`, numbered from zero. */
  function WindowPoints(e: nat, steps: nat): (ps: seq<TubePoint>)
  {
    if e <= 1 then []
    else
      var before := WindowPoints(e - 1, steps);
      before + seq(steps + 1, j requires 0 <= j <= steps => TubePoint(e - 1, j, |before| + j))
  }

  /** The point loops of the Tube branch, for `len` targets; `None` when
      `len - 2` underflows (fewer than two targets), which panics. */
  method InterpolationPoints(len: nat, steps: nat) returns (r: Option<seq<TubePoint>>)
    ensures r.None? <==> len < 2
    ensures r.Some? ==> r.value == WindowPoints(len - 2, steps)
  {
    if len < 2 {
      return None;
    }
    var points := [];
    var interpolationId := 0;
    if len - 2 < 1 {
      return Some(points);
    }
    for i := 1 to len - 2
      invariant points == WindowPoints(i, steps)
      invariant interpolationId == |points|
    {
      ghost var before := points;
      for j := 0 to steps + 1
        invariant points == before + seq(j, t requires 0 <= t < j => TubePoint(i, t, |before| + t))
        invariant interpolationId == |points|
      {
        points := points + [TubePoint(i, j, interpolationId)];
        interpolationId := interpolationId + 1;
      }
    }
    return Some(points);
  }

  /** Point `k` has id `k`; its window reads only targets inside the list
      (`1 <= i` and `i + 2 < len`), and its step is at most `steps`. */
  lemma {:induction false} WindowPointsInRange(e: nat, steps: nat)
    requires e >= 1
    ensures |WindowPoints(e, steps)| == (e - 1) * (steps + 1)
    ensures forall k :: 0 <= k < |WindowPoints(e, steps)| ==>
      WindowPoints(e, steps)[k].id == k &&
      1 <= WindowPoints(e, steps)[k].i < e && WindowPoints(e, steps)[k].j <= steps
  {
    if e > 1 {
      WindowPointsInRange(e - 1, steps);
      assert (e - 1) * (steps + 1) == (e - 2) * (steps + 1) + (steps + 1);
    }
  }

  /** With `len >= 2` targets, the tube has `(len - 3) * (steps + 1)` points
      (none for two or three targets), and every window index is a valid
      target index. */
  lemma TubeWindowsInRange(len: nat, steps: nat)
    requires len >= 2
    ensures len >= 3 ==> |WindowPoints(len - 2, steps)| == (len - 3) * (steps + 1)
    ensures len <= 3 ==> WindowPoints(len - 2, steps) == []
    ensures forall p :: p in WindowPoints(len - 2, steps) ==> 0 <= p.i - 1 && p.i + 2 < len
  {
    if len >= 3 {
      WindowPointsInRange(len - 2, steps);
      forall p | p in WindowPoints(len - 2, steps)
        ensures 0 <= p.i - 1 && p.i + 2 < len
      {
        var k :| 0 <= k < |WindowPoints(len - 2, steps)| && WindowPoints(len - 2, steps)[k] == p;
      }
    }
  }

  // ---------------------------------------------------------------------
  // Skipped segments

  /** A bond whose end points are more than the cutoff apart is not drawn. */
  predicate BondSkipped(start: Vec3, end: Vec3)
  {
    Dist2(start, end) > GeneralBondCutoff2
  }

  /** No bond that bond inference found on the same positions is skipped. */
  lemma InferredBondsDrawn(atoms: seq<Atom>, p: Pair)
    requires p in IndirectedPairs(atoms)
    ensures p.0 < |atoms| && p.1 < |atoms|
    ensures !BondSkipped(atoms[p.0].pos, atoms[p.1].pos) && !BondSkipped(atoms[p.1].pos, atoms[p.0].pos)
  {
    IndirectedMembers(atoms, p);
    Dist2Symmetric(atoms[p.0].pos, atoms[p.1].pos);
  }

  /** The longest tube segment drawn: twice the cutoff over the step count. */
  function TubeSegmentLimit(steps: nat): (limit: real)
    requires steps > 0
    ensures limit * (steps as real) == 3.2
  {
    1.6 / (steps as real) * 2.0
  }

  predicate TubeSegmentSkipped(length: real, steps: nat)
    requires steps > 0
  {
    length > TubeSegmentLimit(steps)
  }
}
