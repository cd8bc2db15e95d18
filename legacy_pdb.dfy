/**
 * `PDBSystem` of the earlier viewer: the atoms of a PDB file together with
 * their bonds and the vertex and index buffers of the line model, updated
 * in place by picking, moving and bond detection.
 */
module LegacyPdb {
  import opened Common
  import opened LegacyBond
  import opened LegacyModel
  import PdbLoader
  import Structure

  // ---------------------------------------------------------------------
  // Building the atom list

  /** The residue passes of `from`: every model walks its own chains. */
  function SystemVisits(models: seq<PdbLoader.LibModel>, i: nat): seq<PdbLoader.Visit>
    requires i <= |models|
  {
    if i == 0 then []
    else SystemVisits(models, i - 1) + PdbLoader.ModelVisits(models[i - 1], models[i - 1].chains, |models[i - 1].chains|)
  }

  function SystemAtom(id: nat, v: PdbLoader.Visit, a: PdbLoader.LibAtom): PdbAtom
  {
    PdbAtom(id, v.model.serial, v.chain.id, v.residue.serial, PdbLoader.ResidueName(v.residue),
            a.serial, a.name, a.pos)
  }

  /** The first `l` atoms of the residue of `v`, numbered from `start`. */
  function ResidueAtoms(v: PdbLoader.Visit, start: nat, l: nat): (atoms: seq<PdbAtom>)
    requires l <= |v.residue.atoms|
    ensures |atoms| == l
  {
    if l == 0 then [] else ResidueAtoms(v, start, l - 1) + [SystemAtom(start + l - 1, v, v.residue.atoms[l - 1])]
  }

  /** The atoms the passes `vs` push, numbered from zero. */
  function SystemAtoms(vs: seq<PdbLoader.Visit>): seq<PdbAtom>
  {
    if vs == [] then []
    else
      var v := vs[|vs| - 1];
      SystemAtoms(vs[..|vs| - 1]) + ResidueAtoms(v, PdbLoader.AtomTotal(vs[..|vs| - 1]), |v.residue.atoms|)
  }

  lemma SnocSystem(vs: seq<PdbLoader.Visit>, v: PdbLoader.Visit)
    ensures PdbLoader.AtomTotal(vs + [v]) == PdbLoader.AtomTotal(vs) + |v.residue.atoms|
    ensures SystemAtoms(vs + [v]) == SystemAtoms(vs) + ResidueAtoms(v, PdbLoader.AtomTotal(vs), |v.residue.atoms|)
  {
    assert (vs + [v])[..|vs|] == vs;
  }

  /** The atom loop of one residue. */
  method PushResidue(atoms: seq<PdbAtom>, model: PdbLoader.LibModel, chain: PdbLoader.LibChain,
                     residue: PdbLoader.LibResidue, start: nat)
    returns (pushed: seq<PdbAtom>)
    ensures pushed == atoms + ResidueAtoms(PdbLoader.Visit(model, chain, residue), start, |residue.atoms|)
  {
    ghost var v := PdbLoader.Visit(model, chain, residue);
    var id := start;
    pushed := atoms;
    for l := 0 to |residue.atoms|
      invariant id == start + l
      invariant pushed == atoms + ResidueAtoms(v, start, l)
    {
      var atom := residue.atoms[l];
      pushed := pushed + [PdbAtom(id, model.serial, chain.id, residue.serial, PdbLoader.ResidueName(residue),
                                  atom.serial, atom.name, atom.pos)];
      id := id + 1;
    }
  }

  /** The residue loop of `from` over one chain, continuing the running id
      and the atom list built by the passes `before`. */
  method PushChain(model: PdbLoader.LibModel, chain: PdbLoader.LibChain, ghost before: seq<PdbLoader.Visit>,
                   id0: nat, atoms0: seq<PdbAtom>)
    returns (id: nat, atoms: seq<PdbAtom>)
    requires id0 == PdbLoader.AtomTotal(before) && atoms0 == SystemAtoms(before)
    ensures id == PdbLoader.AtomTotal(before + PdbLoader.ChainVisits(model, chain, |chain.residues|))
    ensures atoms == SystemAtoms(before + PdbLoader.ChainVisits(model, chain, |chain.residues|))
  {
    id, atoms := id0, atoms0;
    ghost var vs := before;
    assert before + PdbLoader.ChainVisits(model, chain, 0) == before;
    for k := 0 to |chain.residues|
      invariant vs == before + PdbLoader.ChainVisits(model, chain, k)
      invariant id == PdbLoader.AtomTotal(vs) && atoms == SystemAtoms(vs)
    {
      var residue := chain.residues[k];
      ghost var v := PdbLoader.Visit(model, chain, residue);
      atoms := PushResidue(atoms, model, chain, residue, id);
      id := id + |residue.atoms|;
      SnocSystem(vs, v);
      vs := vs + [v];
    }
  }

  /** The chain loop of `from` over the chains of one model. */
  method PushModel(model: PdbLoader.LibModel, ghost done: seq<PdbLoader.Visit>, id0: nat, atoms0: seq<PdbAtom>)
    returns (id: nat, atoms: seq<PdbAtom>)
    requires id0 == PdbLoader.AtomTotal(done) && atoms0 == SystemAtoms(done)
    ensures id == PdbLoader.AtomTotal(done + PdbLoader.ModelVisits(model, model.chains, |model.chains|))
    ensures atoms == SystemAtoms(done + PdbLoader.ModelVisits(model, model.chains, |model.chains|))
  {
    id, atoms := id0, atoms0;
    ghost var vs := done;
    assert done + PdbLoader.ModelVisits(model, model.chains, 0) == done;
    for j := 0 to |model.chains|
      invariant vs == done + PdbLoader.ModelVisits(model, model.chains, j)
      invariant id == PdbLoader.AtomTotal(vs) && atoms == SystemAtoms(vs)
    {
      id, atoms := PushChain(model, model.chains[j], vs, id, atoms);
      PdbLoader.ModelVisitsStep(done, model, model.chains, j);
      vs := done + PdbLoader.ModelVisits(model, model.chains, j + 1);
    }
  }

  /** The four nested loops of `from`: every model walks its own chains. */
  method CollectAtoms(pdb: PdbLoader.LibPdb) returns (atoms: seq<PdbAtom>)
    ensures atoms == SystemAtoms(SystemVisits(pdb.models, |pdb.models|))
  {
    var id := 0;
    atoms := [];
    for i := 0 to |pdb.models|
      invariant id == PdbLoader.AtomTotal(SystemVisits(pdb.models, i))
      invariant atoms == SystemAtoms(SystemVisits(pdb.models, i))
    {
      id, atoms := PushModel(pdb.models[i], SystemVisits(pdb.models, i), id, atoms);
    }
  }

  /** Atom `t` of a residue is numbered `start + t`. */
  lemma {:induction false} ResidueAtomsIds(v: PdbLoader.Visit, start: nat, l: nat)
    requires l <= |v.residue.atoms|
    ensures forall t :: 0 <= t < l ==> ResidueAtoms(v, start, l)[t].id == start + t
  {
    if l > 0 {
      var xs := ResidueAtoms(v, start, l - 1);
      ResidueAtomsIds(v, start, l - 1);
      assert ResidueAtoms(v, start, l) == xs + [SystemAtom(start + l - 1, v, v.residue.atoms[l - 1])];
    }
  }

  /** Atom ids are 0, 1, 2, ... in model, chain, residue, atom order. */
  lemma {:induction false} SystemIdsDense(vs: seq<PdbLoader.Visit>)
    ensures |SystemAtoms(vs)| == PdbLoader.AtomTotal(vs)
    ensures forall t :: 0 <= t < |SystemAtoms(vs)| ==> SystemAtoms(vs)[t].id == t
  {
    if vs != [] {
      var init := vs[..|vs| - 1];
      var v := vs[|vs| - 1];
      SystemIdsDense(init);
      ResidueAtomsIds(v, PdbLoader.AtomTotal(init), |v.residue.atoms|);
    }
  }

  /** Every model has the chains of the first. */
  predicate SameChains(pdb: PdbLoader.LibPdb)
  {
    forall i :: 0 <= i < |pdb.models| ==> pdb.models[i].chains == PdbLoader.FileChains(pdb)
  }

  lemma {:induction false} SystemVisitsAgree(pdb: PdbLoader.LibPdb, i: nat)
    requires SameChains(pdb) && i <= |pdb.models|
    ensures SystemVisits(pdb.models, i) == PdbLoader.FileVisits(pdb.models, PdbLoader.FileChains(pdb), i)
  {
    if i > 0 {
      SystemVisitsAgree(pdb, i - 1);
    }
  }

  /** Where the models share their chains, `from` walks the residues in the
      same order as the newer loader; otherwise each model brings its own. */
  lemma SystemVisitsAsLoader(pdb: PdbLoader.LibPdb)
    requires SameChains(pdb)
    ensures SystemVisits(pdb.models, |pdb.models|) == PdbLoader.Visits(pdb)
  {
    SystemVisitsAgree(pdb, |pdb.models|);
  }

  // ---------------------------------------------------------------------
  // The system

  /** The colour of every vertex of the line model. */
  const LineColor: Vec3 := Vec3(0.0, 0.5, 1.0)

  /** `ALLOWED_RADIUS`: how close to the gaze an atom must be to be picked. */
  const AllowedRadius: real := 1.0

  /** `MOVE_SCALE`: mouse pixels per unit of displacement. */
  const MoveScale: real := 100.0

  datatype GroupToSelect = Atoms | Residues | Molecules

  class PdbSystem {
    var atoms: seq<PdbAtom>
    var bonds: seq<Bond>
    var vertices: seq<Vertex>
    var indices: seq<nat>

    /** `PDBSystem::from`. */
    constructor From(pdb: PdbLoader.LibPdb)
      ensures atoms == SystemAtoms(SystemVisits(pdb.models, |pdb.models|))
      ensures bonds == [] && vertices == [] && indices == []
    {
      var collected := CollectAtoms(pdb);
      atoms := collected;
      bonds := [];
      vertices := [];
      indices := [];
    }

    /** `center`: the mean atom position; `None` where the source divides
        by an atom count of zero. */
    method Center() returns (center: Option<Vec3>)
      ensures center == MeanOf(atoms)
    {
      var x, y, z := 0.0, 0.0, 0.0;
      for i := 0 to |atoms|
        invariant Vec3(x, y, z) == PositionSum(atoms[..i])
      {
        assert atoms[..i + 1][..i] == atoms[..i];
        x := x + atoms[i].pos.x;
        y := y + atoms[i].pos.y;
        z := z + atoms[i].pos.z;
      }
      assert atoms[..|atoms|] == atoms;
      if |atoms| == 0 {
        return None;
      }
      var n := |atoms| as real;
      center := Some(Vec3(x / n, y / n, z / n));
    }

    /** `set_line_model`: one vertex per atom and two indices per bond. */
    method SetLineModel()
      modifies this
      ensures vertices == LineVertices(atoms) && indices == BondIndices(bonds)
      ensures atoms == old(atoms) && bonds == old(bonds)
    {
      var xs, bs := atoms, bonds;
      var newVertices: seq<Vertex> := [];
      var newIndices: seq<nat> := [];
      for i := 0 to |xs|
        invariant newVertices == LineVertices(xs[..i])
      {
        assert xs[..i + 1][..i] == xs[..i];
        var atom := xs[i];
        newVertices := newVertices + [Vertex(atom.pos, atom.pos, LineColor)];
      }
      assert xs[..|xs|] == xs;
      for k := 0 to |bs|
        invariant newIndices == BondIndices(bs[..k])
      {
        assert bs[..k + 1][..k] == bs[..k];
        var bond := bs[k];
        newIndices := newIndices + [AsU16(bond.pair1)];
        newIndices := newIndices + [AsU16(bond.pair2)];
      }
      assert bs[..|bs|] == bs;
      vertices := newVertices;
      indices := newIndices;
    }

    /** `which_group_is_selected`, with the distance from the mouse gaze ray
        to an atom given as `dist`. */
    method WhichGroupIsSelected(dist: PdbAtom -> real, kind: GroupToSelect)
      returns (group: set<nat>, isTouched: bool)
      ensures isTouched <==> FirstWithin(atoms, dist, 0).Some?
      ensures !isTouched ==> group == {}
      ensures isTouched ==> group == GroupOf(atoms, atoms[FirstWithin(atoms, dist, 0).value], kind)
    {
      ghost var result := Scan(atoms, dist, 0, None, None);
      var nearest: Option<PdbAtom> := None;
      var best: Option<real> := None;
      var i := 0;
      while i < |atoms|
        invariant i <= |atoms|
        invariant Scan(atoms, dist, i, nearest, best) == result
        invariant !Within(best)
      {
        var d := dist(atoms[i]);
        if best.None? || best.value > d {
          best := Some(d);
          nearest := Some(atoms[i]);
        }
        if best.Some? && best.value <= AllowedRadius {
          break;
        }
        i := i + 1;
      }
      assert (nearest, best) == result;
      ScanFindsFirst(atoms, dist, 0, None, None);
      group := {};
      if best.Some? && best.value <= AllowedRadius {
        isTouched := true;
        match kind
        case Atoms =>
          if nearest.Some? {
            group := group + {nearest.value.id};
          }
        case Residues =>
          if nearest.Some? {
            var n := nearest.value;
            for j := 0 to |atoms|
              invariant group == set a | a in atoms[..j] && SameGroup(Residues, n, a) :: a.id
            {
              assert atoms[..j + 1] == atoms[..j] + [atoms[j]];
              if n.residueId == atoms[j].residueId && n.chainName == atoms[j].chainName {
                group := group + {atoms[j].id};
              }
            }
            assert atoms[..|atoms|] == atoms;
          }
        case Molecules =>
          if nearest.Some? {
            var n := nearest.value;
            for j := 0 to |atoms|
              invariant group == set a | a in atoms[..j] && SameGroup(Molecules, n, a) :: a.id
            {
              assert atoms[..j + 1] == atoms[..j] + [atoms[j]];
              if n.chainName == atoms[j].chainName {
                group := group + {atoms[j].id};
              }
            }
            assert atoms[..|atoms|] == atoms;
          }
      } else {
        isTouched := false;
      }
    }

    /** `move_with_nnp`: its body is empty. */
    method MoveWithNnp(deltaX: real, deltaY: real, moveVec: (Vec3, Vec3), selected: set<nat>)
      modifies this
      ensures atoms == old(atoms) && bonds == old(bonds)
      ensures vertices == old(vertices) && indices == old(indices)
    {
    }

    /** `move_without_nnp`: the selected atoms follow the mouse. */
    method MoveWithoutNnp(deltaX: real, deltaY: real, moveVec: (Vec3, Vec3), selected: set<nat>)
      modifies this
      ensures atoms == Moved(old(atoms), selected, Displacement(deltaX, deltaY, moveVec))
      ensures bonds == old(bonds) && vertices == old(vertices) && indices == old(indices)
    {
      var moveX := -deltaY / MoveScale * moveVec.0.x + deltaX / MoveScale * moveVec.1.x;
      var moveY := -deltaY / MoveScale * moveVec.0.y + deltaX / MoveScale * moveVec.1.y;
      var moveZ := -deltaY / MoveScale * moveVec.0.z + deltaX / MoveScale * moveVec.1.z;
      assert Vec3(moveX, moveY, moveZ) == Displacement(deltaX, deltaY, moveVec);
      var updated := ApplyMove(atoms, selected, moveX, moveY, moveZ);
      atoms := updated;
    }

    /** `update_bonds_all`: every formed bond between two atoms, each pair
        once, in the order of `combinations(2)`. */
    method UpdateBondsAll()
      modifies this
      ensures bonds == AllBonds(atoms, |atoms|)
      ensures atoms == old(atoms) && vertices == old(vertices) && indices == old(indices)
    {
      var xs := atoms;
      var n := |xs|;
      var found: seq<Bond> := [];
      for i := 0 to n
        invariant found == AllBonds(xs, i)
        invariant atoms == xs && vertices == old(vertices) && indices == old(indices)
      {
        found := PushRow(xs, i, found);
      }
      bonds := found;
    }
  }

  // ---------------------------------------------------------------------
  // Centre

  function PositionSum(atoms: seq<PdbAtom>): Vec3
  {
    if atoms == [] then Vec3(0.0, 0.0, 0.0)
    else Add(PositionSum(atoms[..|atoms| - 1]), atoms[|atoms| - 1].pos)
  }

  function MeanOf(atoms: seq<PdbAtom>): Option<Vec3>
  {
    if atoms == [] then None
    else
      var s, n := PositionSum(atoms), |atoms| as real;
      Some(Vec3(s.x / n, s.y / n, s.z / n))
  }

  // ---------------------------------------------------------------------
  // Line model

  function LineVertices(atoms: seq<PdbAtom>): (vs: seq<Vertex>)
    ensures |vs| == |atoms|
  {
    if atoms == [] then []
    else LineVertices(atoms[..|atoms| - 1]) + [Vertex(atoms[|atoms| - 1].pos, atoms[|atoms| - 1].pos, LineColor)]
  }

  function BondIndices(bonds: seq<Bond>): (ixs: seq<nat>)
    ensures |ixs| == 2 * |bonds|
  {
    if bonds == [] then []
    else
      var b := bonds[|bonds| - 1];
      BondIndices(bonds[..|bonds| - 1]) + [AsU16(b.pair1), AsU16(b.pair2)]
  }

  /** Vertex `k` sits at atom `k`, with its position as normal and the line colour. */
  lemma {:induction false} LineVerticesAt(atoms: seq<PdbAtom>)
    ensures forall k :: 0 <= k < |atoms| ==>
      LineVertices(atoms)[k] == Vertex(atoms[k].pos, atoms[k].pos, LineColor)
  {
    if atoms != [] {
      LineVerticesAt(atoms[..|atoms| - 1]);
    }
  }

  /** Indices `2k` and `2k + 1` are the end points of bond `k`, cut to 16 bits. */
  lemma {:induction false} BondIndicesAt(bonds: seq<Bond>)
    ensures forall k :: 0 <= k < |bonds| ==>
      BondIndices(bonds)[2 * k] == AsU16(bonds[k].pair1) && BondIndices(bonds)[2 * k + 1] == AsU16(bonds[k].pair2)
  {
    if bonds != [] {
      BondIndicesAt(bonds[..|bonds| - 1]);
    }
  }

  /** With at most 65536 atoms, the index buffer names the bonds' own atoms,
      each a vertex of the line model. */
  lemma LineModelInRange(atoms: seq<PdbAtom>, bonds: seq<Bond>)
    requires |atoms| <= U16Bound
    requires forall k :: 0 <= k < |bonds| ==> Indexes(bonds[k], atoms)
    ensures forall k :: 0 <= k < |bonds| ==>
      BondIndices(bonds)[2 * k] == bonds[k].pair1 && BondIndices(bonds)[2 * k + 1] == bonds[k].pair2
    ensures forall x :: 0 <= x < |BondIndices(bonds)| ==> BondIndices(bonds)[x] < |LineVertices(atoms)|
  {
    BondIndicesAt(bonds);
    forall x | 0 <= x < |BondIndices(bonds)|
      ensures BondIndices(bonds)[x] < |atoms|
    {
      var k := x / 2;
      assert x == 2 * k || x == 2 * k + 1;
      assert k < |bonds| && Indexes(bonds[k], atoms);
    }
  }

  // ---------------------------------------------------------------------
  // Picking

  /** The running minimum holds a distance within the allowed radius; `None`
      stands for the starting infinity. */
  predicate Within(best: Option<real>)
  {
    best.Some? && best.value <= AllowedRadius
  }

  /** The nearest-atom scan from atom `i`, with the nearest atom and its
      distance so far: a strictly smaller distance replaces them, and the
      scan stops once the distance is within the radius. */
  function Scan(atoms: seq<PdbAtom>, dist: PdbAtom -> real, i: nat, nearest: Option<PdbAtom>, best: Option<real>)
    : (Option<PdbAtom>, Option<real>)
    requires i <= |atoms|
    decreases |atoms| - i
  {
    if i == |atoms| then (nearest, best)
    else
      var d := dist(atoms[i]);
      var closer := best.None? || best.value > d;
      var nearest' := if closer then Some(atoms[i]) else nearest;
      var best' := if closer then Some(d) else best;
      if Within(best') then (nearest', best') else Scan(atoms, dist, i + 1, nearest', best')
  }

  /** The first atom from `i` on within the radius of the gaze. */
  function FirstWithin(atoms: seq<PdbAtom>, dist: PdbAtom -> real, i: nat): (r: Option<nat>)
    requires i <= |atoms|
    ensures r.Some? ==> i <= r.value < |atoms| && dist(atoms[r.value]) <= AllowedRadius
    decreases |atoms| - i
  {
    if i == |atoms| then None
    else if dist(atoms[i]) <= AllowedRadius then Some(i)
    else FirstWithin(atoms, dist, i + 1)
  }

  /** The scan, started outside the radius, stops at the first atom within
      it and picks that atom; with no such atom it ends outside the radius. */
  lemma {:induction false} ScanFindsFirst(atoms: seq<PdbAtom>, dist: PdbAtom -> real, i: nat,
                                          nearest: Option<PdbAtom>, best: Option<real>)
    requires i <= |atoms| && !Within(best)
    ensures FirstWithin(atoms, dist, i).None? ==> !Within(Scan(atoms, dist, i, nearest, best).1)
    ensures FirstWithin(atoms, dist, i).Some? ==>
      var t := FirstWithin(atoms, dist, i).value;
      Scan(atoms, dist, i, nearest, best) == (Some(atoms[t]), Some(dist(atoms[t])))
    decreases |atoms| - i
  {
    if i < |atoms| && dist(atoms[i]) > AllowedRadius {
      var d := dist(atoms[i]);
      var closer := best.None? || best.value > d;
      ScanFindsFirst(atoms, dist, i + 1, if closer then Some(atoms[i]) else nearest, if closer then Some(d) else best);
    }
  }

  /** Whether `a` belongs to the group of the picked atom `n`. */
  predicate SameGroup(kind: GroupToSelect, n: PdbAtom, a: PdbAtom)
  {
    match kind
    case Atoms => a == n
    case Residues => n.residueId == a.residueId && n.chainName == a.chainName
    case Molecules => n.chainName == a.chainName
  }

  /** The ids selected when `n` is picked: itself, its residue (same residue
      id and chain) or its molecule (same chain). */
  function GroupOf(atoms: seq<PdbAtom>, n: PdbAtom, kind: GroupToSelect): set<nat>
  {
    if kind == Atoms then {n.id} else set a | a in atoms && SameGroup(kind, n, a) :: a.id
  }

  /** The group of a picked atom holds its id and only ids of atoms of the
      system; a residue lies inside its molecule. */
  lemma GroupFacts(atoms: seq<PdbAtom>, n: PdbAtom, kind: GroupToSelect)
    requires n in atoms
    ensures n.id in GroupOf(atoms, n, kind)
    ensures forall x :: x in GroupOf(atoms, n, kind) ==> exists a :: a in atoms && a.id == x && SameGroup(kind, n, a)
    ensures GroupOf(atoms, n, Atoms) <= GroupOf(atoms, n, Residues) <= GroupOf(atoms, n, Molecules)
  {
    assert SameGroup(kind, n, n);
  }

  /** Picking touches an atom exactly when some atom is within the radius of
      the gaze, and then the group holds the first such atom's id. */
  lemma PickedGroup(atoms: seq<PdbAtom>, dist: PdbAtom -> real, kind: GroupToSelect)
    ensures FirstWithin(atoms, dist, 0).Some? <==> exists k :: 0 <= k < |atoms| && dist(atoms[k]) <= AllowedRadius
    ensures FirstWithin(atoms, dist, 0).Some? ==>
      atoms[FirstWithin(atoms, dist, 0).value].id in GroupOf(atoms, atoms[FirstWithin(atoms, dist, 0).value], kind)
  {
    FirstWithinExists(atoms, dist, 0);
    if FirstWithin(atoms, dist, 0).Some? {
      GroupFacts(atoms, atoms[FirstWithin(atoms, dist, 0).value], kind);
    }
  }

  lemma {:induction false} FirstWithinExists(atoms: seq<PdbAtom>, dist: PdbAtom -> real, i: nat)
    requires i <= |atoms|
    ensures FirstWithin(atoms, dist, i).Some? <==> exists k :: i <= k < |atoms| && dist(atoms[k]) <= AllowedRadius
    decreases |atoms| - i
  {
    if i < |atoms| && dist(atoms[i]) > AllowedRadius {
      FirstWithinExists(atoms, dist, i + 1);
    }
  }

  // ---------------------------------------------------------------------
  // Moving

  /** The displacement of a mouse drag of `deltaX`, `deltaY` pixels along
      the two screen axes `moveVec`. */
  function Displacement(deltaX: real, deltaY: real, moveVec: (Vec3, Vec3)): Vec3
  {
    Vec3(-deltaY / MoveScale * moveVec.0.x + deltaX / MoveScale * moveVec.1.x,
         -deltaY / MoveScale * moveVec.0.y + deltaX / MoveScale * moveVec.1.y,
         -deltaY / MoveScale * moveVec.0.z + deltaX / MoveScale * moveVec.1.z)
  }

  /** The apply loop of `move_without_nnp`, on the atom list. */
  method ApplyMove(original: seq<PdbAtom>, selected: set<nat>, moveX: real, moveY: real, moveZ: real)
    returns (updated: seq<PdbAtom>)
    ensures updated == Moved(original, selected, Vec3(moveX, moveY, moveZ))
  {
    ghost var d := Vec3(moveX, moveY, moveZ);
    updated := original;
    for i := 0 to |updated|
      invariant |updated| == |original|
      invariant updated == Moved(original[..i], selected, d) + original[i..]
    {
      MoveStep(original, updated, i, selected, d);
      if updated[i].id in selected {
        var p := updated[i].pos;
        updated := updated[i := updated[i].(pos := Vec3(p.x + moveX, p.y + moveY, p.z + moveZ))];
      } else {
        assert updated == updated[i := MoveAtom(original[i], selected, d)];
      }
    }
    assert original[..|original|] == original && original[|original|..] == [];
  }

  /** One pass of the move loop, on the sequence being updated. */
  lemma MoveStep(original: seq<PdbAtom>, updated: seq<PdbAtom>, i: nat, selected: set<nat>, d: Vec3)
    requires i < |original| == |updated|
    requires updated == Moved(original[..i], selected, d) + original[i..]
    ensures updated[i] == original[i]
    ensures updated[i := MoveAtom(original[i], selected, d)] == Moved(original[..i + 1], selected, d) + original[i + 1..]
  {
    assert original[..i + 1][..i] == original[..i];
    assert original[i..] == [original[i]] + original[i + 1..];
  }

  function MoveAtom(a: PdbAtom, selected: set<nat>, d: Vec3): PdbAtom
  {
    if a.id in selected then a.(pos := Add(a.pos, d)) else a
  }

  function Moved(atoms: seq<PdbAtom>, selected: set<nat>, d: Vec3): (moved: seq<PdbAtom>)
    ensures |moved| == |atoms|
  {
    if atoms == [] then []
    else Moved(atoms[..|atoms| - 1], selected, d) + [MoveAtom(atoms[|atoms| - 1], selected, d)]
  }

  /** Exactly the selected atoms move, all by `d`; nothing else about any
      atom changes. */
  lemma {:induction false} MovedAt(atoms: seq<PdbAtom>, selected: set<nat>, d: Vec3)
    ensures forall k :: 0 <= k < |atoms| ==>
      Moved(atoms, selected, d)[k] == atoms[k].(pos := Moved(atoms, selected, d)[k].pos)
    ensures forall k :: 0 <= k < |atoms| ==>
      Moved(atoms, selected, d)[k].pos == if atoms[k].id in selected then Add(atoms[k].pos, d) else atoms[k].pos
  {
    if atoms != [] {
      MovedAt(atoms[..|atoms| - 1], selected, d);
    }
  }

  /** Dragging back by the opposite amount restores every atom. */
  lemma {:induction false} MoveBack(atoms: seq<PdbAtom>, selected: set<nat>, deltaX: real, deltaY: real, moveVec: (Vec3, Vec3))
    ensures Moved(Moved(atoms, selected, Displacement(deltaX, deltaY, moveVec)), selected,
                  Displacement(-deltaX, -deltaY, moveVec)) == atoms
  {
    var d, back := Displacement(deltaX, deltaY, moveVec), Displacement(-deltaX, -deltaY, moveVec);
    assert back == Scale(d, -1.0);
    var once := Moved(atoms, selected, d);
    MovedAt(atoms, selected, d);
    MovedAt(once, selected, back);
    forall k | 0 <= k < |atoms|
      ensures Moved(once, selected, back)[k] == atoms[k]
    {
      assert once[k].id == atoms[k].id;
    }
  }

  /** When every atom is selected, the centre moves by the same displacement. */
  lemma {:induction false} MovedSum(atoms: seq<PdbAtom>, selected: set<nat>, d: Vec3)
    requires forall k :: 0 <= k < |atoms| ==> atoms[k].id in selected
    ensures PositionSum(Moved(atoms, selected, d)) == Add(PositionSum(atoms), Scale(d, |atoms| as real))
  {
    if atoms != [] {
      var init := atoms[..|atoms| - 1];
      MovedSum(init, selected, d);
      assert Moved(atoms, selected, d)[..|atoms| - 1] == Moved(init, selected, d);
      Structure.ShiftSum(PositionSum(init), atoms[|atoms| - 1].pos, d, |init| as real);
    }
  }

  lemma CenterFollowsMove(atoms: seq<PdbAtom>, selected: set<nat>, d: Vec3)
    requires atoms != []
    requires forall k :: 0 <= k < |atoms| ==> atoms[k].id in selected
    ensures MeanOf(Moved(atoms, selected, d)) == Some(Add(MeanOf(atoms).value, d))
  {
    MovedSum(atoms, selected, d);
    var n := |atoms| as real;
    var s := PositionSum(atoms);
    Structure.ShiftMeanVec(s, d, n);
    var t := PositionSum(Moved(atoms, selected, d));
    DivIsScale(s, n);
    DivIsScale(t, n);
  }

  lemma DivIsScale(v: Vec3, n: real)
    requires n > 0.0
    ensures Vec3(v.x / n, v.y / n, v.z / n) == Scale(v, 1.0 / n)
  {
  }

  // ---------------------------------------------------------------------
  // Bonds

  /** The bond candidate `(i, j)`, typed by the two atom names. */
  function Candidate(atoms: seq<PdbAtom>, i: nat, j: nat): (b: Bond)
    requires i < j < |atoms|
    ensures Indexes(b, atoms)
  {
    NewBond(i, j, atoms[i].atomName, atoms[j].atomName)
  }

  /** The formed bonds `(i, j)` for `i < j < m`. */
  function RowBonds(atoms: seq<PdbAtom>, i: nat, m: nat): seq<Bond>
    requires i < m <= |atoms|
    decreases m
  {
    if m == i + 1 then []
    else RowBonds(atoms, i, m - 1) + (if IsFormed(Candidate(atoms, i, m - 1), atoms) then [Candidate(atoms, i, m - 1)] else [])
  }

  /** The formed bonds whose first atom is below `n`. */
  function AllBonds(atoms: seq<PdbAtom>, n: nat): seq<Bond>
    requires n <= |atoms|
  {
    if n == 0 then [] else AllBonds(atoms, n - 1) + RowBonds(atoms, n - 1, |atoms|)
  }

  /** The inner loop of `update_bonds_all`: the pairs `(i, j)`, `j > i`. */
  method PushRow(atoms: seq<PdbAtom>, i: nat, found: seq<Bond>) returns (pushed: seq<Bond>)
    requires i < |atoms|
    ensures pushed == found + RowBonds(atoms, i, |atoms|)
  {
    pushed := found;
    for j := i + 1 to |atoms|
      invariant pushed == found + RowBonds(atoms, i, j)
    {
      var bond := NewBond(i, j, atoms[i].atomName, atoms[j].atomName);
      assert bond == Candidate(atoms, i, j);
      if IsFormed(bond, atoms) {
        pushed := pushed + [bond];
      }
    }
  }

  predicate Before(b: Bond, c: Bond)
  {
    b.pair1 < c.pair1 || (b.pair1 == c.pair1 && b.pair2 < c.pair2)
  }

  /** `b` is a formed bond `(i, j)` with `i < j`, typed by its atom names. */
  predicate FormedPair(atoms: seq<PdbAtom>, b: Bond)
  {
    b.pair1 < b.pair2 < |atoms| && b == Candidate(atoms, b.pair1, b.pair2) && IsFormed(b, atoms)
  }

  /** Bond `k` of row `i` below column `m` is a formed pair `(i, j)`, `j < m`. */
  lemma {:induction false} RowBondsSoundAt(atoms: seq<PdbAtom>, i: nat, m: nat, k: nat)
    requires i < m <= |atoms| && k < |RowBonds(atoms, i, m)|
    ensures RowBonds(atoms, i, m)[k].pair1 == i && RowBonds(atoms, i, m)[k].pair2 < m
    ensures FormedPair(atoms, RowBonds(atoms, i, m)[k])
    decreases m
  {
    var prev := RowBonds(atoms, i, m - 1);
    var c := Candidate(atoms, i, m - 1);
    var extra := if IsFormed(c, atoms) then [c] else [];
    assert RowBonds(atoms, i, m) == prev + extra;
    if k < |prev| {
      RowBondsSoundAt(atoms, i, m - 1, k);
      assert RowBonds(atoms, i, m)[k] == prev[k];
    } else {
      assert RowBonds(atoms, i, m)[k] == c;
    }
  }

  /** A formed pair `(i, j)` with `j < m` stands in row `i` below column `m`,
      at the returned position. */
  lemma {:induction false} RowBondsIndex(atoms: seq<PdbAtom>, i: nat, m: nat, b: Bond) returns (k: nat)
    requires i < m <= |atoms| && b.pair1 == i && b.pair2 < m && FormedPair(atoms, b)
    ensures k < |RowBonds(atoms, i, m)| && RowBonds(atoms, i, m)[k] == b
    decreases m
  {
    var prev := RowBonds(atoms, i, m - 1);
    var c := Candidate(atoms, i, m - 1);
    var extra := if IsFormed(c, atoms) then [c] else [];
    assert RowBonds(atoms, i, m) == prev + extra;
    if b.pair2 < m - 1 {
      k := RowBondsIndex(atoms, i, m - 1, b);
    } else {
      assert b == c;
      k := |prev|;
    }
  }

  lemma {:induction false} RowBondsIncreasing(atoms: seq<PdbAtom>, i: nat, m: nat)
    requires i < m <= |atoms|
    ensures forall k :: 0 <= k < |RowBonds(atoms, i, m)| ==>
      RowBonds(atoms, i, m)[k].pair1 == i && RowBonds(atoms, i, m)[k].pair2 < m
    ensures forall a, c :: 0 <= a < c < |RowBonds(atoms, i, m)| ==>
      RowBonds(atoms, i, m)[a].pair2 < RowBonds(atoms, i, m)[c].pair2
    decreases m
  {
    if m > i + 1 {
      RowBondsIncreasing(atoms, i, m - 1);
      var c := Candidate(atoms, i, m - 1);
      var extra := if IsFormed(c, atoms) then [c] else [];
      assert RowBonds(atoms, i, m) == RowBonds(atoms, i, m - 1) + extra;
    }
  }

  /** Rebuilt bond `k` is a formed pair whose first atom is below `n`. */
  lemma {:induction false} AllBondsSoundAt(atoms: seq<PdbAtom>, n: nat, k: nat)
    requires n <= |atoms| && k < |AllBonds(atoms, n)|
    ensures AllBonds(atoms, n)[k].pair1 < n && FormedPair(atoms, AllBonds(atoms, n)[k])
  {
    var prev, row := AllBonds(atoms, n - 1), RowBonds(atoms, n - 1, |atoms|);
    assert AllBonds(atoms, n) == prev + row;
    if k < |prev| {
      AllBondsSoundAt(atoms, n - 1, k);
      assert AllBonds(atoms, n)[k] == prev[k];
    } else {
      RowBondsSoundAt(atoms, n - 1, |atoms|, k - |prev|);
      assert AllBonds(atoms, n)[k] == row[k - |prev|];
    }
  }

  /** A formed pair whose first atom is below `n` is rebuilt, at the
      returned position. */
  lemma {:induction false} AllBondsIndex(atoms: seq<PdbAtom>, n: nat, b: Bond) returns (k: nat)
    requires n <= |atoms| && b.pair1 < n && FormedPair(atoms, b)
    ensures k < |AllBonds(atoms, n)| && AllBonds(atoms, n)[k] == b
  {
    var prev, row := AllBonds(atoms, n - 1), RowBonds(atoms, n - 1, |atoms|);
    assert AllBonds(atoms, n) == prev + row;
    if b.pair1 < n - 1 {
      k := AllBondsIndex(atoms, n - 1, b);
    } else {
      var r := RowBondsIndex(atoms, n - 1, |atoms|, b);
      k := |prev| + r;
    }
  }

  lemma {:induction false} AllBondsOrdered(atoms: seq<PdbAtom>, n: nat)
    requires n <= |atoms|
    ensures forall k :: 0 <= k < |AllBonds(atoms, n)| ==> AllBonds(atoms, n)[k].pair1 < n
    ensures forall a, c :: 0 <= a < c < |AllBonds(atoms, n)| ==> Before(AllBonds(atoms, n)[a], AllBonds(atoms, n)[c])
  {
    if n > 0 {
      AllBondsOrdered(atoms, n - 1);
      RowBondsIncreasing(atoms, n - 1, |atoms|);
      var xs, ys := AllBonds(atoms, n - 1), RowBonds(atoms, n - 1, |atoms|);
      assert AllBonds(atoms, n) == xs + ys;
      forall a, c | 0 <= a < c < |xs + ys|
        ensures Before((xs + ys)[a], (xs + ys)[c])
      {
        if c < |xs| {
          assert Before(xs[a], xs[c]);
        } else if a < |xs| {
          assert xs[a].pair1 < n - 1 && ys[c - |xs|].pair1 == n - 1;
        } else {
          assert ys[a - |xs|].pair2 < ys[c - |xs|].pair2;
        }
      }
    }
  }

  /** The rebuilt bonds are exactly the formed pairs `(i, j)` with
      `i < j`, typed by their atom names, in strictly increasing order, so
      each pair occurs once. */
  lemma BondsAreFormedPairs(atoms: seq<PdbAtom>)
    ensures forall b :: b in AllBonds(atoms, |atoms|) <==> FormedPair(atoms, b)
    ensures forall a, c :: 0 <= a < c < |AllBonds(atoms, |atoms|)| ==>
      Before(AllBonds(atoms, |atoms|)[a], AllBonds(atoms, |atoms|)[c])
  {
    forall b | true
      ensures b in AllBonds(atoms, |atoms|) <==> FormedPair(atoms, b)
    {
      var all := AllBonds(atoms, |atoms|);
      if b in all {
        var k :| 0 <= k < |all| && all[k] == b;
        AllBondsSoundAt(atoms, |atoms|, k);
      }
      if FormedPair(atoms, b) {
        var k := AllBondsIndex(atoms, |atoms|, b);
      }
    }
    AllBondsOrdered(atoms, |atoms|);
  }

  /** After `update_bonds_all`, `set_line_model` draws every bond between
      two vertices of the model, as long as the atoms fit 16-bit indices. */
  lemma LineModelAfterBonds(atoms: seq<PdbAtom>)
    requires |atoms| <= U16Bound
    ensures forall x :: 0 <= x < |BondIndices(AllBonds(atoms, |atoms|))| ==>
      BondIndices(AllBonds(atoms, |atoms|))[x] < |LineVertices(atoms)|
  {
    var bonds := AllBonds(atoms, |atoms|);
    BondsAreFormedPairs(atoms);
    assert forall k :: 0 <= k < |bonds| ==> bonds[k] in bonds;
    LineModelInRange(atoms, bonds);
  }
}
