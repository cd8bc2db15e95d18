/**
 * The backbone-dihedral secondary-structure classifier: each residue is
 * labelled helix (H), strand (E) or loop from its phi and psi angles.
 * The dihedral angle itself is computed with `atan2`; here it is a
 * parameter, any function from four atoms to degrees.
 */
module Rama {
  import opened Common

  datatype SsAtom = SsAtom(name: string, pos: Vec3)

  datatype SsResidue = SsResidue(atoms: seq<SsAtom>)

  /** The DSSP labels; this classifier produces only `H`, `E` and `Loop`. */
  datatype Ss = H | B | E | G | I | P | S | T | Break | Loop

  /** The angle between four atoms, in degrees. */
  type Dihedral = (SsAtom, SsAtom, SsAtom, SsAtom) -> real

  /** `find_atom`: the first atom of the residue with the given name. */
  function FindAtom(res: SsResidue, name: string): (r: Option<SsAtom>)
    ensures r.Some? ==> r.value.name == name && r.value in res.atoms
  {
    FindFrom(res.atoms, name, 0)
  }

  function FindFrom(atoms: seq<SsAtom>, name: string, k: nat): (r: Option<SsAtom>)
    requires k <= |atoms|
    ensures r.Some? ==> r.value.name == name && r.value in atoms
    decreases |atoms| - k
  {
    if k == |atoms| then None
    else if atoms[k].name == name then Some(atoms[k])
    else FindFrom(atoms, name, k + 1)
  }

  lemma {:induction false} FindFromFirst(atoms: seq<SsAtom>, name: string, k: nat)
    requires k <= |atoms|
    ensures FindFrom(atoms, name, k).None? <==> forall t :: k <= t < |atoms| ==> atoms[t].name != name
    ensures FindFrom(atoms, name, k).Some? ==> exists t | k <= t < |atoms| ::
      atoms[t] == FindFrom(atoms, name, k).value && forall j :: k <= j < t ==> atoms[j].name != name
    decreases |atoms| - k
  {
    if k < |atoms| && atoms[k].name != name {
      FindFromFirst(atoms, name, k + 1);
    }
  }

  /** `find_atom` returns the first atom so named, and none exactly when no
      atom has the name. */
  lemma FindAtomFirst(res: SsResidue, name: string)
    ensures FindAtom(res, name).None? <==> forall t :: 0 <= t < |res.atoms| ==> res.atoms[t].name != name
    ensures FindAtom(res, name).Some? ==> exists t | 0 <= t < |res.atoms| ::
      res.atoms[t] == FindAtom(res, name).value && forall j :: 0 <= j < t ==> res.atoms[j].name != name
  {
    FindFromFirst(res.atoms, name, 0);
  }

  function Cross(u: Vec3, v: Vec3): Vec3
  {
    Vec3(u.y * v.z - u.z * v.y, u.z * v.x - u.x * v.z, u.x * v.y - u.y * v.x)
  }

  function Dot(u: Vec3, v: Vec3): real
  {
    u.x * v.x + u.y * v.y + u.z * v.z
  }

  /** The cross product is perpendicular to both of its factors. */
  lemma CrossPerpendicular(u: Vec3, v: Vec3)
    ensures Dot(Cross(u, v), u) == 0.0 && Dot(Cross(u, v), v) == 0.0
  {
    var c := Cross(u, v);
    assert Dot(c, u) == (u.y * v.z - u.z * v.y) * u.x + (u.z * v.x - u.x * v.z) * u.y + (u.x * v.y - u.y * v.x) * u.z;
    assert Dot(c, v) == (u.y * v.z - u.z * v.y) * v.x + (u.z * v.x - u.x * v.z) * v.y + (u.x * v.y - u.y * v.x) * v.z;
  }

  /** `normalize`, given the norm `n` (the square root of `Dot(v, v)`): the
      zero vector when the norm is zero, instead of dividing by it. */
  function Normalize(v: Vec3, n: real): (u: Vec3)
    requires n >= 0.0 && n * n == Dot(v, v)
    ensures n == 0.0 ==> u == Vec3(0.0, 0.0, 0.0)
    ensures n != 0.0 ==> u.x * n == v.x && u.y * n == v.y && u.z * n == v.z
  {
    if n == 0.0 then Vec3(0.0, 0.0, 0.0) else Vec3(v.x / n, v.y / n, v.z / n)
  }

  /** The helix window: phi in [-90, -30] and psi in [-77, -17]. */
  predicate InHelix(phi: real, psi: real)
  {
    -90.0 <= phi <= -30.0 && -77.0 <= psi <= -17.0
  }

  /** The strand window: phi in [-150, -90] and psi in [90, 180]. */
  predicate InStrand(phi: real, psi: real)
  {
    -150.0 <= phi <= -90.0 && 90.0 <= psi <= 180.0
  }

  /** The label of residue `i` as the loop body sets it. */
  function Label(residues: seq<SsResidue>, i: nat, dihedral: Dihedral): Ss
    requires i < |residues|
  {
    var cur := residues[i];
    var n, ca, c := FindAtom(cur, "N"), FindAtom(cur, "CA"), FindAtom(cur, "C");
    if n.None? || ca.None? || c.None? then Loop
    else
      var phi := if i > 0 && FindAtom(residues[i - 1], "C").Some? then
        Some(dihedral(FindAtom(residues[i - 1], "C").value, n.value, ca.value, c.value)) else None;
      var psi := if i < |residues| - 1 && FindAtom(residues[i + 1], "N").Some? then
        Some(dihedral(n.value, ca.value, c.value, FindAtom(residues[i + 1], "N").value)) else None;
      if phi.None? || psi.None? then Loop
      else if InHelix(phi.value, psi.value) then H
      else if InStrand(phi.value, psi.value) then E
      else Loop
  }

  /** Once residue `i` has its three backbone atoms, its label depends only on its two angles. */
  lemma LabelFromAngles(residues: seq<SsResidue>, i: nat, dihedral: Dihedral, phi: Option<real>, psi: Option<real>)
    requires i < |residues|
    requires FindAtom(residues[i], "N").Some? && FindAtom(residues[i], "CA").Some? && FindAtom(residues[i], "C").Some?
    requires phi == if i > 0 && FindAtom(residues[i - 1], "C").Some? then
      Some(dihedral(FindAtom(residues[i - 1], "C").value, FindAtom(residues[i], "N").value,
                    FindAtom(residues[i], "CA").value, FindAtom(residues[i], "C").value)) else None
    requires psi == if i < |residues| - 1 && FindAtom(residues[i + 1], "N").Some? then
      Some(dihedral(FindAtom(residues[i], "N").value, FindAtom(residues[i], "CA").value,
                    FindAtom(residues[i], "C").value, FindAtom(residues[i + 1], "N").value)) else None
    ensures Label(residues, i, dihedral) ==
      if phi.None? || psi.None? then Loop
      else if InHelix(phi.value, psi.value) then H
      else if InStrand(phi.value, psi.value) then E
      else Loop
  {
  }

  /** `assign_ss`: one label per residue, `Loop` unless overwritten. */
  method AssignSs(residues: seq<SsResidue>, dihedral: Dihedral) returns (ss: array<Ss>)
    ensures fresh(ss)
    ensures ss.Length == |residues|
    ensures forall i :: 0 <= i < |residues| ==> ss[i] == Label(residues, i, dihedral)
  {
    var nRes := |residues|;
    ss := new Ss[nRes](_ => Loop);
    for i := 0 to nRes
      invariant forall k :: 0 <= k < i ==> ss[k] == Label(residues, k, dihedral)
      invariant forall k :: i <= k < nRes ==> ss[k] == Loop
    {
      var current := residues[i];
      var nAtom := FindAtom(current, "N");
      if nAtom.None? { continue; }
      var caAtom := FindAtom(current, "CA");
      if caAtom.None? { continue; }
      var cAtom := FindAtom(current, "C");
      if cAtom.None? { continue; }
      var phi: Option<real> := None;
      if i > 0 {
        var prevC := FindAtom(residues[i - 1], "C");
        if prevC.Some? {
          phi := Some(dihedral(prevC.value, nAtom.value, caAtom.value, cAtom.value));
        }
      }
      var psi: Option<real> := None;
      if i < nRes - 1 {
        var nextN := FindAtom(residues[i + 1], "N");
        if nextN.Some? {
          psi := Some(dihedral(nAtom.value, caAtom.value, cAtom.value, nextN.value));
        }
      }
      LabelFromAngles(residues, i, dihedral, phi, psi);
      if phi.Some? && psi.Some? {
        var phiVal, psiVal := phi.value, psi.value;
        if -90.0 <= phiVal <= -30.0 && -77.0 <= psiVal <= -17.0 {
          ss[i] := H;
        } else if -150.0 <= phiVal <= -90.0 && 90.0 <= psiVal <= 180.0 {
          ss[i] := E;
        }
      }
    }
  }

  // ---------------------------------------------------------------------
  // What the labels mean

  /** Residue `i` has both angles: its own N, CA and C, the previous
      residue's C and the next residue's N. */
  predicate HasAngles(residues: seq<SsResidue>, i: nat)
    requires i < |residues|
  {
    0 < i < |residues| - 1 &&
    FindAtom(residues[i], "N").Some? && FindAtom(residues[i], "CA").Some? &&
    FindAtom(residues[i], "C").Some? &&
    FindAtom(residues[i - 1], "C").Some? && FindAtom(residues[i + 1], "N").Some?
  }

  function PhiOf(residues: seq<SsResidue>, i: nat, dihedral: Dihedral): real
    requires i < |residues| && HasAngles(residues, i)
  {
    dihedral(FindAtom(residues[i - 1], "C").value, FindAtom(residues[i], "N").value,
             FindAtom(residues[i], "CA").value, FindAtom(residues[i], "C").value)
  }

  function PsiOf(residues: seq<SsResidue>, i: nat, dihedral: Dihedral): real
    requires i < |residues| && HasAngles(residues, i)
  {
    dihedral(FindAtom(residues[i], "N").value, FindAtom(residues[i], "CA").value,
             FindAtom(residues[i], "C").value, FindAtom(residues[i + 1], "N").value)
  }

  /** A residue is H exactly in the helix window, E exactly in the strand
      window outside it, and Loop otherwise; no other label occurs. */
  lemma LabelCases(residues: seq<SsResidue>, i: nat, dihedral: Dihedral)
    requires i < |residues|
    ensures Label(residues, i, dihedral) == H <==>
      HasAngles(residues, i) && InHelix(PhiOf(residues, i, dihedral), PsiOf(residues, i, dihedral))
    ensures Label(residues, i, dihedral) == E <==>
      HasAngles(residues, i) && !InHelix(PhiOf(residues, i, dihedral), PsiOf(residues, i, dihedral)) &&
      InStrand(PhiOf(residues, i, dihedral), PsiOf(residues, i, dihedral))
    ensures Label(residues, i, dihedral) in {H, E, Loop}
  {
  }

  /** The first and the last residue are always Loop. */
  lemma EndsAreLoop(residues: seq<SsResidue>, dihedral: Dihedral)
    requires residues != []
    ensures Label(residues, 0, dihedral) == Loop
    ensures Label(residues, |residues| - 1, dihedral) == Loop
  {
    LabelCases(residues, 0, dihedral);
    LabelCases(residues, |residues| - 1, dihedral);
  }

  /** A label depends only on the residue and its two neighbours. */
  lemma LabelIsLocal(residues: seq<SsResidue>, i: nat, dihedral: Dihedral)
    requires 0 < i < |residues| - 1
    ensures Label(residues, i, dihedral) == Label(residues[i - 1..i + 2], 1, dihedral)
  {
    var w := residues[i - 1..i + 2];
    assert w[0] == residues[i - 1] && w[1] == residues[i] && w[2] == residues[i + 1];
  }
}
