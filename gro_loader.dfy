/**
 * `GroData::load`: the conversion of a GROMACS system's atoms. The system
 * stands for the reader library's output; coordinates arrive in nanometres
 * and are stored in angstrom.
 */
module GroLoader {
  import opened Common
  import opened Elements
  import opened Structure

  /** A library atom; `position` is absent when the file gave none. */
  datatype GroAtom = GroAtom(
    chain: Option<string>,
    residueNumber: nat,
    residueName: string,
    atomNumber: nat,
    atomName: string,
    position: Option<Vec3>)

  const UsizeBound: int := 0x1_0000_0000_0000_0000
  const IsizeMax: int := 0x7FFF_FFFF_FFFF_FFFF

  /** `usize as isize` on a 64-bit target: values above `isize::MAX` wrap to negative. */
  function AsIsize(n: nat): (r: int)
    requires n < UsizeBound
    ensures -IsizeMax - 1 <= r <= IsizeMax
    ensures r % UsizeBound == n % UsizeBound
    ensures n <= IsizeMax ==> r == n
  {
    if n <= IsizeMax then n else n - UsizeBound
  }

  /** Nanometres to angstrom. */
  function ToAngstrom(p: Vec3): Vec3
  {
    Scale(p, 10.0)
  }

  predicate Placed(atoms: seq<GroAtom>)
  {
    forall k :: 0 <= k < |atoms| ==> atoms[k].position.Some?
  }

  /** The atom the loop pushes for library atom `a` with running id `id`. */
  function ConvertGroAtom(id: nat, a: GroAtom): Atom
    requires a.position.Some? && a.residueNumber < UsizeBound
  {
    Atom(id, 0, if a.chain.Some? then a.chain.value else "None", AsIsize(a.residueNumber),
         a.residueName, a.atomNumber, a.atomName, FromAtomName(a.atomName), ToAngstrom(a.position.value))
  }

  predicate InRange(atoms: seq<GroAtom>)
  {
    forall k :: 0 <= k < |atoms| ==> atoms[k].residueNumber < UsizeBound
  }

  /** `GroData::load`. A file the library cannot read and a missing position
      are unwrapped, which panics; `None` stands for that panic. */
  method Load(read: Option<seq<GroAtom>>) returns (r: Option<StructureData>)
    requires read.Some? ==> InRange(read.value)
    ensures r.Some? <==> read.Some? && Placed(read.value)
    ensures r.Some? ==> var system := read.value;
      r.value.residues == [] && |r.value.atoms| == |system| &&
      forall k :: 0 <= k < |system| ==> r.value.atoms[k] == ConvertGroAtom(k, system[k])
  {
    if read.None? {
      return None;
    }
    r := ConvertSystem(read.value);
  }

  /** The atom loop of `GroData::load`. */
  method ConvertSystem(system: seq<GroAtom>) returns (r: Option<StructureData>)
    requires InRange(system)
    ensures r.Some? <==> Placed(system)
    ensures r.Some? ==> r.value.residues == [] && |r.value.atoms| == |system|
    ensures r.Some? ==> forall k :: 0 <= k < |system| ==> r.value.atoms[k] == ConvertGroAtom(k, system[k])
  {
    var id := 0;
    var atoms := [];
    var residues := [];
    for k := 0 to |system|
      invariant id == k == |atoms|
      invariant Placed(system[..k])
      invariant forall t :: 0 <= t < k ==> atoms[t] == ConvertGroAtom(t, system[t])
    {
      var atom := system[k];
      if atom.position.None? {
        assert !Placed(system) by {
          assert system[k].position.None?;
        }
        return None;
      }
      var p := atom.position.value;
      atoms := atoms + [Atom(id, 0, if atom.chain.Some? then atom.chain.value else "None",
                             AsIsize(atom.residueNumber), atom.residueName, atom.atomNumber,
                             atom.atomName, FromAtomName(atom.atomName),
                             Vec3(p.x * 10.0, p.y * 10.0, p.z * 10.0))];
      id := id + 1;
      assert system[..k + 1][k] == system[k];
    }
    assert system[..|system|] == system;
    return Some(StructureData(atoms, residues));
  }

  /** The loaded atoms have ids 0 .. n - 1, model 0, and an element exactly
      when their name starts with H, C, N, O or S. */
  lemma ConvertedAtom(id: nat, a: GroAtom)
    requires a.position.Some? && a.residueNumber < UsizeBound
    ensures ConvertGroAtom(id, a).id == id && ConvertGroAtom(id, a).modelId == 0
    ensures ConvertGroAtom(id, a).element.Some? <==> |a.atomName| > 0 && a.atomName[0] in "HCNOS"
    ensures a.chain.None? ==> ConvertGroAtom(id, a).chainName == "None"
    ensures Scale(ConvertGroAtom(id, a).pos, 0.1) == a.position.value
  {
    var p := a.position.value;
    assert p.x * 10.0 * 0.1 == p.x;
    assert p.y * 10.0 * 0.1 == p.y;
    assert p.z * 10.0 * 0.1 == p.z;
  }
}
