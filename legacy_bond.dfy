/**
 * The bond record of the earlier viewer: two atom indices, the atom types
 * guessed from the two atom names, and the distance test that decides
 * whether the bond is formed.
 */
module LegacyBond {
  import opened Common

  /** The `PDBAtom` record of the earlier viewer, which bond distances read. */
  datatype PdbAtom = PdbAtom(
    id: nat,
    modelId: nat,
    chainName: string,
    residueId: int,
    residueName: string,
    atomId: nat,
    atomName: string,
    pos: Vec3)

  datatype AtomType = C | O | N | H | S | P | Ca | K | Cl | Na | Unknown

  /** `Bond::str2atomtype`: only the exact one-letter names C, O, N and H
      are recognised. */
  function Str2AtomType(ty: string): AtomType
  {
    if |ty| == 1 then CharType(ty[0]) else Unknown
  }

  /** The atom type a one-letter name denotes. */
  function CharType(c: char): AtomType
  {
    if c == 'C' then C
    else if c == 'O' then O
    else if c == 'N' then N
    else if c == 'H' then H
    else Unknown
  }

  /** The four recognised names map to their own variant and every other
      name, whatever its length, to `Unknown`; the variants S, P, Ca, K, Cl
      and Na never come out. */
  lemma Str2AtomTypeNames(ty: string)
    ensures Str2AtomType(ty) !in {S, P, Ca, K, Cl, Na}
    ensures ty == "C" ==> Str2AtomType(ty) == C
    ensures ty == "O" ==> Str2AtomType(ty) == O
    ensures ty == "N" ==> Str2AtomType(ty) == N
    ensures ty == "H" ==> Str2AtomType(ty) == H
    ensures Str2AtomType(ty) == Unknown <==> ty !in {"C", "O", "N", "H"}
  {
    if |ty| == 1 {
      var c := ty[0];
      assert ty == [c];
    }
  }

  datatype Bond = Bond(pair1: nat, pair2: nat, ty1: AtomType, ty2: AtomType)

  /** `Bond::new`. */
  function NewBond(pair1: nat, pair2: nat, ty1: string, ty2: string): (b: Bond)
    ensures b.pair1 == pair1 && b.pair2 == pair2
    ensures b.ty1 == Str2AtomType(ty1) && b.ty2 == Str2AtomType(ty2)
  {
    Bond(pair1, pair2, Str2AtomType(ty1), Str2AtomType(ty2))
  }

  /** Both end points index into `atoms`. */
  predicate Indexes(b: Bond, atoms: seq<PdbAtom>)
  {
    b.pair1 < |atoms| && b.pair2 < |atoms|
  }

  /** `Bond::distance`, squared: the square root is monotone, so comparing
      squares decides the same tests. */
  function Distance2(b: Bond, atoms: seq<PdbAtom>): real
    requires Indexes(b, atoms)
  {
    Dist2(atoms[b.pair1].pos, atoms[b.pair2].pos)
  }

  /** `Bond::is_formed`: the end points lie within 1.6 angstrom. */
  predicate IsFormed(b: Bond, atoms: seq<PdbAtom>)
    requires Indexes(b, atoms)
  {
    Distance2(b, atoms) <= 1.6 * 1.6
  }

  /** The distance, and so whether the bond is formed, does not depend on the
      order of its end points. */
  lemma DistanceSymmetric(b: Bond, atoms: seq<PdbAtom>)
    requires Indexes(b, atoms)
    ensures Distance2(b.(pair1 := b.pair2, pair2 := b.pair1), atoms) == Distance2(b, atoms)
    ensures IsFormed(b.(pair1 := b.pair2, pair2 := b.pair1), atoms) == IsFormed(b, atoms)
  {
    Dist2Symmetric(atoms[b.pair1].pos, atoms[b.pair2].pos);
  }
}
