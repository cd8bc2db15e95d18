/**
 * `PDBData::load_from_content`: the conversion of a parsed PDB file into
 * atoms and residues. The parsed file stands for the reader library's
 * output, nested as models, chains, residues and atoms.
 */
module PdbLoader {
  import opened Common
  import opened Elements
  import opened Structure

  datatype LibAtom = LibAtom(serial: nat, name: string, symbol: Option<string>, pos: Vec3)

  datatype LibResidue = LibResidue(serial: int, name: Option<string>, atoms: seq<LibAtom>)

  datatype LibChain = LibChain(id: string, residues: seq<LibResidue>)

  datatype LibModel = LibModel(serial: nat, chains: seq<LibChain>)

  datatype LibPdb = LibPdb(models: seq<LibModel>)

  /** `chain_count()` and `chain(j)` on the whole file see the chains of its
      first model only. */
  function FileChains(pdb: LibPdb): seq<LibChain>
  {
    if pdb.models == [] then [] else pdb.models[0].chains
  }

  /** One pass of the residue loop: model `i`, chain `j` of the file, residue `k`. */
  datatype Visit = Visit(model: LibModel, chain: LibChain, residue: LibResidue)

  /** The residues of `chain` up to `k`, seen from `model`. */
  function ChainVisits(model: LibModel, chain: LibChain, k: nat): (vs: seq<Visit>)
    requires k <= |chain.residues|
    ensures |vs| == k
  {
    if k == 0 then [] else ChainVisits(model, chain, k - 1) + [Visit(model, chain, chain.residues[k - 1])]
  }

  /** The chains `0 .. j - 1` seen from `model`. */
  function ModelVisits(model: LibModel, chains: seq<LibChain>, j: nat): seq<Visit>
    requires j <= |chains|
  {
    if j == 0 then []
    else ModelVisits(model, chains, j - 1) + ChainVisits(model, chains[j - 1], |chains[j - 1].residues|)
  }

  /** The models `0 .. i - 1`, each walking the file's chains. */
  function FileVisits(models: seq<LibModel>, chains: seq<LibChain>, i: nat): seq<Visit>
    requires i <= |models|
  {
    if i == 0 then [] else FileVisits(models, chains, i - 1) + ModelVisits(models[i - 1], chains, |chains|)
  }

  /** Every residue pass, in model, chain, residue order. */
  function Visits(pdb: LibPdb): seq<Visit>
  {
    FileVisits(pdb.models, FileChains(pdb), |pdb.models|)
  }

  /** A residue without a name is called "None". */
  function ResidueName(r: LibResidue): (name: string)
    ensures r.name.Some? ==> name == r.name.value
    ensures r.name.None? ==> name == "None"
  {
    match r.name
    case Some(name) => name
    case None => "None"
  }

  /** The element of an atom: its symbol looked up case-insensitively, or none. */
  function AtomElement(a: LibAtom): (e: Option<Element>)
    ensures a.symbol.None? ==> e.None?
    ensures a.symbol.Some? ==> e == FromSymbol(a.symbol.value)
  {
    match a.symbol
    case Some(symbol) => FromSymbol(symbol)
    case None => None
  }

  function ConvertAtom(id: nat, v: Visit, a: LibAtom): Atom
  {
    Atom(id, v.model.serial, v.chain.id, v.residue.serial, ResidueName(v.residue),
         a.serial, a.name, AtomElement(a), a.pos)
  }

  /** The first `l` atoms of the residue of `v`, numbered from `start`. */
  function ConvertAtoms(v: Visit, start: nat, l: nat): (atoms: seq<Atom>)
    requires l <= |v.residue.atoms|
    ensures |atoms| == l
  {
    if l == 0 then [] else ConvertAtoms(v, start, l - 1) + [ConvertAtom(start + l - 1, v, v.residue.atoms[l - 1])]
  }

  /** The number of atoms the passes `vs` add. */
  function AtomTotal(vs: seq<Visit>): nat
  {
    if vs == [] then 0 else AtomTotal(vs[..|vs| - 1]) + |vs[|vs| - 1].residue.atoms|
  }

  /** The atoms the passes `vs` push, numbered from zero. */
  function BuiltAtoms(vs: seq<Visit>): seq<Atom>
  {
    if vs == [] then []
    else
      var v := vs[|vs| - 1];
      BuiltAtoms(vs[..|vs| - 1]) + ConvertAtoms(v, AtomTotal(vs[..|vs| - 1]), |v.residue.atoms|)
  }

  function BuildResidue(v: Visit, start: nat): Residue
  {
    var n := |v.residue.atoms|;
    Residue(start + n, v.model.serial, v.chain.id, v.residue.serial, ResidueName(v.residue),
            ConvertAtoms(v, start, n))
  }

  /** The residues the passes `vs` push. */
  function BuiltResidues(vs: seq<Visit>): (rs: seq<Residue>)
    ensures |rs| == |vs|
  {
    if vs == [] then []
    else BuiltResidues(vs[..|vs| - 1]) + [BuildResidue(vs[|vs| - 1], AtomTotal(vs[..|vs| - 1]))]
  }

  lemma SnocVisit(vs: seq<Visit>, v: Visit)
    ensures AtomTotal(vs + [v]) == AtomTotal(vs) + |v.residue.atoms|
    ensures BuiltAtoms(vs + [v]) == BuiltAtoms(vs) + ConvertAtoms(v, AtomTotal(vs), |v.residue.atoms|)
    ensures BuiltResidues(vs + [v]) == BuiltResidues(vs) + [BuildResidue(v, AtomTotal(vs))]
  {
    assert (vs + [v])[..|vs|] == vs;
  }

  /** The atom loop of one residue: converts its atoms, numbering them from `start`. */
  method ConvertResidue(model: LibModel, chain: LibChain, residue: LibResidue, start: nat)
    returns (tmpAtoms: seq<Atom>)
    ensures tmpAtoms == ConvertAtoms(Visit(model, chain, residue), start, |residue.atoms|)
  {
    var id := start;
    tmpAtoms := [];
    for l := 0 to |residue.atoms|
      invariant id == start + l
      invariant tmpAtoms == ConvertAtoms(Visit(model, chain, residue), start, l)
    {
      var atom := residue.atoms[l];
      var parsed := Atom(id, model.serial, chain.id, residue.serial, ResidueName(residue),
                         atom.serial, atom.name, AtomElement(atom), atom.pos);
      tmpAtoms := tmpAtoms + [parsed];
      id := id + 1;
    }
  }

  /** The residue loop over one chain of one model pass, continuing the
      running id and the atom and residue lists built by the passes `before`. */
  method ConvertChain(model: LibModel, chain: LibChain, ghost before: seq<Visit>,
                      id0: nat, atoms0: seq<Atom>, residues0: seq<Residue>)
    returns (id: nat, atoms: seq<Atom>, residues: seq<Residue>)
    requires id0 == AtomTotal(before) && atoms0 == BuiltAtoms(before) && residues0 == BuiltResidues(before)
    ensures id == AtomTotal(before + ChainVisits(model, chain, |chain.residues|))
    ensures atoms == BuiltAtoms(before + ChainVisits(model, chain, |chain.residues|))
    ensures residues == BuiltResidues(before + ChainVisits(model, chain, |chain.residues|))
  {
    id, atoms, residues := id0, atoms0, residues0;
    assert before + ChainVisits(model, chain, 0) == before;
    for k := 0 to |chain.residues|
      invariant id == AtomTotal(before + ChainVisits(model, chain, k))
      invariant atoms == BuiltAtoms(before + ChainVisits(model, chain, k))
      invariant residues == BuiltResidues(before + ChainVisits(model, chain, k))
    {
      var residue := chain.residues[k];
      ghost var vs := before + ChainVisits(model, chain, k);
      ghost var v := Visit(model, chain, residue);
      var tmpAtoms := ConvertResidue(model, chain, residue, id);
      atoms := atoms + tmpAtoms;
      id := id + |residue.atoms|;
      residues := residues + [Residue(id, model.serial, chain.id, residue.serial,
                                      ResidueName(residue), tmpAtoms)];
      SnocVisit(vs, v);
      assert vs + [v] == before + ChainVisits(model, chain, k + 1);
    }
  }

  /** The chain loop of one model pass over the file's chains. */
  method ConvertModel(model: LibModel, chains: seq<LibChain>, ghost done: seq<Visit>,
                      id0: nat, atoms0: seq<Atom>, residues0: seq<Residue>)
    returns (id: nat, atoms: seq<Atom>, residues: seq<Residue>)
    requires id0 == AtomTotal(done) && atoms0 == BuiltAtoms(done) && residues0 == BuiltResidues(done)
    ensures id == AtomTotal(done + ModelVisits(model, chains, |chains|))
    ensures atoms == BuiltAtoms(done + ModelVisits(model, chains, |chains|))
    ensures residues == BuiltResidues(done + ModelVisits(model, chains, |chains|))
  {
    id, atoms, residues := id0, atoms0, residues0;
    ghost var vs := done;
    assert done + ModelVisits(model, chains, 0) == done;
    for j := 0 to |chains|
      invariant vs == done + ModelVisits(model, chains, j)
      invariant id == AtomTotal(vs) && atoms == BuiltAtoms(vs) && residues == BuiltResidues(vs)
    {
      id, atoms, residues := ConvertChain(model, chains[j], vs, id, atoms, residues);
      ModelVisitsStep(done, model, chains, j);
      vs := done + ModelVisits(model, chains, j + 1);
    }
  }

  lemma ModelVisitsStep(done: seq<Visit>, model: LibModel, chains: seq<LibChain>, j: nat)
    requires j < |chains|
    ensures done + ModelVisits(model, chains, j + 1) ==
            (done + ModelVisits(model, chains, j)) + ChainVisits(model, chains[j], |chains[j].residues|)
  {
  }

  /** The conversion loop of `PDBData::load_from_content`, after parsing:
      every model pass walks the file's chains. */
  method Convert(pdb: LibPdb) returns (data: StructureData)
    ensures data.atoms == BuiltAtoms(Visits(pdb))
    ensures data.residues == BuiltResidues(Visits(pdb))
  {
    var chains := FileChains(pdb);
    var id := 0;
    var atoms := [];
    var residues := [];
    for i := 0 to |pdb.models|
      invariant id == AtomTotal(FileVisits(pdb.models, chains, i))
      invariant atoms == BuiltAtoms(FileVisits(pdb.models, chains, i))
      invariant residues == BuiltResidues(FileVisits(pdb.models, chains, i))
    {
      id, atoms, residues := ConvertModel(pdb.models[i], chains, FileVisits(pdb.models, chains, i),
                                          id, atoms, residues);
    }
    data := StructureData(atoms, residues);
  }

  /** `PDBData::load_from_content`: a file the reader cannot parse is
      unwrapped, which panics; `None` stands for that panic. */
  method LoadFromContent(parsed: Option<LibPdb>) returns (r: Option<StructureData>)
    ensures r.None? <==> parsed.None?
    ensures parsed.Some? ==> r.value.atoms == BuiltAtoms(Visits(parsed.value))
    ensures parsed.Some? ==> r.value.residues == BuiltResidues(Visits(parsed.value))
  {
    if parsed.None? {
      return None;
    }
    var data := Convert(parsed.value);
    return Some(data);
  }

  // ---------------------------------------------------------------------
  // What the conversion promises

  /** The atoms of a list of residues, concatenated. */
  function Flatten(rs: seq<Residue>): seq<Atom>
  {
    if rs == [] then [] else Flatten(rs[..|rs| - 1]) + rs[|rs| - 1].atoms
  }

  /** Atom `t` of a converted residue is numbered `start + t`. */
  lemma {:induction false} ConvertAtomsIds(v: Visit, start: nat, l: nat)
    requires l <= |v.residue.atoms|
    ensures forall t :: 0 <= t < l ==> ConvertAtoms(v, start, l)[t].id == start + t
  {
    if l > 0 {
      var xs := ConvertAtoms(v, start, l - 1);
      ConvertAtomsIds(v, start, l - 1);
      assert ConvertAtoms(v, start, l) == xs + [ConvertAtom(start + l - 1, v, v.residue.atoms[l - 1])];
    }
  }

  /** Atom ids are 0, 1, 2, ... in traversal order, and there are as many
      atoms as the passes hold. */
  lemma {:induction false} DenseIds(vs: seq<Visit>)
    ensures |BuiltAtoms(vs)| == AtomTotal(vs)
    ensures forall t :: 0 <= t < |BuiltAtoms(vs)| ==> BuiltAtoms(vs)[t].id == t
  {
    if vs != [] {
      var init := vs[..|vs| - 1];
      var v := vs[|vs| - 1];
      DenseIds(init);
      ConvertAtomsIds(v, AtomTotal(init), |v.residue.atoms|);
    }
  }

  /** Concatenating every residue's atoms gives the atom list. */
  lemma {:induction false} ResiduesCoverAtoms(vs: seq<Visit>)
    ensures Flatten(BuiltResidues(vs)) == BuiltAtoms(vs)
  {
    if vs != [] {
      var init := vs[..|vs| - 1];
      ResiduesCoverAtoms(init);
      assert BuiltResidues(vs)[..|vs| - 1] == BuiltResidues(init);
    }
  }

  /** A residue's id is the running atom count once its own atoms are in. */
  lemma {:induction false} ResidueIdIsRunningCount(vs: seq<Visit>)
    ensures forall t :: 0 <= t < |vs| ==>
      BuiltResidues(vs)[t].id == |Flatten(BuiltResidues(vs)[..t + 1])|
  {
    if vs != [] {
      var init := vs[..|vs| - 1];
      var rs := BuiltResidues(vs);
      ResidueIdIsRunningCount(init);
      assert rs[..|vs| - 1] == BuiltResidues(init);
      forall t | 0 <= t < |vs| - 1
        ensures rs[t].id == |Flatten(rs[..t + 1])|
      {
        assert rs[..t + 1] == BuiltResidues(init)[..t + 1];
      }
      assert rs[..|vs|] == rs;
      ResiduesCoverAtoms(vs);
      DenseIds(vs);
    }
  }

  /** The residue count is the model count times the residues of the file's
      chains: every model walks the same chain list. */
  function ChainsResidueCount(chains: seq<LibChain>): nat
  {
    if chains == [] then 0 else ChainsResidueCount(chains[..|chains| - 1]) + |chains[|chains| - 1].residues|
  }

  lemma {:induction false} ModelVisitCount(model: LibModel, chains: seq<LibChain>, j: nat)
    requires j <= |chains|
    ensures |ModelVisits(model, chains, j)| == ChainsResidueCount(chains[..j])
  {
    if j > 0 {
      ModelVisitCount(model, chains, j - 1);
      assert chains[..j][..j - 1] == chains[..j - 1];
    }
  }

  lemma {:induction false} FileVisitCount(models: seq<LibModel>, chains: seq<LibChain>, i: nat)
    requires i <= |models|
    ensures |FileVisits(models, chains, i)| == i * ChainsResidueCount(chains)
  {
    if i > 0 {
      FileVisitCount(models, chains, i - 1);
      ModelVisitCount(models[i - 1], chains, |chains|);
      assert chains[..|chains|] == chains;
      var c := ChainsResidueCount(chains);
      assert i * c == (i - 1) * c + c;
    }
  }

  lemma ResidueCount(pdb: LibPdb)
    ensures |BuiltResidues(Visits(pdb))| == |pdb.models| * ChainsResidueCount(FileChains(pdb))
  {
    FileVisitCount(pdb.models, FileChains(pdb), |pdb.models|);
  }
}
