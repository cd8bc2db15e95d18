/**
 * The structure model shared by every loader: atoms and residues, the
 * residue-name classification, the centre of a structure, bond inference
 * under the general cutoff, the protein and backbone filters, the backbone
 * atoms of a residue, and the choice of loader by file extension.
 */
module Structure {
  import opened Common
  import opened Elements

  /** `GENERAL_BOND_CUTOFF` is 1.6 angstrom; a distance is compared through
      its square, so the bound is 1.6² = 2.56. */
  const GeneralBondCutoff2: real := 2.56

  /** `PROTEIN_RESNAME`. */
  const ProteinResnames: seq<string> := [
    "ALA", "ARG", "ASN", "ASP", "CYS", "GLN", "GLU", "GLY", "HIS", "ILE", "LEU", "LYS", "MET",
    "PHE", "PRO", "SER", "THR", "TRP", "TYR", "VAL", "CYX", "HID", "HIE", "HIP"]

  datatype Atom = Atom(
    id: nat,
    modelId: nat,
    chainName: string,
    residueId: int,
    residueName: string,
    atomId: nat,
    atomName: string,
    element: Option<Element>,
    pos: Vec3)

  datatype Residue = Residue(
    id: nat,
    modelId: nat,
    chainName: string,
    residueId: int,
    residueName: string,
    atoms: seq<Atom>)

  /** What a loader produces: `atoms()` and `residues()`. */
  datatype StructureData = StructureData(atoms: seq<Atom>, residues: seq<Residue>)

  // ---------------------------------------------------------------------
  // Residue names

  predicate OccursAt(s: string, part: string, i: int)
  {
    0 <= i && i + |part| <= |s| && s[i..i + |part|] == part
  }

  /** `str::contains`. */
  predicate Contains(s: string, part: string)
  {
    exists i | 0 <= i <= |s| - |part| :: OccursAt(s, part, i)
  }

  predicate IsProteinName(name: string) { name in ProteinResnames }

  predicate IsWaterName(name: string) { name == "HOH" || name == "WAT" || Contains(name, "TIP") }

  predicate IsIonName(name: string) { Contains(name, "+") || Contains(name, "-") }

  /** `Atom::is_protein`, `is_water` and `is_ion` look at the residue name. */
  predicate AtomIsProtein(a: Atom) { IsProteinName(a.residueName) }

  predicate AtomIsWater(a: Atom) { IsWaterName(a.residueName) }

  predicate AtomIsIon(a: Atom) { IsIonName(a.residueName) }

  /** `Atom::is_backbone`: a protein atom named N, CA, C, O or HA. */
  predicate AtomIsBackbone(a: Atom)
  {
    AtomIsProtein(a) && (a.atomName == "N" || a.atomName == "CA" || a.atomName == "C" ||
                         a.atomName == "O" || a.atomName == "HA")
  }

  /** `Atom::is_sidechain`. */
  predicate AtomIsSidechain(a: Atom) { AtomIsProtein(a) && !AtomIsBackbone(a) }

  /** `Residue::is_protein`, `is_water` and `is_ion`. */
  predicate ResidueIsProtein(r: Residue) { IsProteinName(r.residueName) }

  predicate ResidueIsWater(r: Residue) { IsWaterName(r.residueName) }

  predicate ResidueIsIon(r: Residue) { IsIonName(r.residueName) }

  /** A one-character pattern occurs exactly when the character does. */
  lemma ContainsChar(s: string, c: char)
    ensures Contains(s, [c]) <==> c in s
  {
    if c in s {
      var i :| 0 <= i < |s| && s[i] == c;
      assert s[i..i + 1] == [c];
      assert OccursAt(s, [c], i);
    }
    if Contains(s, [c]) {
      var i :| 0 <= i <= |s| - 1 && OccursAt(s, [c], i);
      assert s[i..i + 1][0] == s[i];
    }
  }

  /** `is_ion` holds exactly when the name has a `+` or a `-`. */
  lemma IonNames(name: string)
    ensures IsIonName(name) <==> '+' in name || '-' in name
  {
    ContainsChar(name, '+');
    ContainsChar(name, '-');
  }

  /** `is_water` holds for HOH, WAT and every name with TIP in it. */
  lemma WaterNames(prefix: string, suffix: string)
    ensures IsWaterName("HOH") && IsWaterName("WAT")
    ensures IsWaterName(prefix + "TIP" + suffix)
  {
    var s := prefix + "TIP" + suffix;
    assert s[|prefix|..|prefix| + 3] == "TIP";
    assert OccursAt(s, "TIP", |prefix|);
  }

  /** Backbone and side chain split the protein atoms in two. */
  lemma BackbonePartition(a: Atom)
    ensures AtomIsBackbone(a) ==> AtomIsProtein(a)
    ensures AtomIsProtein(a) <==> (AtomIsBackbone(a) || AtomIsSidechain(a))
    ensures !(AtomIsBackbone(a) && AtomIsSidechain(a))
  {
  }

  /** An atom and a residue with the same residue name are classified alike. */
  lemma ClassesAgree(a: Atom, r: Residue)
    requires a.residueName == r.residueName
    ensures AtomIsProtein(a) == ResidueIsProtein(r)
    ensures AtomIsWater(a) == ResidueIsWater(r)
    ensures AtomIsIon(a) == ResidueIsIon(r)
  {
  }

  // ---------------------------------------------------------------------
  // The centre

  function SumPositions(atoms: seq<Atom>): Vec3
  {
    if atoms == [] then Vec3(0.0, 0.0, 0.0)
    else Add(SumPositions(atoms[..|atoms| - 1]), atoms[|atoms| - 1].pos)
  }

  /** The mean position; `None` for no atoms, where the source divides zero
      by zero and yields NaN coordinates. */
  function MeanPosition(atoms: seq<Atom>): Option<Vec3>
  {
    if atoms == [] then None else Some(Scale(SumPositions(atoms), 1.0 / (|atoms| as real)))
  }

  /** `StructureData::center`, and `Residue::center` over the residue's atoms. */
  method Center(atoms: seq<Atom>) returns (center: Option<Vec3>)
    ensures center == MeanPosition(atoms)
  {
    var sum := Vec3(0.0, 0.0, 0.0);
    var i := 0;
    while i < |atoms|
      invariant 0 <= i <= |atoms|
      invariant sum == SumPositions(atoms[..i])
    {
      assert atoms[..i + 1][..i] == atoms[..i];
      sum := Add(sum, atoms[i].pos);
      i := i + 1;
    }
    assert atoms[..|atoms|] == atoms;
    if |atoms| == 0 {
      center := None;
    } else {
      center := Some(Scale(sum, 1.0 / (|atoms| as real)));
    }
  }

  /** `Residue::center`. */
  method ResidueCenter(r: Residue) returns (center: Option<Vec3>)
    ensures center == MeanPosition(r.atoms)
  {
    center := Center(r.atoms);
  }

  function Translate(atoms: seq<Atom>, d: Vec3): (moved: seq<Atom>)
    ensures |moved| == |atoms|
    ensures forall k :: 0 <= k < |atoms| ==> moved[k] == atoms[k].(pos := Add(atoms[k].pos, d))
  {
    seq(|atoms|, k requires 0 <= k < |atoms| => atoms[k].(pos := Add(atoms[k].pos, d)))
  }

  lemma ShiftSum(s: Vec3, last: Vec3, d: Vec3, m: real)
    ensures Add(Add(s, Scale(d, m)), Add(last, d)) == Add(Add(s, last), Scale(d, m + 1.0))
  {
    assert d.x * m + d.x == d.x * (m + 1.0);
    assert d.y * m + d.y == d.y * (m + 1.0);
    assert d.z * m + d.z == d.z * (m + 1.0);
  }

  lemma {:induction false} SumTranslate(atoms: seq<Atom>, d: Vec3)
    ensures SumPositions(Translate(atoms, d)) == Add(SumPositions(atoms), Scale(d, |atoms| as real))
    decreases |atoms|
  {
    if atoms != [] {
      var n := |atoms|;
      var moved := Translate(atoms, d);
      var init := atoms[..n - 1];
      assert moved[..n - 1] == Translate(init, d);
      SumTranslate(init, d);
      ShiftSum(SumPositions(init), atoms[n - 1].pos, d, (n - 1) as real);
    }
  }

  lemma ShiftMean(s: real, d: real, n: real)
    requires n > 0.0
    ensures (s + d * n) * (1.0 / n) == s * (1.0 / n) + d
  {
    assert n * (1.0 / n) == 1.0;
    assert (s + d * n) * (1.0 / n) == s * (1.0 / n) + d * (n * (1.0 / n));
  }

  lemma ShiftMeanVec(s: Vec3, d: Vec3, n: real)
    requires n > 0.0
    ensures Scale(Add(s, Scale(d, n)), 1.0 / n) == Add(Scale(s, 1.0 / n), d)
  {
    ShiftMean(s.x, d.x, n);
    ShiftMean(s.y, d.y, n);
    ShiftMean(s.z, d.z, n);
  }

  /** Moving every atom by `d` moves the centre by `d`. */
  lemma MeanTranslate(atoms: seq<Atom>, d: Vec3)
    requires atoms != []
    ensures MeanPosition(Translate(atoms, d)) == Some(Add(MeanPosition(atoms).value, d))
  {
    SumTranslate(atoms, d);
    ShiftMeanVec(SumPositions(atoms), d, |atoms| as real);
  }

  // ---------------------------------------------------------------------
  // Bonds

  type Pair = (nat, nat)

  /** Atoms `i` and `j` lie within the general bond cutoff. */
  predicate Bonded(atoms: seq<Atom>, i: nat, j: nat)
    requires i < |atoms| && j < |atoms|
  {
    Dist2(atoms[i].pos, atoms[j].pos) <= GeneralBondCutoff2
  }

  /** The pairs `(i, j)` with `j < m` that the inner loop of row `i` keeps. */
  function RowPairs(atoms: seq<Atom>, i: nat, m: nat): seq<Pair>
    requires m <= i < |atoms|
  {
    if m == 0 then []
    else RowPairs(atoms, i, m - 1) + (if Bonded(atoms, i, m - 1) then [(i, m - 1)] else [])
  }

  /** The pairs of the rows `0 .. n - 1`. */
  function PairsBelow(atoms: seq<Atom>, n: nat): seq<Pair>
    requires n <= |atoms|
  {
    if n == 0 then [] else PairsBelow(atoms, n - 1) + RowPairs(atoms, n - 1, n - 1)
  }

  function IndirectedPairs(atoms: seq<Atom>): seq<Pair>
  {
    PairsBelow(atoms, |atoms|)
  }

  /** Each pair followed by its swap. */
  function Doubled(ps: seq<Pair>): (ds: seq<Pair>)
    ensures |ds| == 2 * |ps|
  {
    if ps == [] then []
    else
      var p := ps[|ps| - 1];
      Doubled(ps[..|ps| - 1]) + [p, (p.1, p.0)]
  }

  /** `StructureData::bonds_indirected`. */
  method BondsIndirected(atoms: seq<Atom>) returns (bonds: seq<Pair>)
    ensures bonds == IndirectedPairs(atoms)
  {
    var n := |atoms|;
    bonds := [];
    for i := 0 to n
      invariant bonds == PairsBelow(atoms, i)
    {
      for j := 0 to i
        invariant bonds == PairsBelow(atoms, i) + RowPairs(atoms, i, j)
      {
        if i != j && Dist2(atoms[i].pos, atoms[j].pos) <= GeneralBondCutoff2 {
          bonds := bonds + [(i, j)];
        }
      }
    }
  }

  lemma DoubledAppend(a: seq<Pair>, b: seq<Pair>)
    ensures Doubled(a + b) == Doubled(a) + Doubled(b)
    decreases |b|
  {
    if b != [] {
      var n := |b|;
      assert (a + b)[..|a + b| - 1] == a + b[..n - 1];
      DoubledAppend(a, b[..n - 1]);
    } else {
      assert a + b == a;
    }
  }

  lemma DoubledSnoc(ps: seq<Pair>, p: Pair)
    ensures Doubled(ps + [p]) == Doubled(ps) + [p, (p.1, p.0)]
  {
    assert (ps + [p])[..|ps|] == ps;
  }

  /** `StructureData::bonds_directed`. */
  method BondsDirected(atoms: seq<Atom>) returns (bonds: seq<Pair>)
    ensures bonds == Doubled(IndirectedPairs(atoms))
  {
    var n := |atoms|;
    bonds := [];
    for i := 0 to n
      invariant bonds == Doubled(PairsBelow(atoms, i))
    {
      assert PairsBelow(atoms, i) + RowPairs(atoms, i, 0) == PairsBelow(atoms, i);
      for j := 0 to i
        invariant bonds == Doubled(PairsBelow(atoms, i) + RowPairs(atoms, i, j))
      {
        ghost var before := PairsBelow(atoms, i) + RowPairs(atoms, i, j);
        if i != j && Dist2(atoms[i].pos, atoms[j].pos) <= GeneralBondCutoff2 {
          DoubledSnoc(before, (i, j));
          bonds := bonds + [(i, j), (j, i)];
          assert before + [(i, j)] == PairsBelow(atoms, i) + RowPairs(atoms, i, j + 1);
        } else {
          assert before == PairsBelow(atoms, i) + RowPairs(atoms, i, j + 1);
        }
      }
    }
  }

  /** The members of row `i` up to column `m`. */
  lemma {:induction false} RowMembers(atoms: seq<Atom>, i: nat, m: nat, p: Pair)
    requires m <= i < |atoms|
    ensures p in RowPairs(atoms, i, m) <==> p.0 == i && p.1 < m && Bonded(atoms, i, p.1)
  {
    if m > 0 {
      RowMembers(atoms, i, m - 1, p);
    }
  }

  /** The members of the rows below `n`. */
  lemma {:induction false} BelowMembers(atoms: seq<Atom>, n: nat, p: Pair)
    requires n <= |atoms|
    ensures p in PairsBelow(atoms, n) <==> p.1 < p.0 < n && Bonded(atoms, p.0, p.1)
  {
    if n > 0 {
      BelowMembers(atoms, n - 1, p);
      RowMembers(atoms, n - 1, n - 1, p);
    }
  }

  /** `bonds_indirected` holds exactly the pairs `(i, j)`, `j < i`, within the cutoff. */
  lemma IndirectedMembers(atoms: seq<Atom>, p: Pair)
    ensures p in IndirectedPairs(atoms) <==> p.1 < p.0 < |atoms| && Bonded(atoms, p.0, p.1)
  {
    BelowMembers(atoms, |atoms|, p);
  }

  /** Row-major order: by first index, then by second. */
  predicate LexLess(p: Pair, q: Pair)
  {
    p.0 < q.0 || (p.0 == q.0 && p.1 < q.1)
  }

  predicate StrictlyOrdered(ps: seq<Pair>)
  {
    forall a, b :: 0 <= a < b < |ps| ==> LexLess(ps[a], ps[b])
  }

  lemma OrderedConcat(xs: seq<Pair>, ys: seq<Pair>)
    requires StrictlyOrdered(xs) && StrictlyOrdered(ys)
    requires forall a, b :: 0 <= a < |xs| && 0 <= b < |ys| ==> LexLess(xs[a], ys[b])
    ensures StrictlyOrdered(xs + ys)
  {
  }

  lemma {:induction false} RowOrdered(atoms: seq<Atom>, i: nat, m: nat)
    requires m <= i < |atoms|
    ensures StrictlyOrdered(RowPairs(atoms, i, m))
    ensures forall k :: 0 <= k < |RowPairs(atoms, i, m)| ==>
      RowPairs(atoms, i, m)[k].0 == i && RowPairs(atoms, i, m)[k].1 < m
  {
    if m > 0 {
      RowOrdered(atoms, i, m - 1);
      var extra := if Bonded(atoms, i, m - 1) then [(i, m - 1)] else [];
      OrderedConcat(RowPairs(atoms, i, m - 1), extra);
    }
  }

  lemma {:induction false} BelowOrdered(atoms: seq<Atom>, n: nat)
    requires n <= |atoms|
    ensures StrictlyOrdered(PairsBelow(atoms, n))
    ensures forall k :: 0 <= k < |PairsBelow(atoms, n)| ==> PairsBelow(atoms, n)[k].0 < n
  {
    if n > 0 {
      BelowOrdered(atoms, n - 1);
      RowOrdered(atoms, n - 1, n - 1);
      OrderedConcat(PairsBelow(atoms, n - 1), RowPairs(atoms, n - 1, n - 1));
    }
  }

  /** `bonds_indirected` lists its pairs in strictly increasing row-major
      order, so no pair occurs twice. */
  lemma IndirectedOrdered(atoms: seq<Atom>)
    ensures StrictlyOrdered(IndirectedPairs(atoms))
    ensures forall a, b :: 0 <= a < b < |IndirectedPairs(atoms)| ==>
      IndirectedPairs(atoms)[a] != IndirectedPairs(atoms)[b]
  {
    BelowOrdered(atoms, |atoms|);
  }

  /** Entry `2k` of the doubled list is pair `k`, entry `2k + 1` its swap. */
  lemma {:induction false} DoubledShape(ps: seq<Pair>)
    ensures forall k :: 0 <= k < |ps| ==>
      Doubled(ps)[2 * k] == ps[k] && Doubled(ps)[2 * k + 1] == (ps[k].1, ps[k].0)
  {
    if ps != [] {
      DoubledShape(ps[..|ps| - 1]);
    }
  }

  lemma DoubledMembers(ps: seq<Pair>, q: Pair)
    ensures q in Doubled(ps) <==> q in ps || (q.1, q.0) in ps
  {
    DoubledShape(ps);
    var ds := Doubled(ps);
    if q in ds {
      var t :| 0 <= t < |ds| && ds[t] == q;
      var k := t / 2;
      assert t == 2 * k || t == 2 * k + 1;
      assert ps[k] == q || ps[k] == (q.1, q.0);
    }
    if q in ps {
      var k :| 0 <= k < |ps| && ps[k] == q;
      assert ds[2 * k] == q;
    }
    if (q.1, q.0) in ps {
      var k :| 0 <= k < |ps| && ps[k] == (q.1, q.0);
      assert ds[2 * k + 1] == q;
    }
  }

  /** `bonds_directed` holds exactly the ordered pairs of distinct atoms within
      the cutoff, so it is symmetric. */
  lemma DirectedMembers(atoms: seq<Atom>, p: Pair)
    ensures p in Doubled(IndirectedPairs(atoms)) <==>
      p.0 < |atoms| && p.1 < |atoms| && p.0 != p.1 && Bonded(atoms, p.0, p.1)
    ensures p in Doubled(IndirectedPairs(atoms)) <==> (p.1, p.0) in Doubled(IndirectedPairs(atoms))
  {
    DoubledMembers(IndirectedPairs(atoms), p);
    DoubledMembers(IndirectedPairs(atoms), (p.1, p.0));
    IndirectedMembers(atoms, p);
    IndirectedMembers(atoms, (p.1, p.0));
    if p.0 < |atoms| && p.1 < |atoms| {
      Dist2Symmetric(atoms[p.0].pos, atoms[p.1].pos);
    }
  }

  // ---------------------------------------------------------------------
  // Filters

  /** The atoms satisfying `keep`, in their original order. */
  function Filter(atoms: seq<Atom>, keep: Atom -> bool): seq<Atom>
  {
    if atoms == [] then []
    else
      var last := atoms[|atoms| - 1];
      Filter(atoms[..|atoms| - 1], keep) + (if keep(last) then [last] else [])
  }

  lemma {:induction false} FilterConcat(xs: seq<Atom>, ys: seq<Atom>, keep: Atom -> bool)
    ensures Filter(xs + ys, keep) == Filter(xs, keep) + Filter(ys, keep)
    decreases |ys|
  {
    if ys == [] {
      assert xs + ys == xs;
    } else {
      assert (xs + ys)[..|xs + ys| - 1] == xs + ys[..|ys| - 1];
      FilterConcat(xs, ys[..|ys| - 1], keep);
    }
  }

  lemma {:induction false} FilterMembers(atoms: seq<Atom>, keep: Atom -> bool, a: Atom)
    ensures a in Filter(atoms, keep) <==> a in atoms && keep(a)
  {
    if atoms != [] {
      var init := atoms[..|atoms| - 1];
      FilterMembers(init, keep, a);
      assert atoms == init + [atoms[|atoms| - 1]];
    }
  }

  /** Filtering for the backbone after the protein filter is the backbone filter. */
  lemma {:induction false} BackboneWithinProtein(atoms: seq<Atom>)
    ensures Filter(Filter(atoms, AtomIsProtein), AtomIsBackbone) == Filter(atoms, AtomIsBackbone)
  {
    if atoms != [] {
      var init := atoms[..|atoms| - 1];
      var last := atoms[|atoms| - 1];
      BackboneWithinProtein(init);
      FilterConcat(Filter(init, AtomIsProtein), if AtomIsProtein(last) then [last] else [], AtomIsBackbone);
      assert Filter([last], AtomIsBackbone) == (if AtomIsBackbone(last) then [last] else []) by {
        assert [last][..0] == [];
      }
    }
  }

  /** Backbone and side-chain atoms together are as many as the protein atoms. */
  lemma {:induction false} BackboneSidechainCount(atoms: seq<Atom>)
    ensures |Filter(atoms, AtomIsProtein)| ==
      |Filter(atoms, AtomIsBackbone)| + |Filter(atoms, AtomIsSidechain)|
  {
    if atoms != [] {
      BackboneSidechainCount(atoms[..|atoms| - 1]);
      BackbonePartition(atoms[|atoms| - 1]);
    }
  }

  /** `StructureData::protein`. */
  method Protein(atoms: seq<Atom>) returns (kept: seq<Atom>)
    ensures kept == Filter(atoms, AtomIsProtein)
  {
    kept := [];
    for i := 0 to |atoms|
      invariant kept == Filter(atoms[..i], AtomIsProtein)
    {
      assert atoms[..i + 1][..i] == atoms[..i];
      if IsProteinName(atoms[i].residueName) {
        kept := kept + [atoms[i]];
      }
    }
    assert atoms[..|atoms|] == atoms;
  }

  /** `StructureData::backbone`. */
  method Backbone(atoms: seq<Atom>) returns (kept: seq<Atom>)
    ensures kept == Filter(atoms, AtomIsBackbone)
  {
    kept := [];
    for i := 0 to |atoms|
      invariant kept == Filter(atoms[..i], AtomIsBackbone)
    {
      assert atoms[..i + 1][..i] == atoms[..i];
      if AtomIsBackbone(atoms[i]) {
        kept := kept + [atoms[i]];
      }
    }
    assert atoms[..|atoms|] == atoms;
  }

  // ---------------------------------------------------------------------
  // Backbone atoms of a residue

  predicate HasNamed(atoms: seq<Atom>, name: string)
  {
    exists k | 0 <= k < |atoms| :: atoms[k].atomName == name
  }

  /** `Iterator::find` on the atom name: the index of the first atom so named. */
  function FindNamed(atoms: seq<Atom>, name: string): (r: Option<nat>)
    ensures r.Some? <==> HasNamed(atoms, name)
    ensures r.Some? ==> r.value < |atoms| && atoms[r.value].atomName == name
    ensures r.Some? ==> forall k :: 0 <= k < r.value ==> atoms[k].atomName != name
  {
    if atoms == [] then None
    else if atoms[0].atomName == name then Some(0)
    else
      var rest := FindNamed(atoms[1..], name);
      assert HasNamed(atoms, name) ==> HasNamed(atoms[1..], name) by {
        if HasNamed(atoms, name) {
          var k :| 0 <= k < |atoms| && atoms[k].atomName == name;
          assert atoms[1..][k - 1] == atoms[k];
        }
      }
      if rest.None? then None else Some(rest.value + 1)
  }

  /** The five atoms `Residue::backbone` returns, in its order. */
  datatype BackboneAtoms = BackboneAtoms(o: Atom, n: Atom, c: Atom, ca: Atom, ha: Atom)

  /** `Residue::backbone`. */
  function ResidueBackbone(r: Residue): Option<BackboneAtoms>
  {
    var o := FindNamed(r.atoms, "O");
    var n := FindNamed(r.atoms, "N");
    var c := FindNamed(r.atoms, "C");
    var ca := FindNamed(r.atoms, "CA");
    var ha := FindNamed(r.atoms, "HA");
    if o.None? || n.None? || c.None? || ca.None? || ha.None? then None
    else Some(BackboneAtoms(r.atoms[o.value], r.atoms[n.value], r.atoms[c.value],
                            r.atoms[ca.value], r.atoms[ha.value]))
  }

  /** `a` is the first atom of `atoms` named `name`. */
  predicate FirstNamed(atoms: seq<Atom>, name: string, a: Atom)
  {
    exists k | 0 <= k < |atoms| ::
      atoms[k] == a && a.atomName == name && (forall j :: 0 <= j < k ==> atoms[j].atomName != name)
  }

  /** The backbone is found exactly when all five names occur, and each atom
      returned is the first of its name. */
  lemma ResidueBackboneFound(r: Residue)
    ensures ResidueBackbone(r).Some? <==>
      HasNamed(r.atoms, "O") && HasNamed(r.atoms, "N") && HasNamed(r.atoms, "C") &&
      HasNamed(r.atoms, "CA") && HasNamed(r.atoms, "HA")
    ensures ResidueBackbone(r).Some? ==>
      var b := ResidueBackbone(r).value;
      FirstNamed(r.atoms, "O", b.o) && FirstNamed(r.atoms, "N", b.n) &&
      FirstNamed(r.atoms, "C", b.c) && FirstNamed(r.atoms, "CA", b.ca) &&
      FirstNamed(r.atoms, "HA", b.ha)
  {
    if ResidueBackbone(r).Some? {
      var b := ResidueBackbone(r).value;
      assert FirstNamed(r.atoms, "O", b.o) by { var k := FindNamed(r.atoms, "O").value; }
      assert FirstNamed(r.atoms, "N", b.n) by { var k := FindNamed(r.atoms, "N").value; }
      assert FirstNamed(r.atoms, "C", b.c) by { var k := FindNamed(r.atoms, "C").value; }
      assert FirstNamed(r.atoms, "CA", b.ca) by { var k := FindNamed(r.atoms, "CA").value; }
      assert FirstNamed(r.atoms, "HA", b.ha) by { var k := FindNamed(r.atoms, "HA").value; }
    }
  }

  // ---------------------------------------------------------------------
  // Choosing a loader by extension

  function TrimTrailingSlashes(path: string): string
  {
    if path != [] && path[|path| - 1] == '/' then TrimTrailingSlashes(path[..|path| - 1]) else path
  }

  /** The text after the last `/`. */
  function AfterLastSlash(path: string): (name: string)
    ensures '/' !in name
  {
    if path == [] || path[|path| - 1] == '/' then []
    else AfterLastSlash(path[..|path| - 1]) + [path[|path| - 1]]
  }

  /** `Path::file_name`: the last component; none for an empty path, a root
      or a `..` component. */
  function FileName(path: string): Option<string>
  {
    var name := AfterLastSlash(TrimTrailingSlashes(path));
    if name == [] || name == ".." then None else Some(name)
  }

  /** The index of the last `.` in `s`. */
  function LastDot(s: string): (r: Option<nat>)
    ensures r.Some? ==> r.value < |s| && s[r.value] == '.' && '.' !in s[r.value + 1..]
    ensures r.None? <==> '.' !in s
  {
    if s == [] then None
    else if s[|s| - 1] == '.' then Some(|s| - 1)
    else
      var r := LastDot(s[..|s| - 1]);
      assert s == s[..|s| - 1] + [s[|s| - 1]];
      if r.None? then None
      else
        assert s[r.value + 1..] == s[..|s| - 1][r.value + 1..] + [s[|s| - 1]];
        r
  }

  /** `Path::extension`: the file name after its last `.`, unless that dot
      starts the name or there is none. */
  function Extension(path: string): Option<string>
  {
    match FileName(path)
    case None => None
    case Some(name) =>
      var dot := LastDot(name);
      if dot.None? || dot.value == 0 then None else Some(name[dot.value + 1..])
  }

  lemma {:induction false} AfterLastSlashOfName(dir: string, name: string)
    requires '/' !in name
    ensures AfterLastSlash(dir + "/" + name) == name
    decreases |name|
  {
    var path := dir + "/" + name;
    if name == [] {
      assert path[|path| - 1] == '/';
    } else {
      assert path[..|path| - 1] == dir + "/" + name[..|name| - 1];
      AfterLastSlashOfName(dir, name[..|name| - 1]);
      assert name == name[..|name| - 1] + [name[|name| - 1]];
    }
  }

  lemma {:induction false} AfterLastSlashWhole(name: string)
    requires '/' !in name
    ensures AfterLastSlash(name) == name
  {
    if name != [] {
      AfterLastSlashWhole(name[..|name| - 1]);
      assert name == name[..|name| - 1] + [name[|name| - 1]];
    }
  }

  /** The directory part of a path does not affect its extension. */
  lemma DirectoryIgnored(dir: string, name: string)
    requires name != [] && '/' !in name
    ensures Extension(dir + "/" + name) == Extension(name)
  {
    var path := dir + "/" + name;
    assert path[|path| - 1] == name[|name| - 1];
    assert TrimTrailingSlashes(path) == path;
    assert TrimTrailingSlashes(name) == name;
    AfterLastSlashOfName(dir, name);
    AfterLastSlashWhole(name);
  }

  /** `stem.ext` has extension `ext`. */
  lemma ExtensionOfName(stem: string, ext: string)
    requires stem != [] && '/' !in stem
    requires ext != [] && '/' !in ext && '.' !in ext
    ensures Extension(stem + "." + ext) == Some(ext)
  {
    var name := stem + "." + ext;
    assert '/' !in name by {
      forall k | 0 <= k < |name|
        ensures name[k] != '/'
      {
        if k < |stem| { assert name[k] == stem[k]; }
        else if k > |stem| { assert name[k] == ext[k - |stem| - 1]; }
      }
    }
    assert name[|name| - 1] == ext[|ext| - 1];
    assert TrimTrailingSlashes(name) == name;
    AfterLastSlashWhole(name);
    assert name != ".." by {
      assert |name| >= 3;
    }
    var dot := LastDot(name);
    assert name[|stem|] == '.';
    assert name[|stem| + 1..] == ext;
    assert dot.Some?;
  }

  /** A path without a dot has no extension. */
  lemma NoDotNoExtension(path: string)
    requires '.' !in path
    ensures Extension(path) == None
  {
    var name := AfterLastSlash(TrimTrailingSlashes(path));
    if FileName(path).Some? {
      assert '.' !in name by {
        TrimmedWithin(path);
        AfterLastSlashWithin(TrimTrailingSlashes(path));
      }
    }
  }

  lemma {:induction false} TrimmedWithin(path: string)
    ensures forall c :: c in TrimTrailingSlashes(path) ==> c in path
  {
    if path != [] && path[|path| - 1] == '/' {
      TrimmedWithin(path[..|path| - 1]);
    }
  }

  lemma {:induction false} AfterLastSlashWithin(path: string)
    ensures forall c :: c in AfterLastSlash(path) ==> c in path
  {
    if path != [] && path[|path| - 1] != '/' {
      AfterLastSlashWithin(path[..|path| - 1]);
    }
  }

  /** What a loader returns: `Result<Box<dyn StructureData>, anyhow::Error>`. */
  datatype Loaded = Loaded(data: StructureData) | LoadError(message: string)

  /** `structure_loader`; the two readers and the `groan_rs` feature are parameters. */
  function StructureLoader(structureFile: string, groanRs: bool,
                           loadPdb: string -> Loaded, loadGro: string -> Loaded): (r: Loaded)
    ensures Extension(structureFile).None? ==>
      r == LoadError("structure_file: " + structureFile + " has no extension.")
    ensures Extension(structureFile) == Some("pdb") ==> r == loadPdb(structureFile)
    ensures Extension(structureFile) == Some("gro") ==>
      r == if groanRs then loadGro(structureFile) else LoadError("This extension is not supported.")
    ensures r.Loaded? ==>
      (Extension(structureFile) == Some("pdb") || (groanRs && Extension(structureFile) == Some("gro")))
  {
    match Extension(structureFile)
    case None => LoadError("structure_file: " + structureFile + " has no extension.")
    case Some(extension) =>
      if extension == "pdb" then loadPdb(structureFile)
      else if extension == "gro" then
        (if groanRs then loadGro(structureFile) else LoadError("This extension is not supported."))
      else LoadError("This extension is not supported.")
  }

  /** `structure_loader_from_content`: only PDB text can be loaded. */
  function StructureLoaderFromContent(content: string, extension: string,
                                      loadPdbContent: string -> Loaded): (r: Loaded)
    ensures extension == "pdb" ==> r == loadPdbContent(content)
    ensures extension != "pdb" ==> r.LoadError?
    ensures extension == "gro" ==> r == LoadError("gro is not supported for loading from content")
  {
    if extension == "pdb" then loadPdbContent(content)
    else if extension == "gro" then LoadError("gro is not supported for loading from content")
    else LoadError("This extension is not supported.")
  }

  /** A file named `stem.pdb`, in any directory, goes to the PDB reader; a
      dotless name is refused with its own message. */
  lemma LoaderByFileName(dir: string, stem: string, groanRs: bool,
                         loadPdb: string -> Loaded, loadGro: string -> Loaded)
    requires stem != [] && '/' !in stem
    ensures StructureLoader(dir + "/" + stem + ".pdb", groanRs, loadPdb, loadGro) ==
      loadPdb(dir + "/" + stem + ".pdb")
    ensures !groanRs ==>
      StructureLoader(dir + "/" + stem + ".gro", groanRs, loadPdb, loadGro) == LoadError("This extension is not supported.")
  {
    assert ".pdb" == "." + "pdb" && ".gro" == "." + "gro";
    ExtensionInDirectory(dir, stem, "pdb");
    ExtensionInDirectory(dir, stem, "gro");
  }

  lemma ExtensionInDirectory(dir: string, stem: string, ext: string)
    requires stem != [] && '/' !in stem
    requires ext != [] && '/' !in ext && '.' !in ext
    ensures Extension(dir + "/" + stem + ("." + ext)) == Some(ext)
  {
    var name := stem + "." + ext;
    assert dir + "/" + stem + ("." + ext) == dir + "/" + name;
    ExtensionOfName(stem, ext);
    assert '/' !in name by {
      forall k | 0 <= k < |name|
        ensures name[k] != '/'
      {
        if k < |stem| { assert name[k] == stem[k]; }
        else if k > |stem| { assert name[k] == ext[k - |stem| - 1]; }
      }
    }
    DirectoryIgnored(dir, name);
  }

  /** A path with no dot is refused, naming the file. */
  lemma LoaderWithoutExtension(path: string, groanRs: bool,
                               loadPdb: string -> Loaded, loadGro: string -> Loaded)
    requires '.' !in path
    ensures StructureLoader(path, groanRs, loadPdb, loadGro) ==
      LoadError("structure_file: " + path + " has no extension.")
  {
    NoDotNoExtension(path);
  }
}
