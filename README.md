# mogura — a verified Dafny model of its core

mogura is a molecular viewer. This project models its non-graphical core in
Dafny and proves properties of that model:

- **Atom selection language** (`mogura-asl`). The `Selection` tree, the
  parser that turns a query string such as `(index 10 to 20) or protein and
  (resname ALA)` into a tree, and the evaluator its tests define. Modules
  `Asl`, `AslPrint` (a printer and the round trip back through the parser)
  and `AslExamples` (every query in the test suite).
- **Structure data** (`mogura-io`). Atoms, residues and their name
  predicates, centres, distance-based bonds, the protein and backbone
  filters, `Residue::backbone`, the element tables (`Elements`) and the
  loader dispatch by file extension (`Structure`). Also the three loaders
  that turn library output into `StructureData`: PDB (`PdbLoader`), GRO
  (`GroLoader`) and XTC trajectories (`XtcLoader`).
- **Secondary structure** (`mogura-ss`). Per-residue H/E/Loop labels from
  the φ/ψ angles (`Rama`).
- **Trajectory playback** (`bevy-mogura`). When a tick works, which frame
  counter calls it makes, which atoms the tube follows, the index window of
  each interpolated tube point, and which bonds and tube segments are
  skipped (`Trajectory`).
- **The older wgpu viewer** (`src/`). `PDBSystem` as a class whose methods
  rebuild the atoms, bonds and line-mesh buffers (`LegacyPdb`), `Bond`
  (`LegacyBond`), and the index topology of `Line`, `Sphere` and
  `Pentagon` (`LegacyModel`).

Modelling choices:

- Coordinates (`f32`) are `real`.
- The bond cutoff `distance <= 1.6` is stated on squared distances, as
  `<= 1.6 * 1.6`. This avoids square roots and is the same test for
  non-negative distances.
- `usize` is an unbounded `nat` with an explicit bound `UsizeMax`, so the
  panicking `unwrap` on an over-long number is an explicit `Panicked`
  outcome.
- Casts to `u16` and `isize` are written out as `AsU16` and `AsIsize`.
- Library output (pdbtbx, groan_rs, the XTC reader) enters as plain nested
  sequences. nom combinators are modelled by what they do: backtracking
  alternatives, repetition, and a separate failure for overflow.
- The `unwrap` panics of the loaders become `None`/`Panicked` results.
- Dividing by the atom count of an empty list (a NaN centre in the source)
  becomes `None`.

## Model

| member | source | states |
|---|---|---|
| Asl.ParseSelection | mogura-asl/src/lib.rs:21-26 | the result is `Ok` exactly when the expression parser succeeds and consumes the whole input; it panics exactly when a number overflowed `usize`; otherwise it is `Err` |
| Asl.ParseExpr | mogura-asl/src/lib.rs:28-32 | a parsed expression is at or-level (flat n-ary `Or` of `And`s of `Not`s of primaries) and the remaining input is no longer than the input |
| Asl.ParseOr | mogura-asl/src/lib.rs:34-53 | the result is an or-level tree: an `Or` only when it has at least two and-level operands |
| Asl.ParseOrTail | mogura-asl/src/lib.rs:34-53 | every operand collected after `or` is an and-level tree |
| Asl.ParseAnd | mogura-asl/src/lib.rs:55-74 | the result is an and-level tree: an `And` only when it has at least two not-level operands |
| Asl.ParseAndTail | mogura-asl/src/lib.rs:55-74 | every operand collected after `and` is a not-level tree |
| Asl.ParseNot | mogura-asl/src/lib.rs:76-87 | the result is k nested `Not`s around one primary |
| Asl.ParsePrimary | mogura-asl/src/lib.rs:89-92 | the result is a primary (a bracket or an atom) and input was consumed |
| Asl.ParseBraket | mogura-asl/src/lib.rs:94-99 | a bracketed expression is kept as a `Braket` primary around an or-level expression, and input was consumed |
| Asl.ParseAtom | mogura-asl/src/lib.rs:101-115 | an atom is a primary that is not a bracket, and it consumes input |
| Asl.ParseIdent | mogura-asl/src/lib.rs:117-122 | an identifier is non-empty alphanumeric text other than `and`/`or`/`not`/`to`, is a prefix of the input, and failure only backtracks |
| Asl.ParseIdentList | mogura-asl/src/lib.rs:124-150 | an identifier list has at least one valid identifier |
| Asl.ParseKeywordIdents | mogura-asl/src/lib.rs:124-150 | `name`/`resname` yield a non-empty list of valid identifiers, and failure only backtracks |
| Asl.ParseKeywordNumbers | mogura-asl/src/lib.rs:152-172 | `resid`/`index` yield numbers that each fit in `usize` |
| Asl.ParseNumbers | mogura-asl/src/lib.rs:174-198 | every parsed number fits in `usize` and input is consumed |
| Asl.Range | mogura-asl/src/lib.rs:174-198 | `a to b` is the inclusive ascending list `a..b`, empty when `a > b` |
| Asl.ParseUsize | mogura-asl/src/lib.rs:200-205 | a parsed number fits in `usize` and digits were consumed |
| Asl.SkipSpaces | mogura-asl/src/lib.rs:28-32 | skipping blanks drops exactly the leading run of spaces and tabs |
| Asl.LevelsNest | mogura-asl/src/lib.rs:3-19 | primary ⊂ not-level ⊂ and-level ⊂ or-level trees |
| Asl.NotsLevel | mogura-asl/src/lib.rs:76-87 | k `Not`s around a primary give a not-level tree |
| Asl.LeadingBlank | mogura-asl/src/lib.rs:28-32 | a leading space or tab never changes the outcome of `parse_selection` |
| Asl.EvalNots | mogura-asl/src/lib.rs:455-473 | k nested `Not`s evaluate to the child's value when k is even and to its negation when k is odd |
| Asl.EvalIndexRange | mogura-asl/src/lib.rs:455-473 | `index a to b` holds for an atom exactly when `a <= index <= b` |
| AslPrint.RoundTrip | mogura-asl/src/lib.rs:21-99 | every or-level tree, printed, parses back to itself: each tree the parser can build has a text that yields it |
| AslPrint.RoundTripPadded | mogura-asl/src/lib.rs:28-32 | trailing blanks after any printed tree are accepted and change nothing |
| AslPrint.LeadingBlanks | mogura-asl/src/lib.rs:28-32 | any run of leading blanks is accepted and changes nothing |
| AslPrint.ExprRT | mogura-asl/src/lib.rs:28-99 | the expression parser reads a printed tree back exactly and stops at the following text |
| AslPrint.NumbersRT | mogura-asl/src/lib.rs:174-198 | a printed number list parses back to the same list, in order |
| AslPrint.ToRT | mogura-asl/src/lib.rs:174-198 | `a to b` parses to `Range(a, b)` |
| AslPrint.IdentListRT | mogura-asl/src/lib.rs:117-150 | a printed non-empty identifier list parses back to the same list, in order |
| AslPrint.UsizeRoundTrip | mogura-asl/src/lib.rs:200-205 | a printed `usize` parses back to itself |
| AslPrint.AtomSelection | mogura-asl/src/lib.rs:21-32 | a whole-input atom parse is the selection's result |
| AslPrint.AtomFailure | mogura-asl/src/lib.rs:21-32 | a failing atom makes the selection `Err`, or a panic when the failure was an overflow |
| AslPrint.UsizeOverflow | mogura-asl/src/lib.rs:200-205 | a number above `usize::MAX` fails with overflow |
| AslPrint.KeywordOverflow | mogura-asl/src/lib.rs:152-172 | `resid n`/`index n` with `n > usize::MAX` fails with overflow |
| AslPrint.IndexOverflow | mogura-asl/src/lib.rs:163-172 | an overflowing `index` clause fails the atom parser with overflow |
| AslPrint.ResIdOverflow | mogura-asl/src/lib.rs:152-161 | an overflowing `resid` clause fails the atom parser with overflow |
| AslPrint.OverflowPanics | mogura-asl/src/lib.rs:200-205 | `resid n` or `index n` with `n > usize::MAX` panics rather than returning `Err` |
| AslExamples.ParsesAll | mogura-asl/src/lib.rs:237-240 | `all` parses to `All` |
| AslExamples.ParsesPaddedAll | mogura-asl/src/lib.rs:242-244 | ` all ` parses to `All` |
| AslExamples.ParsesResName | mogura-asl/src/lib.rs:248-252 | `resname ALA` parses to `ResName[ALA]` |
| AslExamples.ParsesResNames | mogura-asl/src/lib.rs:255-262 | `resname ALA GLU` parses to `ResName[ALA, GLU]` |
| AslExamples.ParsesName | mogura-asl/src/lib.rs:265-269 | `name CA` parses to `Name[CA]` |
| AslExamples.ParsesNames | mogura-asl/src/lib.rs:272-278 | `name CA CB` parses to `Name[CA, CB]` |
| AslExamples.ParsesPaddedNames | mogura-asl/src/lib.rs:280-286 | ` name  CA  CB ` parses to `Name[CA, CB]` |
| AslExamples.ParsesIndex | mogura-asl/src/lib.rs:289-293 | `index 10` parses to `Index[10]` |
| AslExamples.ParsesIndices | mogura-asl/src/lib.rs:296-300 | `index 10 20` parses to `Index[10, 20]` |
| AslExamples.ParsesIndexRange | mogura-asl/src/lib.rs:303-307 | `index 10 to 20` parses to `Index[10..=20]` |
| AslExamples.ParsesResId | mogura-asl/src/lib.rs:310-313 | `resid 10` parses to `ResId[10]` |
| AslExamples.RejectsResIdResName | mogura-asl/src/lib.rs:315-317 | `resid resname` is `Err` |
| AslExamples.ParsesResIds | mogura-asl/src/lib.rs:321-325 | `resid 10 20` parses to `ResId[10, 20]` |
| AslExamples.ParsesResIdRange | mogura-asl/src/lib.rs:328-331 | `resid 10 to 20` parses to `ResId[10..=20]` |
| AslExamples.RejectsResIdTo | mogura-asl/src/lib.rs:333-335 | `resid to 20` is `Err` |
| AslExamples.ParsesAnd | mogura-asl/src/lib.rs:339-349 | `resname ALA and resname GLU` parses to one two-operand `And` |
| AslExamples.ParsesOr | mogura-asl/src/lib.rs:352-361 | `resname ALA or resname GLU` parses to one two-operand `Or` |
| AslExamples.ParsesPaddedOr | mogura-asl/src/lib.rs:363-372 | the padded form of the same query gives the same `Or` |
| AslExamples.ParsesNot | mogura-asl/src/lib.rs:375-382 | `not resname ALA` parses to `Not(ResName[ALA])` |
| AslExamples.ParsesBraketAnd | mogura-asl/src/lib.rs:385-397 | `(resname ALA GLU) and name CA` keeps the bracket as `Braket` inside an `And` |
| AslExamples.ParsesBraketPrecedence | mogura-asl/src/lib.rs:399-415 | in `(index 10 to 20) or protein and (resname ALA)`, `and` binds tighter than `or` |
| AslExamples.ParsesProtein | mogura-asl/src/lib.rs:418-422 | `protein` parses to `Protein` |
| AslExamples.ParsesWater | mogura-asl/src/lib.rs:425-429 | `water` parses to `Water` |
| AslExamples.ParsesIon | mogura-asl/src/lib.rs:432-436 | `ion` parses to `Ion` |
| AslExamples.ParsesBackbone | mogura-asl/src/lib.rs:439-443 | `backbone` parses to `Backbone` |
| AslExamples.ParsesSidechain | mogura-asl/src/lib.rs:446-450 | `sidechain` parses to `Sidechain` |
| AslExamples.SampleEval | mogura-asl/src/lib.rs:453-501 | `(index 10 to 20) or resname ALA` holds for index 15 / ALA and fails for index 25 / GLU |
| AslExamples.SampleTreeEval | mogura-asl/src/lib.rs:455-473 | the evaluator's verdicts on the sample tree, case by case |
| AslExamples.IndexRangeSelects | mogura-asl/src/lib.rs:303-307 | for any `a <= b` (the test uses 10 and 20; `a == b` gives one index), `index a to b` parses to the inclusive range and selects exactly the indices `a` through `b` |
| Elements.FromSymbol | mogura-io/src/structure_data/mod.rs:569-690 | a symbol maps to the element whose table entry equals it ignoring ASCII case; `None` exactly when no entry does |
| Elements.SymbolRoundTrip | mogura-io/src/structure_data/mod.rs:569-707 | every element's own symbol maps back to that element |
| Elements.FromSymbolIff | mogura-io/src/structure_data/mod.rs:569-707 | `from_symbol(s) == e` exactly when `s` equals e's symbol ignoring case |
| Elements.FromSymbolIgnoresCase | mogura-io/src/structure_data/mod.rs:569-690 | symbols equal up to ASCII case map to the same result |
| Elements.SymbolsDistinct | mogura-io/src/structure_data/mod.rs:698-707 | no two table symbols are equal, even ignoring case |
| Elements.ToSymbolAsWritten | mogura-io/src/structure_data/mod.rs:693-695 | the table lookup with the 1-based number falls off the table exactly for `Og` |
| Elements.ToSymbolAsWrittenIsNext | mogura-io/src/structure_data/mod.rs:693-695 | for every element below `Og` the lookup returns the NEXT element's symbol |
| Elements.ToSymbolOffByOne | mogura-io/src/structure_data/mod.rs:693-695 | `H` gives `"HE"`, which maps back to helium, and `Og` has no symbol |
| Elements.ToSymbol | mogura-io/src/structure_data/mod.rs:693-695 | the corrected lookup returns a symbol that maps back to the same element |
| Elements.FromAtomName | mogura-io/src/structure_data/mod.rs:555-567 | an element exists exactly when the name's first character is one of H, C, N, O, S, and it is then one of those five elements |
| Elements.FromAtomNameSymbol | mogura-io/src/structure_data/mod.rs:555-567 | the element found is the one whose symbol is the name's first character |
| Elements.FromAtomNameAgrees | mogura-io/src/structure_data/mod.rs:555-567 | `from_atom_name` agrees with `from_symbol` of the first character |
| Structure.IonNames | mogura-io/src/structure_data/mod.rs:207-219 | a residue name is an ion exactly when it contains `+` or `-` |
| Structure.WaterNames | mogura-io/src/structure_data/mod.rs:207-219 | HOH, WAT and any name containing TIP are water |
| Structure.BackbonePartition | mogura-io/src/structure_data/mod.rs:297-310 | backbone atoms are protein atoms, and backbone and sidechain partition the protein atoms |
| Structure.ClassesAgree | mogura-io/src/structure_data/mod.rs:284-296 | the atom and residue predicates agree on the same residue name |
| Structure.Center | mogura-io/src/structure_data/mod.rs:80-91 | the centre is the componentwise sum divided by the atom count, absent for no atoms |
| Structure.ResidueCenter | mogura-io/src/structure_data/mod.rs:180-191 | a residue's centre is the mean of its own atoms |
| Structure.MeanTranslate | mogura-io/src/structure_data/mod.rs:80-91 | translating every atom by `d` moves the centre by `d` |
| Structure.BondsIndirected | mogura-io/src/structure_data/mod.rs:95-116 | the loop builds exactly the specified pair list |
| Structure.IndirectedMembers | mogura-io/src/structure_data/mod.rs:95-116 | `(i, j)` is a bond exactly when `j < i < n` and the atoms are within 1.6 |
| Structure.IndirectedOrdered | mogura-io/src/structure_data/mod.rs:95-116 | the pairs are strictly ordered by `i` then `j`: no repeats |
| Structure.BondsDirected | mogura-io/src/structure_data/mod.rs:117-137 | the loop builds each undirected bond followed by its swap |
| Structure.DoubledShape | mogura-io/src/structure_data/mod.rs:117-137 | entries `2k` and `2k+1` are the k-th pair and its swap, twice as many entries |
| Structure.DirectedMembers | mogura-io/src/structure_data/mod.rs:117-137 | a directed pair is present exactly when its undirected form is a bond, and the list is symmetric |
| Structure.Protein | mogura-io/src/structure_data/mod.rs:138-147 | the result is the order-preserving filter of the protein atoms |
| Structure.Backbone | mogura-io/src/structure_data/mod.rs:148-157 | the result is the order-preserving filter of the backbone atoms |
| Structure.FilterMembers | mogura-io/src/structure_data/mod.rs:138-157 | an atom survives a filter exactly when it was present and passes the test |
| Structure.BackboneWithinProtein | mogura-io/src/structure_data/mod.rs:138-157 | filtering the protein atoms for backbone gives the backbone of the whole list |
| Structure.BackboneSidechainCount | mogura-io/src/structure_data/mod.rs:297-310 | protein atoms = backbone atoms + sidechain atoms, in count |
| Structure.FindNamed | mogura-io/src/structure_data/mod.rs:192-206 | the search returns the first atom with the name, and none exactly when no atom has it |
| Structure.ResidueBackboneFound | mogura-io/src/structure_data/mod.rs:192-206 | `backbone` is `Some` exactly when O, N, C, CA and HA are all present, and each is the first atom of that name |
| Structure.ExtensionOfName | mogura-io/src/structure_data/mod.rs:14-52 | the extension of `stem.ext` is `ext` |
| Structure.NoDotNoExtension | mogura-io/src/structure_data/mod.rs:14-52 | a path without a dot has no extension |
| Structure.ExtensionInDirectory | mogura-io/src/structure_data/mod.rs:14-52 | directories in the path do not affect the extension |
| Structure.StructureLoader | mogura-io/src/structure_data/mod.rs:14-52 | no extension is an error, `pdb` calls the PDB loader, `gro` calls the GRO loader only with `groan_rs`, anything else is an error |
| Structure.LoaderByFileName | mogura-io/src/structure_data/mod.rs:14-52 | `dir/stem.pdb` is loaded as PDB, and `dir/stem.gro` is an error without `groan_rs` |
| Structure.LoaderWithoutExtension | mogura-io/src/structure_data/mod.rs:14-52 | a path without an extension is an error naming the file |
| Structure.StructureLoaderFromContent | mogura-io/src/structure_data/mod.rs:53-72 | content is loaded only as PDB; `gro` and every other extension are errors |
| PdbLoader.Convert | mogura-io/src/structure_data/pdb.rs:44-92 | the nested loops build exactly the atoms and residues of the traversal specification |
| PdbLoader.ConvertResidue | mogura-io/src/structure_data/pdb.rs:53-80 | one residue's atoms are converted with consecutive ids from the running count |
| PdbLoader.LoadFromContent | mogura-io/src/structure_data/pdb.rs:28-98 | a parse failure gives no data; otherwise the data is the converted traversal |
| PdbLoader.DenseIds | mogura-io/src/structure_data/pdb.rs:44-79 | atom ids are 0, 1, 2, … in model → chain → residue → atom order |
| PdbLoader.ResiduesCoverAtoms | mogura-io/src/structure_data/pdb.rs:77-92 | concatenating the residues' atom lists gives the atom list |
| PdbLoader.ResidueIdIsRunningCount | mogura-io/src/structure_data/pdb.rs:79-84 | a residue's id is the running atom count after its atoms, not its index |
| PdbLoader.ResidueName | mogura-io/src/structure_data/pdb.rs:62-90 | a missing residue name becomes "None" |
| PdbLoader.AtomElement | mogura-io/src/structure_data/pdb.rs:62-72 | the element is `from_symbol` of the library symbol, or none without a symbol |
| PdbLoader.ResidueCount | mogura-io/src/structure_data/pdb.rs:48-51 | every model pass revisits the same chain list, so there are (models × residues of those chains) residues |
| GroLoader.Load | mogura-io/src/structure_data/gro.rs:14-46 | a read failure or a missing position gives no data; otherwise each atom is converted in order with `residues` empty |
| GroLoader.ConvertSystem | mogura-io/src/structure_data/gro.rs:15-45 | the loop converts atom k to id k, and fails exactly when a position is missing |
| GroLoader.ConvertedAtom | mogura-io/src/structure_data/gro.rs:23-43 | `model_id` is 0, a missing chain is "None", the element comes from the atom name, and the position is nm × 10 |
| GroLoader.AsIsize | mogura-io/src/structure_data/gro.rs:26-31 | the residue number's cast to `isize` keeps values up to `isize::MAX` and wraps above it |
| XtcLoader.Load | mogura-io/src/trajectory_data/xtc.rs:17-45 | topology or open failures return their error; success needs every frame clean, and then frame ids are 0, 1, 2, … with positions nm × 10; the first bad frame ends the load with no partial list |
| XtcLoader.FramePositions | mogura-io/src/trajectory_data/xtc.rs:27-36 | a frame converts exactly when every atom has a position, one position per atom in order |
| XtcLoader.InAngstrom | mogura-io/src/trajectory_data/xtc.rs:27-36 | each position is the library value × 10 |
| Rama.AssignSs | mogura-ss/src/rama.rs:56-112 | the array has one label per residue and label i is the specified label of residue i |
| Rama.LabelCases | mogura-ss/src/rama.rs:100-108 | the label is H exactly when φ ∈ [-90, -30] and ψ ∈ [-77, -17], E exactly when φ ∈ [-150, -90], ψ ∈ [90, 180] and not H, and only H, E or Loop occur |
| Rama.EndsAreLoop | mogura-ss/src/rama.rs:76-99 | the first and last residues are always Loop |
| Rama.LabelIsLocal | mogura-ss/src/rama.rs:60-109 | each label depends only on residues i-1, i and i+1 |
| Rama.FindAtom | mogura-ss/src/rama.rs:4-6 | a found atom has the name and belongs to the residue |
| Rama.FindAtomFirst | mogura-ss/src/rama.rs:4-6 | the search fails exactly when no atom has the name, and otherwise returns the first one |
| Rama.CrossPerpendicular | mogura-ss/src/rama.rs:12-22 | the cross product is perpendicular to both factors |
| Rama.Normalize | mogura-ss/src/rama.rs:28-35 | a zero-length vector gives the zero vector; otherwise the result times the norm is the input |
| Trajectory.TickCallsSpec | bevy-mogura/src/trajectory.rs:31-147 | `next_frame_id` is called iff the tick runs with `update_trajectory`, `loop_frame_id` iff it runs with `loop_trajectory`, in that order |
| Trajectory.MoguraState.UpdateTrajectory | bevy-mogura/src/trajectory.rs:31-147 | the counter calls follow the gating; `update_tmp_trajectory` is cleared only after a full pass and kept on an early return |
| Trajectory.MoguraState.NextFrameId | bevy-mogura/src/trajectory.rs:139-141 | one `next_frame_id` call is recorded and no flag changes |
| Trajectory.MoguraState.LoopFrameId | bevy-mogura/src/trajectory.rs:143-145 | one `loop_frame_id` call is recorded and no flag changes |
| Trajectory.MoguraState.constructor | bevy-mogura/src/trajectory.rs:31-35 | the state holds the given flags and no calls yet |
| Trajectory.CollectTubeTargets | bevy-mogura/src/trajectory.rs:86-97 | the loop collects exactly the specified target ids |
| Trajectory.TubeAtomIff | bevy-mogura/src/trajectory.rs:86-97 | a tube atom is a protein atom named N, CA or C |
| Trajectory.TubeTargetsMembers | bevy-mogura/src/trajectory.rs:86-97 | an id is a target exactly when some atom with that id is a tube atom |
| Trajectory.InterpolationPoints | bevy-mogura/src/trajectory.rs:99-114 | fewer than two targets underflow (no points); otherwise the points are the specified window |
| Trajectory.WindowPointsInRange | bevy-mogura/src/trajectory.rs:99-114 | there are `STEPS + 1` points per window, and each window's four reads are in range |
| Trajectory.TubeWindowsInRange | bevy-mogura/src/trajectory.rs:99-114 | for `len` targets every read `target_atoms[i-1..=i+2]` is in range, with `(len-3)(STEPS+1)` points |
| Trajectory.InferredBondsDrawn | bevy-mogura/src/trajectory.rs:75-77 | no inferred bond is skipped by the bond-length test, in either direction |
| Trajectory.TubeSegmentLimit | bevy-mogura/src/trajectory.rs:127-129 | the tube segment limit times STEPS is twice the bond cutoff |
| LegacyBond.NewBond | src/bond.rs:10-17 | the pair is stored unchanged and both names go through `str2atomtype` |
| LegacyBond.Str2AtomTypeNames | src/bond.rs:19-27 | exactly "C", "O", "N", "H" give their variant; anything else is `Unknown`, and S, P, Ca, K, Cl, Na never occur |
| LegacyBond.DistanceSymmetric | src/bond.rs:29-39 | swapping a bond's ends changes neither its distance nor whether it is formed |
| LegacyModel.AsU16 | src/model.rs:297-316 | the cast stays below 65536 and is the identity below it |
| LegacyModel.NewLine | src/model.rs:186-202 | one vertex and one index per point; vertex i has position = normal = point i and the colour; index i is i as u16 |
| LegacyModel.LineIndicesInRange | src/model.rs:186-202 | for up to 65536 points every line index is its own position and names a vertex |
| LegacyModel.NewSphere | src/model.rs:216-330 | the loops build exactly the specified vertex and index grids and store the parameters as passed |
| LegacyModel.SphereSizes | src/model.rs:264-318 | a sphere has 4·accuracy² vertices and 6·accuracy² indices |
| LegacyModel.CellVertexLayout | src/model.rs:268-296 | cell (n, m)'s four vertices sit at `base..base+3`, `base = 4(accuracy·n + m)` |
| LegacyModel.CellIndexLayout | src/model.rs:297-316 | cell (n, m)'s six indices are `base, base+1, base+2, base+3, base+2, base+1` |
| LegacyModel.SphereIndicesInRange | src/model.rs:297-316 | while 4·accuracy² ≤ 65536 every sphere index names a vertex |
| LegacyModel.PentagonShape | src/model.rs:99-142 | 5 vertices in the z = 0 plane and 9 indices, all < 5, forming three triangles that share vertex 4 |
| LegacyPdb.CollectAtoms | src/pdb.rs:13-52 | the loops collect exactly the specified atom list |
| LegacyPdb.PushResidue | src/pdb.rs:13-52 | one residue's atoms are appended with consecutive ids |
| LegacyPdb.SystemIdsDense | src/pdb.rs:13-52 | atom ids are 0, 1, 2, … in model → chain → residue → atom order |
| LegacyPdb.SystemVisitsAsLoader | src/pdb.rs:13-52 | when all models share the first model's chains, this traversal equals the newer loader's |
| LegacyPdb.PdbSystem.From | src/pdb.rs:13-52 | the system holds the collected atoms and empty bonds, vertices and indices |
| LegacyPdb.PdbSystem.Center | src/pdb.rs:55-69 | the centre is the mean of the atom coordinates, absent for no atoms |
| LegacyPdb.CenterFollowsMove | src/pdb.rs:55-69 | moving every atom by `d` moves the centre by `d` |
| LegacyPdb.PdbSystem.SetLineModel | src/pdb.rs:71-89 | the vertices are one per atom and the indices two per bond, atoms and bonds unchanged |
| LegacyPdb.LineModelInRange | src/pdb.rs:71-89 | for up to 65536 atoms and in-range bonds, every line index names a vertex |
| LegacyPdb.PdbSystem.WhichGroupIsSelected | src/pdb.rs:91-169 | touched exactly when some atom is within 1.0; untouched gives the empty set; touched gives the group of the first such atom |
| LegacyPdb.FirstWithinExists | src/pdb.rs:101-121 | the scan finds an atom exactly when some atom lies within 1.0 |
| LegacyPdb.ScanFindsFirst | src/pdb.rs:101-121 | the running-minimum scan stops at the first atom within 1.0 |
| LegacyPdb.GroupFacts | src/pdb.rs:132-168 | the picked atom is in its group, every member shares its residue or chain as the kind says, and atom ⊆ residue ⊆ molecule groups |
| LegacyPdb.PickedGroup | src/pdb.rs:132-168 | touching succeeds exactly when some atom is within 1.0, and then the group holds that atom |
| LegacyPdb.PdbSystem.MoveWithNnp | src/pdb.rs:171-178 | nothing changes |
| LegacyPdb.PdbSystem.MoveWithoutNnp | src/pdb.rs:180-201 | the selected atoms move by the displacement, and nothing else changes |
| LegacyPdb.ApplyMove | src/pdb.rs:190-200 | the loop moves exactly the selected atoms |
| LegacyPdb.MovedAt | src/pdb.rs:180-201 | selected atoms are displaced, all other atoms unchanged, and the count is kept |
| LegacyPdb.MoveBack | src/pdb.rs:180-201 | dragging by (-dx, -dy) undoes dragging by (dx, dy) |
| LegacyPdb.PdbSystem.UpdateBondsAll | src/pdb.rs:203-216 | the bonds are rebuilt to the specified list, atoms and mesh unchanged |
| LegacyPdb.BondsAreFormedPairs | src/pdb.rs:203-216 | a bond is present exactly when `i < j` and `is_formed` holds, in strict lexicographic order |
| LegacyPdb.LineModelAfterBonds | src/pdb.rs:71-89 | after `update_bonds_all`, every line index names a vertex (up to 65536 atoms) |

## Left out

- File, network and GPU I/O: reading files, HTTP downloads, `UnitRender` buffers and drawing. Library results are inputs to the model.
- The pdbtbx, groan_rs and XTC reader libraries are replaced by nested sequences.
- The nom combinators are modelled by their observable behaviour, not their internals.
- `dihedral` (`atan2`) is a parameter of `Rama.AssignSs`, because it is floating-point trigonometry.
- The ray-to-atom distance in `which_group_is_selected` is the parameter `dist`, because it is floating-point projection.
- The `sin`/`cos` sphere vertex positions are out of scope; each vertex is modelled as its grid point (n, m).
- Catmull-Rom interpolation and `Quat` rotations are out of scope; only the index window and the skip tests are modelled.
- `INTERPOLATION_STEPS` is a parameter.
- The bodies of `next_frame_id`/`loop_frame_id` are not part of this model; only their calls are recorded.
- Rama.Normalize: does not state that the result has unit length, because that needs the square root's properties over the reals.
- LegacyPdb.PdbSystem.WhichGroupIsSelected: does not state which atom the scan remembers when none is within 1.0, because that atom only feeds the untouched branch, which returns the empty set.
- LegacyModel.NewSphere: does not model the `u32` overflow of `4 * (accuracy * n + m)` for very large accuracy, because unbounded integers are used before the explicit `u16` cast.
- LegacyModel.SphereIndicesInRange: indices are proved in range only while 4·accuracy² ≤ 65536; above that the `u16` cast wraps, as `AsU16` shows.
- PdbLoader.ConvertResidue: atoms are appended one residue at a time rather than one atom at a time; the resulting lists are the same.
- Structure.Center: the NaN centre of an empty list is modelled as an absent centre.
- Structure.StructureLoader: the PDB and GRO loaders are parameters. `PDBData::load` returns `Self` where its caller expects a `Result`, so the caller's view is modelled.
- The newer PDB loader revisits the first model's chain list in every model pass, as the code does. The older `PDBSystem::from` walks each model's own chains. The two agree when all models have the same chains (`LegacyPdb.SystemVisitsAsLoader`).
- Structure.Extension: a trailing `.` component (`x.pdb/.`) is not normalised away as `Path::file_name` does, so such a path has no extension in the model; repeated and trailing slashes and `..` are modelled.
- Camera, quaternion, GUI, CLI and settings code is outside this model.
- Diagnostic printing is not modelled: the `dbg!` and `println!` calls in `which_group_is_selected` (src/pdb.rs:122, 125, 166) write to the console and do not affect the result.
- Asl.ParseExpr and the other parser functions: their contracts bound the length of the remaining input but do not state that it is a suffix of the input. `AslPrint.ExprRT` gives the exact remainder for printed trees.

## Findings

| source | as written | input that shows it | evidently intended | confidence | as-written member | corrected member |
|---|---|---|---|---|---|---|
| mogura-io/src/structure_data/mod.rs:693-695 | `to_symbol` indexes the symbol table with the 1-based element number | `Element::H` gives "HE", and `Element::Og` (118) indexes past the 118-entry table | each element returns its own symbol, so that `from_symbol(to_symbol(e)) == e` | high, not executed | Elements.ToSymbolOffByOne | Elements.SymbolRoundTrip |
