/**
 * The mesh builders of the earlier viewer: a line strip through given
 * points, a sphere made of quads on an accuracy × accuracy grid, and a
 * fixed pentagon. Only the vertex and index topology is modelled; vertex
 * positions on the sphere come from sines and cosines of the grid point.
 */
module LegacyModel {
  import opened Common

  datatype Vertex = Vertex(position: Vec3, normal: Vec3, color: Vec3)

  const U16Bound: nat := 0x1_0000

  /** `as u16`: keeps the low 16 bits. */
  function AsU16(n: nat): (r: nat)
    ensures r < U16Bound
    ensures n < U16Bound ==> r == n
  {
    n % U16Bound
  }

  // ---------------------------------------------------------------------
  // Line

  datatype LineMesh = LineMesh(color: Vec3, vertices: seq<Vertex>, indices: seq<nat>)

  /** `Line::new`. */
  method NewLine(color: Vec3, points: seq<Vec3>) returns (line: LineMesh)
    ensures line.color == color
    ensures |line.vertices| == |points| && |line.indices| == |points|
    ensures forall i :: 0 <= i < |points| ==> line.vertices[i] == Vertex(points[i], points[i], color)
    ensures forall i :: 0 <= i < |points| ==> line.indices[i] == AsU16(i)
  {
    var vertices := [];
    var indices := [];
    for i := 0 to |points|
      invariant |vertices| == i && |indices| == i
      invariant forall k :: 0 <= k < i ==> vertices[k] == Vertex(points[k], points[k], color)
      invariant forall k :: 0 <= k < i ==> indices[k] == AsU16(k)
    {
      vertices := vertices + [Vertex(points[i], points[i], color)];
      indices := indices + [AsU16(i)];
    }
    line := LineMesh(color, vertices, indices);
  }

  /** With at most 65536 points every line index names its own vertex. */
  lemma LineIndicesInRange(color: Vec3, points: seq<Vec3>, line: LineMesh)
    requires |points| <= U16Bound
    requires |line.vertices| == |points| && |line.indices| == |points|
    requires forall i :: 0 <= i < |points| ==> line.indices[i] == AsU16(i)
    ensures forall i :: 0 <= i < |line.indices| ==> line.indices[i] == i < |line.vertices|
  {
  }

  // ---------------------------------------------------------------------
  // Sphere

  /** The vertex `gen_vertex` makes at grid point `(n / accuracy, m / accuracy)`. */
  datatype GridPoint = GridPoint(n: nat, m: nat)

  datatype SphereMesh = SphereMesh(radius: real, center: Vec3, color: Vec3, accuracy: nat,
                                   vertices: seq<GridPoint>, indices: seq<nat>)

  /** The four corners of cell `(n, m)`, in push order. */
  function CellVertices(n: nat, m: nat): seq<GridPoint>
  {
    [GridPoint(n, m), GridPoint(n + 1, m), GridPoint(n, m + 1), GridPoint(n + 1, m + 1)]
  }

  /** The two triangles of cell `(n, m)`, from its base index. */
  function CellIndices(accuracy: nat, n: nat, m: nat): seq<nat>
  {
    var base := 4 * (accuracy * n + m);
    [AsU16(base), AsU16(base + 1), AsU16(base + 2), AsU16(base + 3), AsU16(base + 2), AsU16(base + 1)]
  }

  function RowVertices(n: nat, m: nat): (vs: seq<GridPoint>)
    ensures |vs| == 4 * m
  {
    if m == 0 then [] else RowVertices(n, m - 1) + CellVertices(n, m - 1)
  }

  function RowIndices(accuracy: nat, n: nat, m: nat): (ixs: seq<nat>)
    ensures |ixs| == 6 * m
  {
    if m == 0 then [] else RowIndices(accuracy, n, m - 1) + CellIndices(accuracy, n, m - 1)
  }

  /** The vertices of rows `0 .. n - 1`. */
  function GridVertices(accuracy: nat, n: nat): seq<GridPoint>
  {
    if n == 0 then [] else GridVertices(accuracy, n - 1) + RowVertices(n - 1, accuracy)
  }

  function GridIndices(accuracy: nat, n: nat): seq<nat>
  {
    if n == 0 then [] else GridIndices(accuracy, n - 1) + RowIndices(accuracy, n - 1, accuracy)
  }

  /** One pass of the inner loop of `Sphere::new`: the cells of row `n`,
      pushed after what the outer loop has built. */
  method PushSphereRow(accuracy: nat, n: nat, vertices0: seq<GridPoint>, indices0: seq<nat>)
    returns (vertices: seq<GridPoint>, indices: seq<nat>)
    ensures vertices == vertices0 + RowVertices(n, accuracy)
    ensures indices == indices0 + RowIndices(accuracy, n, accuracy)
  {
    vertices, indices := vertices0, indices0;
    for m := 0 to accuracy
      invariant vertices == vertices0 + RowVertices(n, m)
      invariant indices == indices0 + RowIndices(accuracy, n, m)
    {
      var n2 := n + 1;
      var m2 := m + 1;
      vertices := vertices + [GridPoint(n, m), GridPoint(n2, m), GridPoint(n, m2), GridPoint(n2, m2)];
      var csum := 4 * (accuracy * n + m);
      var triangles := [AsU16(csum), AsU16(csum + 1), AsU16(csum + 2), AsU16(csum + 3), AsU16(csum + 2), AsU16(csum + 1)];
      assert triangles == CellIndices(accuracy, n, m);
      indices := indices + triangles;
      GrowRow(vertices0, RowVertices(n, m), CellVertices(n, m));
      GrowRow(indices0, RowIndices(accuracy, n, m), CellIndices(accuracy, n, m));
    }
  }

  /** `Sphere::new`, without the trigonometry of the vertex positions. */
  method NewSphere(radius: real, center: Vec3, color: Vec3, accuracy: nat) returns (sphere: SphereMesh)
    ensures sphere.radius == radius && sphere.center == center
    ensures sphere.color == color && sphere.accuracy == accuracy
    ensures sphere.vertices == GridVertices(accuracy, accuracy)
    ensures sphere.indices == GridIndices(accuracy, accuracy)
  {
    var vertices := [];
    var indices := [];
    for n := 0 to accuracy
      invariant vertices == GridVertices(accuracy, n)
      invariant indices == GridIndices(accuracy, n)
    {
      vertices, indices := PushSphereRow(accuracy, n, vertices, indices);
    }
    sphere := SphereMesh(radius, center, color, accuracy, vertices, indices);
  }

  /** Appending a cell to the row being built extends the grid so far. */
  lemma GrowRow<T>(grid: seq<T>, row: seq<T>, cell: seq<T>)
    ensures (grid + row) + cell == grid + (row + cell)
  {
  }

  lemma {:induction false} GridSizes(accuracy: nat, n: nat)
    ensures |GridVertices(accuracy, n)| == 4 * accuracy * n
    ensures |GridIndices(accuracy, n)| == 6 * accuracy * n
  {
    if n > 0 {
      GridSizes(accuracy, n - 1);
      assert 4 * accuracy * n == 4 * accuracy * (n - 1) + 4 * accuracy;
      assert 6 * accuracy * n == 6 * accuracy * (n - 1) + 6 * accuracy;
    }
  }

  /** A sphere has `4 · accuracy²` vertices and `6 · accuracy²` indices. */
  lemma SphereSizes(accuracy: nat)
    ensures |GridVertices(accuracy, accuracy)| == 4 * accuracy * accuracy
    ensures |GridIndices(accuracy, accuracy)| == 6 * accuracy * accuracy
  {
    GridSizes(accuracy, accuracy);
  }

  /** A slice inside the front of a concatenation. */
  lemma SliceOfFront<T>(front: seq<T>, back: seq<T>, k: nat, w: nat)
    requires k + w <= |front|
    ensures (front + back)[k..k + w] == front[k..k + w]
  {
  }

  /** A prefix of the front is a prefix of the concatenation. */
  lemma PrefixOfFront<T>(p: seq<T>, front: seq<T>, back: seq<T>)
    requires |p| <= |front| && front[..|p|] == p
    ensures |p| <= |front + back| && (front + back)[..|p|] == p
  {
    assert (front + back)[..|p|] == front[..|p|];
  }

  /** Within row `n`, cell `c` occupies vertices `4c .. 4c + 3`. */
  lemma {:induction false} RowVertexLayout(n: nat, m: nat, c: nat)
    requires c < m
    ensures RowVertices(n, m)[4 * c..4 * c + 4] == CellVertices(n, c)
  {
    if c < m - 1 {
      RowVertexLayout(n, m - 1, c);
      SliceOfFront(RowVertices(n, m - 1), CellVertices(n, m - 1), 4 * c, 4);
    }
  }

  /** Within row `n`, cell `c` occupies indices `6c .. 6c + 5`. */
  lemma {:induction false} RowIndexLayout(accuracy: nat, n: nat, m: nat, c: nat)
    requires c < m
    ensures RowIndices(accuracy, n, m)[6 * c..6 * c + 6] == CellIndices(accuracy, n, c)
  {
    if c < m - 1 {
      RowIndexLayout(accuracy, n, m - 1, c);
      SliceOfFront(RowIndices(accuracy, n, m - 1), CellIndices(accuracy, n, m - 1), 6 * c, 6);
    }
  }

  /** The vertices of the first `n` rows are a prefix of those of the first `rows` rows. */
  lemma {:induction false} GridVertexPrefix(accuracy: nat, n: nat, rows: nat)
    requires n <= rows
    ensures |GridVertices(accuracy, n)| <= |GridVertices(accuracy, rows)|
    ensures GridVertices(accuracy, rows)[..|GridVertices(accuracy, n)|] == GridVertices(accuracy, n)
  {
    if n < rows {
      GridVertexPrefix(accuracy, n, rows - 1);
      PrefixOfFront(GridVertices(accuracy, n), GridVertices(accuracy, rows - 1), RowVertices(rows - 1, accuracy));
    }
  }

  /** The indices of the first `n` rows are a prefix of those of the first `rows` rows. */
  lemma {:induction false} GridIndexPrefix(accuracy: nat, n: nat, rows: nat)
    requires n <= rows
    ensures |GridIndices(accuracy, n)| <= |GridIndices(accuracy, rows)|
    ensures GridIndices(accuracy, rows)[..|GridIndices(accuracy, n)|] == GridIndices(accuracy, n)
  {
    if n < rows {
      GridIndexPrefix(accuracy, n, rows - 1);
      PrefixOfFront(GridIndices(accuracy, n), GridIndices(accuracy, rows - 1), RowIndices(accuracy, rows - 1, accuracy));
    }
  }

  lemma CellOffsets(accuracy: nat, n: nat, m: nat)
    ensures 4 * (accuracy * n + m) == 4 * accuracy * n + 4 * m
    ensures 6 * (accuracy * n + m) == 6 * accuracy * n + 6 * m
  {
  }

  /** In cell `(n, m)`, with `base = 4 · (accuracy · n + m)`, the four
      vertices of the sphere at `base .. base + 3` are the cell's corners. */
  lemma CellVertexLayout(accuracy: nat, n: nat, m: nat)
    requires n < accuracy && m < accuracy
    ensures 4 * (accuracy * n + m) + 4 <= |GridVertices(accuracy, accuracy)|
    ensures GridVertices(accuracy, accuracy)[4 * (accuracy * n + m)..4 * (accuracy * n + m) + 4] == CellVertices(n, m)
  {
    GridVertexPrefix(accuracy, n + 1, accuracy);
    RowVertexLayout(n, accuracy, m);
    VertexBase(accuracy, n, m);
    SliceOfPrefix(GridVertices(accuracy, accuracy), GridVertices(accuracy, n), RowVertices(n, accuracy),
                  4 * m, 4, CellVertices(n, m), 4 * (accuracy * n + m));
  }

  /** From position `6 · (accuracy · n + m)` the sphere's indices are the six
      of cell `(n, m)`: `base`, `base + 1`, `base + 2`, `base + 3`,
      `base + 2`, `base + 1` with `base = 4 · (accuracy · n + m)`, each kept
      to 16 bits. */
  lemma CellIndexLayout(accuracy: nat, n: nat, m: nat)
    requires n < accuracy && m < accuracy
    ensures 6 * (accuracy * n + m) + 6 <= |GridIndices(accuracy, accuracy)|
    ensures GridIndices(accuracy, accuracy)[6 * (accuracy * n + m)..6 * (accuracy * n + m) + 6] == CellIndices(accuracy, n, m)
  {
    GridIndexPrefix(accuracy, n + 1, accuracy);
    RowIndexLayout(accuracy, n, accuracy, m);
    IndexBase(accuracy, n, m);
    SliceOfPrefix(GridIndices(accuracy, accuracy), GridIndices(accuracy, n), RowIndices(accuracy, n, accuracy),
                  6 * m, 6, CellIndices(accuracy, n, m), 6 * (accuracy * n + m));
  }

  /** A slice of the second part of a prefix, located in the whole. */
  lemma SliceOfPrefix<T>(whole: seq<T>, front: seq<T>, row: seq<T>, k: nat, w: nat, cell: seq<T>, base: nat)
    requires |front| + |row| <= |whole| && whole[..|front| + |row|] == front + row
    requires k + w <= |row| && row[k..k + w] == cell
    requires base == |front| + k
    ensures base + w <= |whole|
    ensures whole[base..base + w] == cell
  {
    var pre := whole[..|front| + |row|];
    forall j | 0 <= j < w
      ensures whole[base..base + w][j] == cell[j]
    {
      assert whole[base + j] == pre[base + j];
      assert pre[base + j] == row[k + j];
    }
  }

  /** Where cell `(n, m)`'s vertices start: after the `n` full rows before it. */
  lemma VertexBase(accuracy: nat, n: nat, m: nat)
    ensures 4 * (accuracy * n + m) == |GridVertices(accuracy, n)| + 4 * m
  {
    GridSizes(accuracy, n);
    CellOffsets(accuracy, n, m);
  }

  /** Where cell `(n, m)`'s indices start: after the `n` full rows before it. */
  lemma IndexBase(accuracy: nat, n: nat, m: nat)
    ensures 6 * (accuracy * n + m) == |GridIndices(accuracy, n)| + 6 * m
  {
    GridSizes(accuracy, n);
    CellOffsets(accuracy, n, m);
  }

  /** An element of a concatenation is in one of its parts. */
  lemma InConcat<T>(x: T, a: seq<T>, b: seq<T>)
    requires x in a + b
    ensures x in a || x in b
  {
    var k :| 0 <= k < |a + b| && (a + b)[k] == x;
    if k >= |a| {
      assert b[k - |a|] == x;
    }
  }


  lemma MulMonotone(k: nat, a: nat, b: nat)
    requires a <= b
    ensures k * a <= k * b
  {
  }

  /** Every index of a cell is below `4 · accuracy²`, so it names a vertex of
      the sphere as long as `4 · accuracy² <= 65536`, where no index wraps. */
  lemma CellIndicesInRange(accuracy: nat, n: nat, m: nat)
    requires n < accuracy && m < accuracy
    requires 4 * accuracy * accuracy <= U16Bound
    ensures forall x :: x in CellIndices(accuracy, n, m) ==> x < 4 * accuracy * accuracy
  {
    var base := 4 * (accuracy * n + m);
    assert accuracy * n + m <= accuracy * (accuracy - 1) + (accuracy - 1) by {
      MulMonotone(accuracy, n, accuracy - 1);
    }
    assert accuracy * (accuracy - 1) + (accuracy - 1) == accuracy * accuracy - 1;
    assert base + 3 < 4 * accuracy * accuracy;
  }

  /** The whole sphere: every index names one of its vertices, when
      `4 · accuracy² <= 65536`. */
  lemma {:induction false} SphereIndicesInRange(accuracy: nat)
    requires 4 * accuracy * accuracy <= U16Bound
    ensures forall x :: x in GridIndices(accuracy, accuracy) ==> x < |GridVertices(accuracy, accuracy)|
  {
    SphereSizes(accuracy);
    forall x | x in GridIndices(accuracy, accuracy)
      ensures x < 4 * accuracy * accuracy
    {
      var n, m := IndexCell(accuracy, accuracy, x);
      CellIndicesInRange(accuracy, n, m);
    }
  }

  /** Each index of the first `rows` rows comes from some cell. */
  lemma {:induction false} IndexCell(accuracy: nat, rows: nat, x: nat) returns (n: nat, m: nat)
    requires x in GridIndices(accuracy, rows)
    ensures n < rows && m < accuracy && x in CellIndices(accuracy, n, m)
  {
    InConcat(x, GridIndices(accuracy, rows - 1), RowIndices(accuracy, rows - 1, accuracy));
    if x in GridIndices(accuracy, rows - 1) {
      n, m := IndexCell(accuracy, rows - 1, x);
    } else {
      n := rows - 1;
      m := RowIndexCell(accuracy, rows - 1, accuracy, x);
    }
  }

  lemma {:induction false} RowIndexCell(accuracy: nat, n: nat, cells: nat, x: nat) returns (m: nat)
    requires x in RowIndices(accuracy, n, cells)
    ensures m < cells && x in CellIndices(accuracy, n, m)
  {
    InConcat(x, RowIndices(accuracy, n, cells - 1), CellIndices(accuracy, n, cells - 1));
    if x in RowIndices(accuracy, n, cells - 1) {
      m := RowIndexCell(accuracy, n, cells - 1, x);
    } else {
      m := cells - 1;
    }
  }

  // ---------------------------------------------------------------------
  // Pentagon

  datatype PentagonMesh = PentagonMesh(vertices: seq<Vertex>, indices: seq<nat>)

  /** `Pentagon::default`: five corners A .. E in the plane z = 0. */
  function DefaultPentagon(): (p: PentagonMesh)
  {
    var normal := Vec3(0.0, 0.0, 1.0);
    var color := Vec3(0.5, 0.0, 0.5);
    PentagonMesh(
      [Vertex(Vec3(-0.0868241, 0.49240386, 0.0), normal, color),
       Vertex(Vec3(-0.49513406, 0.06958647, 0.0), normal, color),
       Vertex(Vec3(-0.21918549, -0.44939706, 0.0), normal, color),
       Vertex(Vec3(0.35966998, -0.3473291, 0.0), normal, color),
       Vertex(Vec3(0.44147372, 0.2347359, 0.0), normal, color)],
      [0, 1, 4, 1, 2, 4, 2, 3, 4])
  }

  /** Five vertices and three triangles, each naming a vertex and each using
      vertex 4 (E) as its last corner: a fan around E. */
  lemma PentagonShape()
    ensures |DefaultPentagon().vertices| == 5 && |DefaultPentagon().indices| == 9
    ensures forall k :: 0 <= k < 9 ==> DefaultPentagon().indices[k] < 5
    ensures forall t :: 0 <= t < 3 ==> DefaultPentagon().indices[3 * t + 2] == 4
    ensures forall k :: 0 <= k < 5 ==> DefaultPentagon().vertices[k].position.z == 0.0
  {
  }
}
