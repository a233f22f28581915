/** The index arithmetic of the GLB asset generator: the terrain's vertex grid and its
    triangle list, and the list of files an asset pack announces in its manifest.
    Heights, textures, materials and the mesh export are not part of this model. */
module AssetGenerator {

  /** A triangle of a mesh, as three indices into its vertex list. */
  datatype Face = Face(a: int, b: int, c: int)

  /** The terrain vertex laid out at row i, column j of the height map.  Only its
      place in the grid is modelled; its coordinates are floating point. */
  datatype GridPoint = GridPoint(i: int, j: int)

  /** Where the vertex of grid point (i, j) sits in the vertex list (row-major). */
  function VertexIndex(n: nat, i: int, j: int): int
  {
    i * n + j
  }

  /** Number of quads along one side of an n-by-n vertex grid: range(n - 1) is
      empty when n is 0. */
  function QuadsPerSide(n: nat): nat
  {
    if n == 0 then 0 else n - 1
  }

  // ---------------------------------------------------------------------------
  // Vertices

  /** The first m vertices of row i. */
  function RowVertices(i: int, m: nat): (r: seq<GridPoint>)
    ensures |r| == m
  {
    if m == 0 then [] else RowVertices(i, m - 1) + [GridPoint(i, m - 1)]
  }

  /** Column j of a row is the j-th vertex appended for it. */
  lemma {:induction false} RowVertexAt(i: int, m: nat, j: int)
    requires 0 <= j < m
    ensures RowVertices(i, m)[j] == GridPoint(i, j)
  {
    if j < m - 1 {
      RowVertexAt(i, m - 1, j);
    }
  }

  /** The vertices of the first `rows` rows of an n-by-n grid. */
  function GridVertices(n: nat, rows: nat): seq<GridPoint>
  {
    if rows == 0 then [] else GridVertices(n, rows - 1) + RowVertices(rows - 1, n)
  }

  lemma {:induction false} GridVerticesLength(n: nat, rows: nat)
    ensures |GridVertices(n, rows)| == rows * n
  {
    if rows > 0 {
      GridVerticesLength(n, rows - 1);
      assert (rows - 1) * n + n == rows * n;
    }
  }

  /** Grid point (i, j) is found at index i * n + j of the vertex list. */
  lemma {:induction false} GridVertexAt(n: nat, rows: nat, i: int, j: int)
    requires 0 <= i < rows && 0 <= j < n
    ensures 0 <= VertexIndex(n, i, j) < |GridVertices(n, rows)|
    ensures GridVertices(n, rows)[VertexIndex(n, i, j)] == GridPoint(i, j)
  {
    GridVerticesLength(n, rows - 1);
    GridVerticesLength(n, rows);
    var prefix := GridVertices(n, rows - 1);
    assert GridVertices(n, rows) == prefix + RowVertices(rows - 1, n);
    if i < rows - 1 {
      GridVertexAt(n, rows - 1, i, j);
    } else {
      assert VertexIndex(n, i, j) == |prefix| + j;
      assert (rows - 1) * n + n == rows * n;
      RowVertexAt(rows - 1, n, j);
    }
  }

  /** The vertex list has one entry per grid point, in row-major order. */
  lemma GridVerticesAt(n: nat, rows: nat)
    ensures |GridVertices(n, rows)| == rows * n
    ensures forall i, j :: 0 <= i < rows && 0 <= j < n ==>
      0 <= VertexIndex(n, i, j) < |GridVertices(n, rows)| && GridVertices(n, rows)[VertexIndex(n, i, j)] == GridPoint(i, j)
  {
    GridVerticesLength(n, rows);
    forall i, j | 0 <= i < rows && 0 <= j < n
      ensures 0 <= VertexIndex(n, i, j) < |GridVertices(n, rows)|
      ensures GridVertices(n, rows)[VertexIndex(n, i, j)] == GridPoint(i, j)
    {
      GridVertexAt(n, rows, i, j);
    }
  }

  lemma MulMonotone(a: nat, b: nat, n: nat)
    requires a <= b
    ensures a * n <= b * n
  {
  }

  // ---------------------------------------------------------------------------
  // Faces

  /** The two triangles of the quad whose top-left vertex is grid point (i, j):
      v1 = (i, j), v2 = (i, j+1), v3 = (i+1, j), v4 = (i+1, j+1). */
  function QuadFaces(n: nat, i: int, j: int): seq<Face>
  {
    var v1 := i * n + j;
    var v2 := v1 + 1;
    var v3 := (i + 1) * n + j;
    var v4 := v3 + 1;
    [Face(v1, v3, v2), Face(v2, v3, v4)]
  }

  /** The triangles of the first m quads of quad row i. */
  function RowFaces(n: nat, i: int, m: nat): (r: seq<Face>)
    ensures |r| == 2 * m
  {
    if m == 0 then [] else RowFaces(n, i, m - 1) + QuadFaces(n, i, m - 1)
  }

  /** The triangles of the first `rows` quad rows of an n-by-n grid. */
  function GridFaces(n: nat, rows: nat): seq<Face>
  {
    if rows == 0 then [] else GridFaces(n, rows - 1) + RowFaces(n, rows - 1, QuadsPerSide(n))
  }

  /** The triangle list of an n-by-n terrain. */
  function TerrainFaces(n: nat): seq<Face>
  {
    GridFaces(n, QuadsPerSide(n))
  }

  predicate FaceWithin(f: Face, count: int)
  {
    0 <= f.a < count && 0 <= f.b < count && 0 <= f.c < count
  }

  /** The corners of a quad are the grid points (i, j), (i, j+1), (i+1, j) and
      (i+1, j+1); the two triangles share the edge v2-v3, list each of the four
      corners, and never repeat a vertex. */
  lemma QuadShape(n: nat, i: int, j: int)
    requires n >= 2
    ensures var q := QuadFaces(n, i, j);
      && q[0] == Face(VertexIndex(n, i, j), VertexIndex(n, i + 1, j), VertexIndex(n, i, j + 1))
      && q[1] == Face(VertexIndex(n, i, j + 1), VertexIndex(n, i + 1, j), VertexIndex(n, i + 1, j + 1))
      && q[0].c == q[1].a && q[0].b == q[1].b
      && q[0].a != q[0].b && q[0].b != q[0].c && q[0].a != q[0].c
      && q[1].a != q[1].b && q[1].b != q[1].c && q[1].a != q[1].c
  {
    assert (i + 1) * n + j == i * n + j + n;
  }

  /** Every index of the triangles of a quad that lies inside the grid names a vertex. */
  lemma QuadWithin(n: nat, i: int, j: int)
    requires 0 <= i < QuadsPerSide(n) && 0 <= j < QuadsPerSide(n)
    ensures FaceWithin(QuadFaces(n, i, j)[0], n * n) && FaceWithin(QuadFaces(n, i, j)[1], n * n)
  {
    MulMonotone(i + 1, n - 1, n);
    assert (i + 1) * n + j + 1 <= (n - 1) * n + n - 1;
    assert (n - 1) * n + n == n * n;
  }

  /** The terrain has exactly 2 * (n-1)^2 triangles (none when n is 0). */
  lemma {:induction false} GridFacesCount(n: nat, rows: nat)
    ensures |GridFaces(n, rows)| == 2 * rows * QuadsPerSide(n)
  {
    if rows > 0 {
      GridFacesCount(n, rows - 1);
      assert 2 * (rows - 1) * QuadsPerSide(n) + 2 * QuadsPerSide(n) == 2 * rows * QuadsPerSide(n);
    }
  }

  /** Every index of every triangle of the first m quads of an inner quad row lies in [0, n*n). */
  lemma {:induction false} RowFacesWithin(n: nat, i: int, m: nat)
    requires 0 <= i < QuadsPerSide(n) && m <= QuadsPerSide(n)
    ensures forall k :: 0 <= k < |RowFaces(n, i, m)| ==> FaceWithin(RowFaces(n, i, m)[k], n * n)
  {
    if m > 0 {
      RowFacesWithin(n, i, m - 1);
      QuadWithin(n, i, m - 1);
    }
  }

  /** Every index of every triangle of the first `rows` quad rows lies in [0, n*n). */
  lemma {:induction false} GridFacesWithin(n: nat, rows: nat)
    requires rows <= QuadsPerSide(n)
    ensures forall k :: 0 <= k < |GridFaces(n, rows)| ==> FaceWithin(GridFaces(n, rows)[k], n * n)
  {
    if rows > 0 {
      GridFacesWithin(n, rows - 1);
      RowFacesWithin(n, rows - 1, QuadsPerSide(n));
    }
  }

  /** The terrain's face list: its size and the range of its indices. */
  lemma TerrainFacesShape(n: nat)
    ensures n > 0 ==> |TerrainFaces(n)| == 2 * (n - 1) * (n - 1)
    ensures n == 0 ==> TerrainFaces(n) == []
    ensures forall k :: 0 <= k < |TerrainFaces(n)| ==> FaceWithin(TerrainFaces(n)[k], n * n)
  {
    GridFacesCount(n, QuadsPerSide(n));
    GridFacesWithin(n, QuadsPerSide(n));
  }

  /** Builds the vertex grid and the triangle list of an n-by-n terrain
      (n is the number of subdivisions), appending in the order of the two
      nested loops. */
  method CreateTerrain(n: nat) returns (vertices: seq<GridPoint>, faces: seq<Face>)
    ensures |vertices| == n * n
    ensures forall i, j :: 0 <= i < n && 0 <= j < n ==>
      0 <= VertexIndex(n, i, j) < |vertices| && vertices[VertexIndex(n, i, j)] == GridPoint(i, j)
    ensures faces == TerrainFaces(n)
    ensures n > 0 ==> |faces| == 2 * (n - 1) * (n - 1)
    ensures forall k :: 0 <= k < |faces| ==> FaceWithin(faces[k], |vertices|)
  {
    vertices := TerrainVertices(n);
    faces := TerrainFaceList(n);
    GridVerticesAt(n, n);
    TerrainFacesShape(n);
  }

  /** The vertex loops: one vertex per grid point, row by row. */
  method TerrainVertices(n: nat) returns (vertices: seq<GridPoint>)
    ensures vertices == GridVertices(n, n)
  {
    vertices := [];
    var i := 0;
    while i < n
      invariant 0 <= i <= n
      invariant vertices == GridVertices(n, i)
    {
      var j := 0;
      while j < n
        invariant 0 <= j <= n
        invariant vertices == GridVertices(n, i) + RowVertices(i, j)
      {
        vertices := vertices + [GridPoint(i, j)];
        assert vertices == GridVertices(n, i) + RowVertices(i, j + 1);
        j := j + 1;
      }
      i := i + 1;
    }
  }

  /** The face loops: two triangles per quad, quad row by quad row. */
  method TerrainFaceList(n: nat) returns (faces: seq<Face>)
    ensures faces == TerrainFaces(n)
  {
    faces := [];
    var i := 0;
    while i < n - 1
      invariant 0 <= i <= QuadsPerSide(n)
      invariant faces == GridFaces(n, i)
    {
      var j := 0;
      while j < n - 1
        invariant 0 <= j <= QuadsPerSide(n)
        invariant faces == GridFaces(n, i) + RowFaces(n, i, j)
      {
        var v1 := i * n + j;
        var v2 := v1 + 1;
        var v3 := (i + 1) * n + j;
        var v4 := v3 + 1;
        faces := faces + [Face(v1, v3, v2)];
        faces := faces + [Face(v2, v3, v4)];
        assert faces == GridFaces(n, i) + RowFaces(n, i, j + 1);
        j := j + 1;
      }
      i := i + 1;
    }
  }

  // ---------------------------------------------------------------------------
  // Asset pack

  /** The file name of an exported asset: every create_* method writes
      `<name>.glb` into the output directory and returns that path. */
  function AssetFile(name: string): string
  {
    name + ".glb"
  }

  /** The names the pack passes to the six generators, in generation order. */
  const PackNames: seq<string> :=
    ["cube_basic", "sphere_basic", "cylinder_basic", "terrain_hills", "tree_basic", "building_basic"]

  /** No two assets of the pack are written to the same file. */
  lemma PackFilesDistinct()
    ensures forall k, l :: 0 <= k < l < |PackNames| ==> AssetFile(PackNames[k]) != AssetFile(PackNames[l])
  {
    forall k, l | 0 <= k < l < |PackNames|
      ensures AssetFile(PackNames[k]) != AssetFile(PackNames[l])
    {
      var a, b := AssetFile(PackNames[k]), AssetFile(PackNames[l]);
      if k == 0 && l == 2 {
        assert a[1] != b[1];
      } else if k == 3 && l == 4 {
        assert a[2] != b[2];
      } else {
        assert a[0] != b[0];
      }
    }
  }

  datatype Manifest = Manifest(
    name: string,
    description: string,
    assets: seq<string>,
    format: string,
    createdWith: string)

  /** Generates the six assets in order and builds the manifest that lists them. */
  method GenerateAssetPack() returns (manifest: Manifest)
    ensures |manifest.assets| == 6
    ensures forall k :: 0 <= k < 6 ==> manifest.assets[k] == AssetFile(PackNames[k])
    ensures forall k, l :: 0 <= k < l < 6 ==> manifest.assets[k] != manifest.assets[l]
    ensures manifest.format == "GLB"
  {
    var assets: seq<string> := [];
    assets := assets + [AssetFile("cube_basic")];
    assets := assets + [AssetFile("sphere_basic")];
    assets := assets + [AssetFile("cylinder_basic")];
    assets := assets + [AssetFile("terrain_hills")];
    assets := assets + [AssetFile("tree_basic")];
    assets := assets + [AssetFile("building_basic")];
    PackFilesDistinct();
    manifest := Manifest(
      "Basic Game Asset Pack",
      "Collection of basic 3D assets for game development",
      assets,
      "GLB",
      "GLB Asset Generator");
  }
}
