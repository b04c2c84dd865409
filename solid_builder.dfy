/**
 * The solid builder: a staged accumulator that starts from a snapshot of a
 * polyhedron's vertex and face tables, applies table-level edits, and freezes
 * the result into a new polyhedron.
 */
module SolidBuilder {
  import opened Wrappers
  import opened Lists
  import opened Mesh

  /** A vertex as callers pass it: a raw point, a vector, or a vertex object. */
  datatype VertexArg = RawPoint(point: Point) | Vector(vec: Point) | VertexObject(vertex: Vertex)

  /** One entry of a face given as a list: a vertex index or a vertex object. */
  datatype FaceItem = Index(i: VIndex) | VertexItem(vertex: Vertex)

  /** A face as callers pass it: a list of entries, or a face object. */
  datatype FaceArg = Items(items: seq<FaceItem>) | FaceObject(face: Face)

  /** `normalizeVertex`: the position a vertex argument stands for. */
  function NormalizeVertex(v: VertexArg): Point
  {
    match v
    case RawPoint(p) => p
    case Vector(p) => p
    case VertexObject(vertex) => vertex.value
  }

  /** `normalizeFace`: the vertex indices a face argument stands for. */
  function NormalizeFace(f: FaceArg): (r: FaceData)
    ensures f.Items? ==> |r| == |f.items|
    ensures f.Items? ==> forall k :: 0 <= k < |r| ==>
      r[k] == (if f.items[k].Index? then f.items[k].i else f.items[k].vertex.index)
    ensures f.FaceObject? ==> r == f.face.value
  {
    match f
    case Items(items) =>
      seq(|items|, k requires 0 <= k < |items| =>
        match items[k]
        case Index(i) => i
        case VertexItem(vertex) => vertex.index)
    case FaceObject(face) => face.value
  }

  function NormalizeVertices(vs: seq<VertexArg>): seq<Point>
  {
    seq(|vs|, k requires 0 <= k < |vs| => NormalizeVertex(vs[k]))
  }

  function NormalizeFaces(fs: seq<FaceArg>): seq<FaceData>
  {
    seq(|fs|, k requires 0 <= k < |fs| => NormalizeFace(fs[k]))
  }

  /** A stored face passed back in as a plain list of indices. */
  function AsFaceArg(f: FaceData): FaceArg
  {
    Items(seq(|f|, k requires 0 <= k < |f| => Index(f[k])))
  }

  /** Normalizing a face given as its own index list gives the face back. */
  lemma NormalizeFaceRoundTrip(f: FaceData)
    ensures NormalizeFace(AsFaceArg(f)) == f
  {
  }

  /** Normalizing the vertex objects of a polyhedron gives back its vertex table. */
  lemma NormalizeVerticesRoundTrip(p: Polyhedron)
    ensures NormalizeVertices(VertexObjects(p)) == p.solidData.vertices
  {
    var objs := VertexObjects(p);
    forall k | 0 <= k < |objs| ensures NormalizeVertex(objs[k]) == p.solidData.vertices[k] {
      assert objs[k] == VertexObject(p.Vertices()[k]);
    }
  }

  /** The vertex objects of a polyhedron, as vertex arguments. */
  function VertexObjects(p: Polyhedron): seq<VertexArg>
  {
    seq(p.NumVertices(), k requires 0 <= k < p.NumVertices() => VertexObject(p.Vertices()[k]))
  }

  /** The faces of `other` with every vertex index moved up by `offset`. */
  function Shifted(faces: seq<FaceData>, offset: nat): seq<FaceData>
  {
    seq(|faces|, f requires 0 <= f < |faces| =>
      seq(|faces[f]|, k requires 0 <= k < |faces[f]| => faces[f][k] + offset))
  }

  /** Appending shifted faces keeps every index in range of the appended vertex table. */
  lemma ShiftedInRange(faces: seq<FaceData>, n: nat, other: seq<FaceData>, m: nat)
    requires FacesInRange(faces, n) && FacesInRange(other, m)
    ensures FacesInRange(faces + Shifted(other, n), n + m)
  {
    var all := faces + Shifted(other, n);
    forall f, k | 0 <= f < |all| && 0 <= k < |all[f]| ensures all[f][k] < n + m {
      if f >= |faces| {
        assert all[f][k] == other[f - |faces|][k] + n;
      }
    }
  }

  /** The indices of the given face objects. */
  function FaceIndices(fs: seq<Face>): set<nat>
  {
    set f | f in fs :: f.index
  }

  /**
   * The builder. `polyhedron` is the solid it was constructed from; the three
   * mutable fields are the copied `solidData` that every edit reassigns.
   */
  class Builder {
    const polyhedron: Polyhedron
    var vertices: seq<Point>
    var faces: seq<FaceData>
    var edges: Option<seq<Edge>>

    /** The accumulated tables. */
    function Data(): SolidData
      reads this
    {
      SolidData(vertices, faces, edges)
    }

    /** Starts from a copy of the polyhedron's tables. */
    constructor (polyhedron: Polyhedron)
      ensures this.polyhedron == polyhedron
      ensures Data() == polyhedron.solidData
    {
      this.polyhedron := polyhedron;
      vertices := polyhedron.solidData.vertices;
      faces := polyhedron.solidData.faces;
      edges := polyhedron.solidData.edges;
    }

    /** Freezes the accumulated tables into a polyhedron. */
    method Build() returns (p: Polyhedron)
      ensures p.solidData == Data()
    {
      p := Polyhedron(Data());
    }

    /** Replaces the vertex table; faces and the edge cache are left alone. */
    method WithVertices(vs: seq<VertexArg>) returns (self: Builder)
      modifies this
      ensures self == this
      ensures vertices == NormalizeVertices(vs)
      ensures faces == old(faces) && edges == old(edges)
    {
      vertices := NormalizeVertices(vs);
      self := this;
    }

    /** Replaces the face table and discards the edge cache. */
    method WithFaces(fs: seq<FaceArg>) returns (self: Builder)
      modifies this
      ensures self == this
      ensures faces == NormalizeFaces(fs)
      ensures edges == None
      ensures vertices == old(vertices)
    {
      faces := NormalizeFaces(fs);
      edges := None;
      self := this;
    }

    /** Appends vertices: every existing vertex keeps its index. */
    method AddVertices(vs: seq<VertexArg>) returns (self: Builder)
      modifies this
      ensures self == this
      ensures vertices == old(vertices) + NormalizeVertices(vs)
      ensures |vertices| == |old(vertices)| + |vs|
      ensures faces == old(faces) && edges == old(edges)
    {
      var vs0 := vertices;
      var current := seq(|vs0|, k requires 0 <= k < |vs0| => RawPoint(vs0[k]));
      assert NormalizeVertices(current + vs) == vs0 + NormalizeVertices(vs);
      self := WithVertices(current + vs);
    }

    /** Appends faces: every existing face keeps its index; the edge cache is discarded. */
    method AddFaces(fs: seq<FaceArg>) returns (self: Builder)
      modifies this
      ensures self == this
      ensures faces == old(faces) + NormalizeFaces(fs)
      ensures |faces| == |old(faces)| + |fs|
      ensures edges == None
      ensures vertices == old(vertices)
    {
      var fs0 := faces;
      var current := seq(|fs0|, k requires 0 <= k < |fs0| => AsFaceArg(fs0[k]));
      forall k | 0 <= k < |fs0| ensures NormalizeFace(current[k]) == fs0[k] {
        NormalizeFaceRoundTrip(fs0[k]);
      }
      assert NormalizeFaces(current + fs) == fs0 + NormalizeFaces(fs);
      self := WithFaces(current + fs);
    }

    /** Maps the vertices of the *original* polyhedron, one result per original vertex. */
    method MapVertices(iteratee: Vertex -> VertexArg) returns (self: Builder)
      modifies this
      ensures self == this
      ensures |vertices| == polyhedron.NumVertices()
      ensures forall k :: 0 <= k < |vertices| ==>
        vertices[k] == NormalizeVertex(iteratee(Vertex(k, polyhedron.solidData.vertices[k])))
      ensures faces == old(faces) && edges == old(edges)
    {
      var vs := polyhedron.Vertices();
      self := WithVertices(seq(|vs|, k requires 0 <= k < |vs| => iteratee(vs[k])));
    }

    /** Maps the faces of the *original* polyhedron, one result per original face. */
    method MapFaces(iteratee: Face -> FaceArg) returns (self: Builder)
      modifies this
      ensures self == this
      ensures |faces| == polyhedron.NumFaces()
      ensures forall k :: 0 <= k < |faces| ==>
        faces[k] == NormalizeFace(iteratee(Face(k, polyhedron.solidData.faces[k])))
      ensures edges == None
      ensures vertices == old(vertices)
    {
      var fs := polyhedron.Faces();
      self := WithFaces(seq(|fs|, k requires 0 <= k < |fs| => iteratee(fs[k])));
    }

    /** Removes the faces at the given faces' indices and discards the edge cache. */
    method WithoutFaces(fs: seq<Face>) returns (self: Builder)
      modifies this
      ensures self == this
      ensures faces == Without(old(faces), FaceIndices(fs))
      ensures edges == None
      ensures vertices == old(vertices)
    {
      var removed := Without(faces, FaceIndices(fs));
      var args := seq(|removed|, k requires 0 <= k < |removed| => AsFaceArg(removed[k]));
      forall k | 0 <= k < |removed| ensures NormalizeFace(args[k]) == removed[k] {
        NormalizeFaceRoundTrip(removed[k]);
      }
      self := WithFaces(args);
    }

    /**
     * Merges `other`: its vertices are appended, and its faces are appended
     * with every index moved up by the vertex count of the polyhedron this
     * builder was constructed from.
     */
    method AddPolyhedron(other: Polyhedron) returns (self: Builder)
      modifies this
      ensures self == this
      ensures vertices == old(vertices) + other.solidData.vertices
      ensures faces == old(faces) + Shifted(other.solidData.faces, polyhedron.NumVertices())
      ensures edges == None
      ensures |old(vertices)| == polyhedron.NumVertices() && FacesInRange(old(faces), |old(vertices)|) && Valid(other)
        ==> FacesInRange(faces, |vertices|)
    {
      NormalizeVerticesRoundTrip(other);
      self := AddVertices(VertexObjects(other));
      var shifted := Shifted(other.solidData.faces, polyhedron.NumVertices());
      var args := seq(|shifted|, k requires 0 <= k < |shifted| => AsFaceArg(shifted[k]));
      forall k | 0 <= k < |shifted| ensures NormalizeFace(args[k]) == shifted[k] {
        NormalizeFaceRoundTrip(shifted[k]);
      }
      assert NormalizeFaces(args) == shifted;
      self := AddFaces(args);
      if |old(vertices)| == polyhedron.NumVertices() && FacesInRange(old(faces), |old(vertices)|) && Valid(other) {
        ShiftedInRange(old(faces), |old(vertices)|, other.solidData.faces, other.NumVertices());
      }
    }
  }
}
