/** Option and Result, for the undefined values and thrown errors of the source. */
module Wrappers {
  datatype Option<+T> = None | Some(value: T)

  datatype Result<+T, +E> = Ok(value: T) | Err(error: E)
}

/** The JavaScript and lodash array helpers the core relies on. */
module Lists {

  /** `Array.prototype.indexOf`: the first position of `x` in `s`, or -1. */
  function IndexOf<T(==)>(s: seq<T>, x: T): (r: int)
    ensures -1 <= r < |s|
    ensures r == -1 <==> x !in s
    ensures 0 <= r ==> s[r] == x && x !in s[..r]
  {
    if |s| == 0 then -1
    else if s[0] == x then 0
    else
      var k := IndexOf(s[1..], x);
      if k == -1 then -1
      else
        assert s[..k + 1] == [s[0]] + s[1..][..k];
        k + 1
  }

  /** lodash `range(lo, hi)`: the consecutive naturals from `lo` up to, but not including, `hi`. */
  function Range(lo: nat, hi: nat): (r: seq<nat>)
    requires lo <= hi
    ensures |r| == hi - lo
    ensures forall x :: x in r <==> lo <= x < hi
    ensures forall i, j :: 0 <= i < j < |r| ==> r[i] < r[j]
  {
    var r := seq(hi - lo, i requires 0 <= i < hi - lo => lo + i);
    assert forall x {:trigger x in r} :: lo <= x < hi ==> r[x - lo] == x;
    r
  }

  /** lodash `uniq`: the first occurrence of each element, in order. */
  function Uniq<T(==,!new)>(s: seq<T>): (r: seq<T>)
    ensures forall x :: x in r <==> x in s
    ensures forall i, j :: 0 <= i < j < |r| ==> r[i] != r[j]
    ensures forall i, j :: 0 <= i < j < |r| ==> IndexOf(s, r[i]) < IndexOf(s, r[j])
  {
    if |s| == 0 then []
    else
      var n := |s| - 1;
      var init := Uniq(s[..n]);
      assert forall x :: x in s <==> x in s[..n] || x == s[n];
      assert forall i :: 0 <= i < |init| ==> IndexOf(s, init[i]) == IndexOf(s[..n], init[i]) < n by {
        forall i | 0 <= i < |init| ensures IndexOf(s, init[i]) == IndexOf(s[..n], init[i]) < n {
          IndexOfPrefix(s, init[i], n);
        }
      }
      if s[n] in init then init
      else
        assert IndexOf(s, s[n]) == n by {
          IndexOfPrefix(s, s[n], |s|);
          assert s[..n] == s[..|s|][..n];
        }
        init + [s[n]]
  }

  /** An element of a prefix has the same first position in the whole sequence. */
  lemma IndexOfPrefix<T>(s: seq<T>, x: T, m: nat)
    requires m <= |s| && x in s
    ensures x in s[..m] ==> IndexOf(s, x) == IndexOf(s[..m], x)
    ensures x !in s[..m] ==> IndexOf(s, x) >= m
  {
    var a := IndexOf(s, x);
    assert s[a] == x;
    forall k | 0 <= k < a ensures s[k] != x {
      assert s[..a][k] == s[k];
    }
    if x in s[..m] {
      var b := IndexOf(s[..m], x);
      assert s[b] == s[..m][b] == x;
      forall k | 0 <= k < b ensures s[k] != x {
        assert s[..m][..b][k] == s[k];
      }
    } else {
      forall k | 0 <= k < m ensures s[k] != x {
        assert s[..m][k] == s[k];
      }
    }
  }

  /** The `replace` helper of util.js: the element at `i` replaced by `a` and then `b`. */
  function Replace<T>(s: seq<T>, i: nat, a: T, b: T): (r: seq<T>)
    requires i < |s|
    ensures |r| == |s| + 1
    ensures r[i] == a && r[i + 1] == b
  {
    s[..i] + [a, b] + s[i + 1..]
  }

  /** Every element other than the replaced one survives a `Replace`. */
  lemma ReplaceKeeps<T>(s: seq<T>, i: nat, a: T, b: T, u: T)
    requires i < |s| && u in s && u != s[i]
    ensures u in Replace(s, i, a, b)
  {
    var j :| 0 <= j < |s| && s[j] == u;
    if j < i {
      assert Replace(s, i, a, b)[j] == u;
    } else {
      assert Replace(s, i, a, b)[j + 1] == u;
    }
  }

  /** The elements of `Replace(s, i, a, b)` are those of `s` except possibly `s[i]`, plus `a` and `b`. */
  lemma ReplaceElements<T>(s: seq<T>, i: nat, a: T, b: T, u: T)
    requires i < |s| && u in Replace(s, i, a, b)
    ensures u == a || u == b || u in s
  {
    var r := Replace(s, i, a, b);
    var j :| 0 <= j < |r| && r[j] == u;
    if j < i {
      assert r[j] == s[j];
    } else if j > i + 1 {
      assert r[j] == s[j - 1];
    }
  }

  /**
   * lodash `pullAt` on a copy of `s`: the elements at the positions in `drop`
   * removed. Positions at or beyond the end remove nothing.
   */
  function Without<T>(s: seq<T>, drop: set<nat>): seq<T>
  {
    if |s| == 0 then []
    else Without(s[..|s| - 1], drop) + (if |s| - 1 in drop then [] else [s[|s| - 1]])
  }

  /** The positions below `n` that `Without` keeps, in increasing order. */
  function Kept(n: nat, drop: set<nat>): seq<nat>
  {
    if n == 0 then []
    else Kept(n - 1, drop) + (if n - 1 in drop then [] else [n - 1])
  }

  /** `Kept(n, drop)` lists, in strictly increasing order, exactly the positions below `n` not in `drop`. */
  lemma {:induction false} KeptExactly(n: nat, drop: set<nat>)
    ensures forall j :: 0 <= j < |Kept(n, drop)| ==> Kept(n, drop)[j] < n && Kept(n, drop)[j] !in drop
    ensures forall i :: 0 <= i < n && i !in drop ==> i in Kept(n, drop)
    ensures forall a, b :: 0 <= a < b < |Kept(n, drop)| ==> Kept(n, drop)[a] < Kept(n, drop)[b]
  {
    if n > 0 {
      KeptExactly(n - 1, drop);
    }
  }

  /**
   * `Without(s, drop)` is `s` read at the kept positions: the removal keeps
   * the remaining elements in their original relative order.
   */
  lemma {:induction false} WithoutKeepsOrder<T>(s: seq<T>, drop: set<nat>)
    ensures |Without(s, drop)| == |Kept(|s|, drop)|
    ensures forall j :: 0 <= j < |Without(s, drop)| ==>
      Kept(|s|, drop)[j] < |s| && Without(s, drop)[j] == s[Kept(|s|, drop)[j]]
  {
    KeptExactly(|s|, drop);
    if |s| > 0 {
      var init := s[..|s| - 1];
      WithoutKeepsOrder(init, drop);
      KeptExactly(|init|, drop);
      forall j | 0 <= j < |Without(s, drop)|
        ensures Kept(|s|, drop)[j] < |s| && Without(s, drop)[j] == s[Kept(|s|, drop)[j]]
      {
        if j < |Without(init, drop)| {
          assert Without(s, drop)[j] == Without(init, drop)[j];
          assert Kept(|s|, drop)[j] == Kept(|init|, drop)[j];
        }
      }
    }
  }

  /** The positions below `n` that `drop` names. */
  function DroppedBelow(n: nat, drop: set<nat>): set<nat>
  {
    set i | 0 <= i < n && i in drop
  }

  /** `Without` removes exactly one element per named position that exists. */
  lemma {:induction false} WithoutLength<T>(s: seq<T>, drop: set<nat>)
    ensures |Without(s, drop)| + |DroppedBelow(|s|, drop)| == |s|
  {
    if |s| > 0 {
      var n := |s| - 1;
      WithoutLength(s[..n], drop);
      if n in drop {
        assert DroppedBelow(|s|, drop) == DroppedBelow(n, drop) + {n};
      } else {
        assert DroppedBelow(|s|, drop) == DroppedBelow(n, drop);
      }
    }
  }

  /** `Without` looks at `drop` only below the length of `s`. */
  lemma {:induction false} WithoutAgrees<T>(s: seq<T>, d: set<nat>, e: set<nat>)
    requires forall i :: 0 <= i < |s| ==> (i in d <==> i in e)
    ensures Without(s, d) == Without(s, e)
  {
    if |s| > 0 {
      WithoutAgrees(s[..|s| - 1], d, e);
    }
  }
}

/** Vertices, faces and the immutable polyhedron value they form. */
module Mesh {
  import opened Wrappers

  /** A 3D position. The model never computes with coordinates; they are opaque values. */
  datatype Point = Point(x: real, y: real, z: real)

  /** An index into a polyhedron's vertex table. */
  type VIndex = nat

  /** A face as stored: its vertex indices in cyclic (winding) order. */
  type FaceData = seq<VIndex>

  /** An edge, as an ordered pair of vertex indices. */
  datatype Edge = Edge(a: VIndex, b: VIndex)

  /** A vertex object: its index in the vertex table and its position. */
  datatype Vertex = Vertex(index: nat, value: Point)

  /** A face object: its index in the face table and its vertex indices. */
  datatype Face = Face(index: nat, value: FaceData)
  {
    function NumSides(): nat { |value| }
  }

  /** The tables of a solid; `edges` is a cache that may be absent. */
  datatype SolidData = SolidData(vertices: seq<Point>, faces: seq<FaceData>, edges: Option<seq<Edge>>)

  /** An immutable polyhedron. */
  datatype Polyhedron = Polyhedron(solidData: SolidData)
  {
    function NumVertices(): nat { |solidData.vertices| }

    function NumFaces(): nat { |solidData.faces| }

    /** The vertex objects, in index order. */
    function Vertices(): (vs: seq<Vertex>)
      ensures |vs| == NumVertices()
      ensures forall i :: 0 <= i < |vs| ==> vs[i] == Vertex(i, solidData.vertices[i])
    {
      seq(|solidData.vertices|, i requires 0 <= i < |solidData.vertices| => Vertex(i, solidData.vertices[i]))
    }

    /** The face objects, in index order. */
    function Faces(): (fs: seq<Face>)
      ensures |fs| == NumFaces()
      ensures forall i :: 0 <= i < |fs| ==> fs[i] == Face(i, solidData.faces[i])
    {
      seq(|solidData.faces|, i requires 0 <= i < |solidData.faces| => Face(i, solidData.faces[i]))
    }
  }

  /** `Polyhedron.of(vertices, faces)`: a polyhedron without a cached edge table. */
  function Of(vertices: seq<Point>, faces: seq<FaceData>): Polyhedron
  {
    Polyhedron(SolidData(vertices, faces, None))
  }

  /** Every face refers only to vertex indices below `n`. */
  ghost predicate FacesInRange(faces: seq<FaceData>, n: nat)
  {
    forall f, k :: 0 <= f < |faces| && 0 <= k < |faces[f]| ==> faces[f][k] < n
  }

  /** The index invariant of a polyhedron: every face refers only to existing vertices. */
  ghost predicate Valid(p: Polyhedron)
  {
    FacesInRange(p.solidData.faces, |p.solidData.vertices|)
  }
}
