/**
 * Truncation and rectification at the level of indices: every vertex is cut
 * off, each face touching it gets two new vertices in its place, and a new
 * face is made of the vertices created at that vertex.
 */
module Truncate {
  import opened Wrappers
  import opened Lists
  import opened Mesh

  /** `prevVertex`: the vertex before `v` in the cyclic order of `face`. */
  function PrevVertex(face: FaceData, v: VIndex): (r: VIndex)
    requires v in face
    ensures r in face
  {
    var i := IndexOf(face, v);
    face[if i == 0 then |face| - 1 else i - 1]
  }

  /** `nextVertex`: the vertex after `v` in the cyclic order of `face`. */
  function NextVertex(face: FaceData, v: VIndex): (r: VIndex)
    requires v in face
    ensures r in face
  {
    var i := IndexOf(face, v);
    face[if i == |face| - 1 then 0 else i + 1]
  }

  /** On a face that lists each vertex once, stepping back and forward around it are inverse. */
  lemma PrevNextInverse(face: FaceData, v: VIndex)
    requires v in face
    requires forall a, b :: 0 <= a < b < |face| ==> face[a] != face[b]
    ensures NextVertex(face, PrevVertex(face, v)) == v
    ensures PrevVertex(face, NextVertex(face, v)) == v
  {
    var i := IndexOf(face, v);
    var n := |face|;
    var p := if i == 0 then n - 1 else i - 1;
    var q := if i == n - 1 then 0 else i + 1;
    IndexOfDistinct(face, p);
    IndexOfDistinct(face, q);
  }

  /** In a sequence without repeats, the first position of `s[k]` is `k`. */
  lemma IndexOfDistinct(s: seq<VIndex>, k: nat)
    requires k < |s|
    requires forall a, b :: 0 <= a < b < |s| ==> s[a] != s[b]
    ensures IndexOf(s, s[k]) == k
  {
    var j := IndexOf(s, s[k]);
    forall a | 0 <= a < j ensures s[a] != s[k] {
      assert s[..j][a] == s[a];
    }
  }

  /** Face `f` exists and contains `v`. */
  predicate Touches(faces: seq<FaceData>, v: VIndex, f: nat)
  {
    f < |faces| && v in faces[f]
  }

  /** The faces below `n` that contain `v`, in increasing index order. */
  function AdjacentBelow(faces: seq<FaceData>, v: VIndex, n: nat): (r: seq<nat>)
    requires n <= |faces|
    ensures forall i :: 0 <= i < |r| ==> r[i] < n && Touches(faces, v, r[i])
    ensures forall f :: 0 <= f < n && Touches(faces, v, f) ==> f in r
    ensures forall a, b :: 0 <= a < b < |r| ==> r[a] < r[b]
  {
    if n == 0 then []
    else AdjacentBelow(faces, v, n - 1) + (if Touches(faces, v, n - 1) then [n - 1] else [])
  }

  /**
   * `adjacentFaceIndices(v)`: the indices of the faces that contain `v`,
   * in increasing order.
   */
  function AdjacentFaceIndices(faces: seq<FaceData>, v: VIndex): (r: seq<nat>)
    ensures forall f :: f in r <==> Touches(faces, v, f)
    ensures forall a, b :: 0 <= a < b < |r| ==> r[a] < r[b]
  {
    AdjacentBelow(faces, v, |faces|)
  }

  /** The number of faces touching `v`. */
  function Degree(faces: seq<FaceData>, v: VIndex): nat
  {
    |AdjacentFaceIndices(faces, v)|
  }

  /** Every listed face index exists and its face contains `v`. */
  ghost predicate AllTouch(faces: seq<FaceData>, v: VIndex, ts: seq<nat>)
  {
    forall i :: 0 <= i < |ts| ==> Touches(faces, v, ts[i])
  }

  /**
   * Face `g` follows face `f` around `v`: the vertex before `v` in `f` is
   * the vertex after `v` in `g`, so the two share the edge leaving `v`.
   */
  predicate Follows(faces: seq<FaceData>, v: VIndex, f: nat, g: nat)
    requires Touches(faces, v, f) && Touches(faces, v, g)
  {
    PrevVertex(faces[f], v) == NextVertex(faces[g], v)
  }

  /**
   * lodash `find(touching, checkVertex)`: the first listed face that follows
   * `cur`, or nothing.
   */
  function FindFollower(faces: seq<FaceData>, v: VIndex, ts: seq<nat>, cur: nat): (r: Option<nat>)
    requires Touches(faces, v, cur)
    requires AllTouch(faces, v, ts)
    ensures r.Some? ==> r.value in ts && Follows(faces, v, cur, r.value)
    ensures r.None? ==> forall i :: 0 <= i < |ts| ==> !Follows(faces, v, cur, ts[i])
    // the face found is the first follower in the list
    ensures r.Some? ==> exists i :: 0 <= i < |ts| && ts[i] == r.value && FirstFollowerAt(faces, v, ts, cur, i)
  {
    if |ts| == 0 then None
    else if Follows(faces, v, cur, ts[0]) then
      assert FirstFollowerAt(faces, v, ts, cur, 0);
      Some(ts[0])
    else
      var r := FindFollower(faces, v, ts[1..], cur);
      assert forall i :: 1 <= i < |ts| ==> ts[i] == ts[1..][i - 1];
      if r.Some? then
        var i :| 0 <= i < |ts[1..]| && ts[1..][i] == r.value && FirstFollowerAt(faces, v, ts[1..], cur, i);
        assert ts[i + 1] == r.value && FirstFollowerAt(faces, v, ts, cur, i + 1);
        r
      else r
  }

  /** No face listed before position `i` follows `cur`. */
  predicate FirstFollowerAt(faces: seq<FaceData>, v: VIndex, ts: seq<nat>, cur: nat, i: nat)
    requires Touches(faces, v, cur)
    requires AllTouch(faces, v, ts)
    requires i < |ts|
  {
    forall k :: 0 <= k < i ==> !Follows(faces, v, cur, ts[k])
  }

  /** Some face touching `v` follows face `f`. */
  ghost predicate HasFollower(faces: seq<FaceData>, v: VIndex, f: nat)
    requires Touches(faces, v, f)
  {
    var ts := AdjacentFaceIndices(faces, v);
    exists j :: 0 <= j < |ts| && Follows(faces, v, f, ts[j])
  }

  /**
   * The faces around `v` close up: `v` has a face, and every face touching
   * `v` is followed by some face touching `v`.
   */
  ghost predicate Manifold(faces: seq<FaceData>, v: VIndex)
  {
    && |AdjacentFaceIndices(faces, v)| > 0
    && forall f {:trigger HasFollower(faces, v, f)} :: Touches(faces, v, f) ==> HasFollower(faces, v, f)
  }

  /** Around a manifold vertex, every touching face has a follower. */
  lemma ManifoldHasFollower(faces: seq<FaceData>, v: VIndex, cur: nat)
    requires Manifold(faces, v)
    requires cur in AdjacentFaceIndices(faces, v)
    ensures FindFollower(faces, v, AdjacentFaceIndices(faces, v), cur).Some?
  {
    var ts := AdjacentFaceIndices(faces, v);
    assert HasFollower(faces, v, cur);
    var j :| 0 <= j < |ts| && Follows(faces, v, cur, ts[j]);
  }

  /** The entry after position `i` of `r` follows the entry at `i` around `v`. */
  ghost predicate FollowsAt(faces: seq<FaceData>, v: VIndex, r: seq<nat>, i: nat)
    requires AllTouch(faces, v, r) && i + 1 < |r|
  {
    Follows(faces, v, r[i], r[i + 1])
  }

  /** Appending a follower of the last face keeps a chain of following faces a chain. */
  lemma ExtendChain(faces: seq<FaceData>, v: VIndex, r: seq<nat>, x: nat)
    requires 0 < |r| && AllTouch(faces, v, r) && Touches(faces, v, x)
    requires forall i :: 0 <= i < |r| - 1 ==> FollowsAt(faces, v, r, i)
    requires Follows(faces, v, r[|r| - 1], x)
    ensures AllTouch(faces, v, r + [x]) && (r + [x])[0] == r[0]
    ensures forall i :: 0 <= i < |r| ==> FollowsAt(faces, v, r + [x], i)
  {
    var extended := r + [x];
    forall i | 0 <= i < |extended|
      ensures Touches(faces, v, extended[i])
    {
      if i < |r| {
        assert extended[i] == r[i];
      }
    }
    forall i | 0 <= i < |r|
      ensures FollowsAt(faces, v, extended, i)
    {
      if i < |r| - 1 {
        assert FollowsAt(faces, v, r, i);
      }
    }
  }

  /** Each entry of `r` after the first is what `_.find` over `ts` returns for the entry before it. */
  ghost predicate FoundInOrder(faces: seq<FaceData>, v: VIndex, ts: seq<nat>, r: seq<nat>)
    requires AllTouch(faces, v, ts) && AllTouch(faces, v, r)
  {
    forall i :: 0 <= i < |r| - 1 ==> FindFollower(faces, v, ts, r[i]) == Some(r[i + 1])
  }

  /** Appending the face `_.find` returns for the last entry keeps `FoundInOrder`. */
  lemma ExtendFound(faces: seq<FaceData>, v: VIndex, ts: seq<nat>, r: seq<nat>, x: nat)
    requires AllTouch(faces, v, ts) && AllTouch(faces, v, r) && |r| > 0
    requires FoundInOrder(faces, v, ts, r)
    requires FindFollower(faces, v, ts, r[|r| - 1]) == Some(x)
    ensures AllTouch(faces, v, r + [x])
    ensures FoundInOrder(faces, v, ts, r + [x])
  {
    var r' := r + [x];
    var n := |r| - 1;
    assert x in ts;
    assert AllTouch(faces, v, r') by {
      forall i | 0 <= i < |r'| ensures Touches(faces, v, r'[i]) {
        if i < |r| {
          assert r'[i] == r[i];
        }
      }
    }
    forall i | 0 <= i < |r'| - 1 ensures FindFollower(faces, v, ts, r'[i]) == Some(r'[i + 1]) {
      assert r'[i] == r[i];
      if i < n {
        assert r'[i + 1] == r[i + 1];
        assert FindFollower(faces, v, ts, r[i]) == Some(r[i + 1]);
      } else {
        assert i == n && r'[i + 1] == x;
      }
    }
  }

  /**
   * `directedAdjacentFaceIndices`: the faces touching `v` in directed cyclic
   * order, starting from the first touching face and each time moving to the
   * first face that follows the last one. `ok` is false when a lookup finds
   * nothing (the source then pushes `undefined`).
   */
  method DirectedAdjacentFaceIndices(p: Polyhedron, v: VIndex) returns (r: seq<nat>, ok: bool)
    ensures ok ==> 0 < |r| == Degree(p.solidData.faces, v)
    ensures ok ==> r[0] == AdjacentFaceIndices(p.solidData.faces, v)[0]
    ensures ok ==> AllTouch(p.solidData.faces, v, r)
    ensures ok ==> forall i :: 0 <= i < |r| - 1 ==> FollowsAt(p.solidData.faces, v, r, i)
    // each step takes the first face in index order that follows, as `_.find` does
    ensures ok ==> FoundInOrder(p.solidData.faces, v, AdjacentFaceIndices(p.solidData.faces, v), r)
    ensures Manifold(p.solidData.faces, v) ==> ok
    ensures AdjacentFaceIndices(p.solidData.faces, v) == [] ==> !ok
  {
    var faces := p.solidData.faces;
    var touching := AdjacentFaceIndices(faces, v);
    if |touching| == 0 {
      return [], false;
    }
    r := [touching[0]];
    var next := FindFollower(faces, v, touching, touching[0]);
    if Manifold(faces, v) {
      ManifoldHasFollower(faces, v, touching[0]);
    }
    while |r| < |touching|
      invariant 1 <= |r| <= |touching|
      invariant r[0] == touching[0]
      invariant AllTouch(faces, v, r)
      invariant forall i :: 0 <= i < |r| - 1 ==> FollowsAt(faces, v, r, i)
      invariant FoundInOrder(faces, v, touching, r)
      invariant next == FindFollower(faces, v, touching, r[|r| - 1])
      invariant Manifold(faces, v) ==> next.Some?
    {
      if next.None? {
        return r, false;
      }
      var extended := r + [next.value];
      ExtendChain(faces, v, r, next.value);
      ExtendFound(faces, v, touching, r, next.value);
      r := extended;
      next := FindFollower(faces, v, touching, next.value);
      if Manifold(faces, v) {
        ManifoldHasFollower(faces, v, r[|r| - 1]);
      }
    }
    ok := true;
  }

  /** JavaScript's `%`: it truncates toward zero, so the remainder has the sign of `a`. */
  function JsRem(a: int, b: int): int
    requires b != 0
  {
    if a >= 0 then a % b else -((-a) % b)
  }

  /** The `mod` of truncate.js as written: `a % b` for `a >= 0`, else `a % b + b`. */
  function JsMod(a: int, b: int): int
    requires b != 0
  {
    if a >= 0 then JsRem(a, b) else JsRem(a, b) + b
  }

  /** As written, `mod` leaves `[0, b)` for a negative multiple of `b`: `mod(-2, 2)` is 2. */
  lemma JsModLeavesRange()
    ensures JsMod(-2, 2) == 2
    ensures !(0 <= JsMod(-2, 2) < 2)
  {
  }

  /** The intended cyclic index: the representative of `a` modulo `b` in `[0, b)`. */
  function CyclicMod(a: int, b: int): (r: int)
    requires b > 0
    ensures 0 <= r < b
    ensures a - r == (a / b) * b
  {
    a % b
  }

  /** The successor of a position in a cycle of `k`: `t + 1`, except that the last wraps to 0. */
  lemma CyclicModSucc(t: nat, k: nat)
    requires t < k
    ensures CyclicMod(t + 1, k) == (if t + 1 == k then 0 else t + 1)
  {
    if t + 1 < k {
      assert (t + 1) / k == 0;
    } else {
      assert (t + 1) / k == 1;
    }
  }

  /** On the non-negative arguments that `truncateVertex` passes it, the written `mod` is the intended one. */
  lemma JsModAgrees(a: int, b: int)
    requires b > 0 && a >= 0
    ensures JsMod(a, b) == CyclicMod(a, b)
  {
  }

  /** How new vertices are placed: copied in mock mode, at the edge midpoint, or at the cut point. */
  datatype Mode = Mock | Rectify | Cut

  /**
   * The floating-point placement, left abstract: the midpoint of an edge,
   * and the cut point along an edge of a face with the given number of sides.
   */
  datatype Placement = Placement(midpoint: (Point, Point) -> Point, cutPoint: (Point, Point, nat) -> Point)

  /** The new vertex that cutting `v` creates on `face`. */
  function NewVertex(p: Polyhedron, v: VIndex, face: FaceData, mode: Mode, place: Placement): Point
    requires v < p.NumVertices() && v in face
    requires forall k :: 0 <= k < |face| ==> face[k] < p.NumVertices()
  {
    var vs := p.solidData.vertices;
    match mode
    case Mock => vs[v]
    case Rectify => place.midpoint(vs[v], vs[NextVertex(face, v)])
    case Cut => place.cutPoint(vs[v], vs[NextVertex(face, v)], |face|)
  }

  /**
   * The rewriting of face `fi` when `v` is cut: a face among the touching
   * faces, at position `t` in `order`, has its occurrence of `v` replaced by
   * `base + (t + 1) mod k` and `base + t`; any other face is kept.
   */
  function RewriteFace(face: FaceData, fi: nat, v: VIndex, order: seq<nat>, base: nat): (r: FaceData)
    requires fi in order ==> v in face
  {
    if fi !in order then face
    else
      var t := IndexOf(order, fi);
      Replace(face, IndexOf(face, v), base + CyclicMod(t + 1, |order|), base + t)
  }

  /** The preconditions of `truncateVertex`: `order` lists faces that contain `v` in both tables. */
  ghost predicate CanCut(current: Polyhedron, p: Polyhedron, v: VIndex, order: seq<nat>)
  {
    && Valid(p) && v < p.NumVertices()
    && AllTouch(p.solidData.faces, v, order)
    && AllTouch(current.solidData.faces, v, order)
  }

  /**
   * `truncateVertex`: cuts vertex `v` of the original polyhedron `p` out of
   * the partly rebuilt `current`, given the directed order of the faces
   * around `v`.
   */
  function TruncateVertex(current: Polyhedron, p: Polyhedron, v: VIndex, order: seq<nat>, mode: Mode, place: Placement): Polyhedron
    requires CanCut(current, p, v, order)
  {
    var touched := seq(|order|, i requires 0 <= i < |order| => p.solidData.faces[order[i]]);
    var added := seq(|order|, i requires 0 <= i < |order| => NewVertex(p, v, touched[i], mode, place));
    var base := current.NumVertices();
    var faces := current.solidData.faces;
    Of(current.solidData.vertices + added,
       seq(|faces|, fi requires 0 <= fi < |faces| => RewriteFace(faces[fi], fi, v, order, base))
       + [Range(base, base + |order|)])
  }

  /**
   * What cutting one vertex does to the tables: one new vertex per touching
   * face, appended after the existing ones; one new face, the consecutive
   * range of the new vertices, appended; faces that do not touch `v` unchanged.
   */
  lemma TruncateVertexTables(current: Polyhedron, p: Polyhedron, v: VIndex, order: seq<nat>, mode: Mode, place: Placement)
    requires CanCut(current, p, v, order)
    ensures var q := TruncateVertex(current, p, v, order, mode, place);
      && q.NumVertices() == current.NumVertices() + |order|
      && q.solidData.vertices[..current.NumVertices()] == current.solidData.vertices
      && q.NumFaces() == current.NumFaces() + 1
      && q.solidData.faces[current.NumFaces()] == Range(current.NumVertices(), q.NumVertices())
      && (forall fi :: 0 <= fi < current.NumFaces() && fi !in order ==>
            q.solidData.faces[fi] == current.solidData.faces[fi])
  {
  }

  /**
   * In a touching face at position `t` of `order`, the occurrence of `v`
   * becomes the two new indices `base + (t + 1) mod k` and `base + t`, where
   * `base` is the old vertex count and `k` the number of touching faces; the
   * rest of the face is kept in place, so the face grows by one.
   */
  lemma TruncateVertexTouched(current: Polyhedron, p: Polyhedron, v: VIndex, order: seq<nat>, mode: Mode, place: Placement, t: nat)
    requires CanCut(current, p, v, order)
    requires t < |order| && IndexOf(order, order[t]) == t
    ensures var q := TruncateVertex(current, p, v, order, mode, place);
      var face := current.solidData.faces[order[t]];
      var j := IndexOf(face, v);
      var base := current.NumVertices();
      && 0 <= j < |face|
      && |q.solidData.faces[order[t]]| == |face| + 1
      && q.solidData.faces[order[t]][..j] == face[..j]
      && q.solidData.faces[order[t]][j] == base + (if t + 1 == |order| then 0 else t + 1)
      && q.solidData.faces[order[t]][j + 1] == base + t
      && q.solidData.faces[order[t]][j + 2..] == face[j + 1..]
  {
    var q := TruncateVertex(current, p, v, order, mode, place);
    var faces := current.solidData.faces;
    var fi := order[t];
    assert Touches(faces, v, fi);
    assert fi in order;
    var face := faces[fi];
    var j := IndexOf(face, v);
    var a := current.NumVertices() + CyclicMod(t + 1, |order|);
    var b := current.NumVertices() + t;
    assert q.solidData.faces[fi] == Replace(face, j, a, b);
    CyclicModSucc(t, |order|);
  }

  /** In mock mode every new vertex is a copy of the cut vertex. */
  lemma TruncateVertexMock(current: Polyhedron, p: Polyhedron, v: VIndex, order: seq<nat>, place: Placement)
    requires CanCut(current, p, v, order)
    ensures var q := TruncateVertex(current, p, v, order, Mock, place);
      forall i :: current.NumVertices() <= i < q.NumVertices() ==>
        q.solidData.vertices[i] == p.solidData.vertices[v]
  {
  }

  /** Rewriting a face for a cut keeps its indices below the grown vertex count `base + |order|`. */
  lemma RewriteFaceInRange(face: FaceData, fi: nat, v: VIndex, order: seq<nat>, base: nat)
    requires fi in order ==> v in face
    requires forall k :: 0 <= k < |face| ==> face[k] < base
    ensures forall k :: 0 <= k < |RewriteFace(face, fi, v, order, base)| ==>
      RewriteFace(face, fi, v, order, base)[k] < base + |order|
  {
    if fi in order {
      var t := IndexOf(order, fi);
      var j := IndexOf(face, v);
      var a, b := base + CyclicMod(t + 1, |order|), base + t;
      var r := Replace(face, j, a, b);
      forall k | 0 <= k < |r|
        ensures r[k] < base + |order|
      {
        ReplaceElements(face, j, a, b, r[k]);
      }
    }
  }

  /** Cutting a vertex keeps every face index in range of the vertex table. */
  lemma TruncateVertexInRange(current: Polyhedron, p: Polyhedron, v: VIndex, order: seq<nat>, mode: Mode, place: Placement)
    requires CanCut(current, p, v, order)
    requires Valid(current)
    ensures Valid(TruncateVertex(current, p, v, order, mode, place))
  {
    var q := TruncateVertex(current, p, v, order, mode, place);
    var base := current.NumVertices();
    var faces := current.solidData.faces;
    forall fi | 0 <= fi < q.NumFaces()
      ensures forall k :: 0 <= k < |q.solidData.faces[fi]| ==> q.solidData.faces[fi][k] < q.NumVertices()
    {
      if fi < |faces| {
        RewriteFaceInRange(faces[fi], fi, v, order, base);
      }
    }
  }

  /** Cutting `v` keeps every other vertex in every face it was in. */
  lemma TruncateVertexKeepsOthers(current: Polyhedron, p: Polyhedron, v: VIndex, order: seq<nat>, mode: Mode, place: Placement, fi: nat, u: VIndex)
    requires CanCut(current, p, v, order)
    requires fi < current.NumFaces() && u in current.solidData.faces[fi] && u != v
    ensures u in TruncateVertex(current, p, v, order, mode, place).solidData.faces[fi]
  {
    if fi in order {
      var face := current.solidData.faces[fi];
      var t := IndexOf(order, fi);
      ReplaceKeeps(face, IndexOf(face, v), current.NumVertices() + CyclicMod(t + 1, |order|), current.NumVertices() + t, u);
    }
  }

  /** The total degree of the vertices below `n`. */
  function DegreeSum(faces: seq<FaceData>, n: nat): nat
  {
    if n == 0 then 0 else DegreeSum(faces, n - 1) + Degree(faces, n - 1)
  }

  /** The index of the first vertex created when vertex `v` is cut. */
  function CutBase(p: Polyhedron, v: VIndex): nat
  {
    p.NumVertices() + DegreeSum(p.solidData.faces, v)
  }

  /** The face that cutting vertex `v` appends, as it stands in `q`. */
  function CutFace(q: Polyhedron, p: Polyhedron, v: VIndex): FaceData
    requires p.NumFaces() + v < q.NumFaces()
  {
    q.solidData.faces[p.NumFaces() + v]
  }

  /** After `j` cuts: one face appended per cut, the original vertices still first, all indices in range. */
  ghost predicate CutCounts(p: Polyhedron, q: Polyhedron, j: nat)
  {
    && j <= p.NumVertices()
    && q.NumFaces() == p.NumFaces() + j
    && q.NumVertices() == p.NumVertices() + DegreeSum(p.solidData.faces, j)
    && q.solidData.vertices[..p.NumVertices()] == p.solidData.vertices
    && Valid(q)
  }

  /** After `j` cuts: the face appended for each cut vertex holds exactly the vertices created for it. */
  ghost predicate CutFacesDone(p: Polyhedron, q: Polyhedron, j: nat)
    requires q.NumFaces() == p.NumFaces() + j
  {
    forall u {:trigger CutFace(q, p, u)} :: 0 <= u < j ==>
      CutFace(q, p, u) == Range(CutBase(p, u), CutBase(p, u) + Degree(p.solidData.faces, u))
  }

  /** After `j` cuts: every vertex not yet cut is still in each original face it was in. */
  ghost predicate Pending(p: Polyhedron, q: Polyhedron, j: nat)
    requires p.NumFaces() <= q.NumFaces()
  {
    forall fi, u :: 0 <= fi < p.NumFaces() && j <= u && u in p.solidData.faces[fi] ==>
      u in q.solidData.faces[fi]
  }

  /** The state of `doTruncate` after the first `j` vertices of `p` have been cut into `q`. */
  ghost predicate CutsDone(p: Polyhedron, q: Polyhedron, j: nat)
  {
    CutCounts(p, q, j) && CutFacesDone(p, q, j) && Pending(p, q, j)
  }

  /** In mock mode: the face appended for each cut vertex `u < j` consists of copies of `u`. */
  ghost predicate MockDone(p: Polyhedron, q: Polyhedron, j: nat)
    requires CutsDone(p, q, j)
  {
    forall u, i :: 0 <= u < j && 0 <= i < |CutFace(q, p, u)| ==>
      q.solidData.vertices[CutFace(q, p, u)[i]] == p.solidData.vertices[u]
  }

  /** The faces around the next vertex to cut still contain it in the partly rebuilt polyhedron. */
  lemma CutStepCanCut(p: Polyhedron, q: Polyhedron, j: nat, order: seq<nat>)
    requires Valid(p) && j < p.NumVertices() && CutsDone(p, q, j)
    requires AllTouch(p.solidData.faces, j, order)
    ensures CanCut(q, p, j, order)
  {
    forall i | 0 <= i < |order|
      ensures Touches(q.solidData.faces, j, order[i])
    {
      assert Touches(p.solidData.faces, j, order[i]);
    }
  }

  /**
   * What `doTruncate` relies on about one cut of vertex `j` of `p` turning
   * `q` into `next`; `TruncateVertexSteps` proves it of `TruncateVertex`.
   */
  ghost predicate CutOf(q: Polyhedron, p: Polyhedron, j: VIndex, order: seq<nat>, mode: Mode, next: Polyhedron)
  {
    && CutShape(q, order, next)
    && next.solidData.vertices[..q.NumVertices()] == q.solidData.vertices
    && (Valid(q) ==> Valid(next))
    && (forall fi, u :: 0 <= fi < q.NumFaces() && u in q.solidData.faces[fi] && u != j ==> u in next.solidData.faces[fi])
    && (mode == Mock && j < p.NumVertices() ==> forall i :: q.NumVertices() <= i < next.NumVertices() ==>
          next.solidData.vertices[i] == p.solidData.vertices[j])
  }

  /** The face table of a cut: the new face of new vertices appended, the faces outside `order` kept. */
  ghost predicate CutShape(q: Polyhedron, order: seq<nat>, next: Polyhedron)
  {
    && next.NumVertices() == q.NumVertices() + |order|
    && next.NumFaces() == q.NumFaces() + 1
    && next.solidData.faces[q.NumFaces()] == Range(q.NumVertices(), next.NumVertices())
    && (forall fi :: 0 <= fi < q.NumFaces() && fi !in order ==> next.solidData.faces[fi] == q.solidData.faces[fi])
  }

  /** `TruncateVertex` is a cut in the sense of `CutOf`. */
  lemma TruncateVertexSteps(q: Polyhedron, p: Polyhedron, j: VIndex, order: seq<nat>, mode: Mode, place: Placement)
    requires CanCut(q, p, j, order)
    ensures CutOf(q, p, j, order, mode, TruncateVertex(q, p, j, order, mode, place))
  {
    TruncateVertexTables(q, p, j, order, mode, place);
    if Valid(q) {
      TruncateVertexInRange(q, p, j, order, mode, place);
    }
    forall fi, u | 0 <= fi < q.NumFaces() && u in q.solidData.faces[fi] && u != j
      ensures u in TruncateVertex(q, p, j, order, mode, place).solidData.faces[fi]
    {
      TruncateVertexKeepsOthers(q, p, j, order, mode, place, fi, u);
    }
    if mode == Mock {
      TruncateVertexMock(q, p, j, order, place);
    }
  }

  /** A cut of vertex `j` leaves the faces appended for the vertices before it alone. */
  lemma CutFaceKept(p: Polyhedron, q: Polyhedron, j: nat, order: seq<nat>, next: Polyhedron, u: nat)
    requires AllTouch(p.solidData.faces, j, order) && CutShape(q, order, next)
    requires q.NumFaces() == p.NumFaces() + j && u < j
    ensures CutFace(next, p, u) == CutFace(q, p, u)
  {
    var fi := p.NumFaces() + u;
    assert fi !in order by {
      forall t | 0 <= t < |order|
        ensures order[t] != fi
      {
        assert Touches(p.solidData.faces, j, order[t]);
      }
    }
  }

  /** A cut of vertex `j` extends `CutCounts` to `j + 1`. */
  lemma CutStepCounts(p: Polyhedron, q: Polyhedron, j: nat, order: seq<nat>, mode: Mode, next: Polyhedron)
    requires j < p.NumVertices() && CutCounts(p, q, j) && CutOf(q, p, j, order, mode, next)
    requires |order| == Degree(p.solidData.faces, j)
    ensures CutCounts(p, next, j + 1)
  {
    assert next.solidData.vertices[..p.NumVertices()] == q.solidData.vertices[..p.NumVertices()];
  }

  /** A cut of vertex `j` extends `CutFacesDone` to `j + 1`. */
  lemma CutStepFaces(p: Polyhedron, q: Polyhedron, j: nat, order: seq<nat>, next: Polyhedron)
    requires AllTouch(p.solidData.faces, j, order) && j < p.NumVertices()
    requires q.NumFaces() == p.NumFaces() + j && q.NumVertices() == p.NumVertices() + DegreeSum(p.solidData.faces, j)
    requires CutFacesDone(p, q, j) && CutShape(q, order, next)
    requires |order| == Degree(p.solidData.faces, j)
    ensures next.NumFaces() == p.NumFaces() + j + 1 && CutFacesDone(p, next, j + 1)
  {
    forall u {:trigger CutFace(next, p, u)} | 0 <= u < j
      ensures CutFace(next, p, u) == Range(CutBase(p, u), CutBase(p, u) + Degree(p.solidData.faces, u))
    {
      CutFaceKept(p, q, j, order, next, u);
    }
    var lo, hi := CutBase(p, j), CutBase(p, j) + Degree(p.solidData.faces, j);
    assert lo == q.NumVertices();
    assert hi == next.NumVertices();
    assert CutFace(next, p, j) == next.solidData.faces[q.NumFaces()];
    assert CutFace(next, p, j) == Range(lo, hi);
  }

  /** A cut of vertex `j` extends `Pending` to `j + 1`. */
  lemma CutStepPending(p: Polyhedron, q: Polyhedron, j: nat, order: seq<nat>, mode: Mode, next: Polyhedron)
    requires p.NumFaces() <= q.NumFaces() && Pending(p, q, j) && CutOf(q, p, j, order, mode, next)
    ensures p.NumFaces() <= next.NumFaces() && Pending(p, next, j + 1)
  {
    forall fi, u | 0 <= fi < p.NumFaces() && j + 1 <= u && u in p.solidData.faces[fi]
      ensures u in next.solidData.faces[fi]
    {
      assert u in q.solidData.faces[fi];
    }
  }

  /** A cut of the next vertex, with the faces around it in some order, extends `CutsDone` to `j + 1`. */
  lemma CutStep(p: Polyhedron, q: Polyhedron, j: nat, order: seq<nat>, mode: Mode, next: Polyhedron)
    requires j < p.NumVertices() && CutsDone(p, q, j) && CutOf(q, p, j, order, mode, next)
    requires AllTouch(p.solidData.faces, j, order) && |order| == Degree(p.solidData.faces, j)
    ensures CutsDone(p, next, j + 1)
  {
    CutStepCounts(p, q, j, order, mode, next);
    CutStepFaces(p, q, j, order, next);
    CutStepPending(p, q, j, order, mode, next);
  }

  /** In mock mode, a cut also extends `MockDone`. */
  lemma CutStepMock(p: Polyhedron, q: Polyhedron, j: nat, order: seq<nat>, next: Polyhedron)
    requires j < p.NumVertices() && CutsDone(p, q, j) && MockDone(p, q, j) && CutOf(q, p, j, order, Mock, next)
    requires AllTouch(p.solidData.faces, j, order) && |order| == Degree(p.solidData.faces, j)
    ensures CutsDone(p, next, j + 1)
    ensures MockDone(p, next, j + 1)
  {
    CutStep(p, q, j, order, Mock, next);
    forall u, i | 0 <= u < j + 1 && 0 <= i < |CutFace(next, p, u)|
      ensures CutFace(next, p, u)[i] < next.NumVertices()
        && next.solidData.vertices[CutFace(next, p, u)[i]] == p.solidData.vertices[u]
    {
      if u < j {
        CutFaceKept(p, q, j, order, next, u);
        var k := CutFace(q, p, u)[i];
        assert k < q.NumVertices();
        assert q.solidData.vertices[k] == p.solidData.vertices[u];
        assert next.solidData.vertices[k] == next.solidData.vertices[..q.NumVertices()][k];
      } else {
        assert CutFace(next, p, u)[i] == q.NumVertices() + i;
      }
    }
  }

  /**
   * `doTruncate` up to its final repair pass: every vertex of `p` is cut in
   * turn, threading the rebuilt polyhedron through. `ok` is false when the
   * faces around some vertex could not be ordered.
   */
  method DoTruncate(p: Polyhedron, mode: Mode, place: Placement) returns (q: Polyhedron, ok: bool)
    requires Valid(p)
    ensures ok ==> q.NumFaces() == p.NumFaces() + p.NumVertices()
    ensures ok ==> q.NumVertices() == p.NumVertices() + DegreeSum(p.solidData.faces, p.NumVertices())
    ensures ok ==> q.solidData.vertices[..p.NumVertices()] == p.solidData.vertices
    ensures ok ==> Valid(q)
    ensures ok ==> forall v {:trigger CutFace(q, p, v)} :: 0 <= v < p.NumVertices() ==>
      CutFace(q, p, v) == Range(CutBase(p, v), CutBase(p, v) + Degree(p.solidData.faces, v))
    ensures ok && mode == Mock ==> forall v, i :: 0 <= v < p.NumVertices() && 0 <= i < |CutFace(q, p, v)| ==>
      q.solidData.vertices[CutFace(q, p, v)[i]] == p.solidData.vertices[v]
    ensures (forall v :: 0 <= v < p.NumVertices() ==> Manifold(p.solidData.faces, v)) ==> ok
  {
    var nv := p.NumVertices();
    q := p;
    assert q.solidData.vertices[..nv] == p.solidData.vertices;
    var j := 0;
    while j < nv
      invariant 0 <= j <= nv
      invariant CutsDone(p, q, j)
      invariant mode == Mock ==> MockDone(p, q, j)
    {
      var order, found := DirectedAdjacentFaceIndices(p, j);
      if !found {
        return q, false;
      }
      CutStepCanCut(p, q, j, order);
      var next := TruncateVertex(q, p, j, order, mode, place);
      TruncateVertexSteps(q, p, j, order, mode, place);
      if mode == Mock {
        CutStepMock(p, q, j, order, next);
      } else {
        CutStep(p, q, j, order, mode, next);
      }
      q := next;
      j := j + 1;
    }
    ok := true;
  }
}
