# Polyhedra viewer: builder, truncation and augmentation rules

This project models the discrete, index-level part of a polyhedron viewer's
editing engine. Vertex coordinates and angles are opaque values throughout.

- `solid_builder.dfy` models the `Builder` class of
  `src/math/polyhedra/SolidBuilder.ts`. It is a staged accumulator over a
  vertex table and a face table, where a face is a list of vertex indices.
  The class has the mutable fields `vertices`, `faces` and `edges`. Every
  edit method reassigns them and returns the builder itself.
- `truncate.dfy` models `src/math/operations/truncate.js`:
  - the directed cyclic ordering of the faces around a vertex, as a method
    with a loop;
  - the rewriting of faces when one vertex is cut off, as a function;
  - the vertex-by-vertex threading of `doTruncate`, as a method with a loop.
- `augment.dfy` models the decision layer of
  `src/math/operations/cutPasteOps/augment.ts`:
  - parsing of `using` codes such as `"Y4"` and `"U5"`, and the default
    tables;
  - classification of an augmentation base;
  - the ortho/gyro alignment table;
  - applicability and the spec transition table;
  - option enumeration, per-face selection states and hit handling.

  `canAugment`, `canAugmentWithType` and `allOptionCombos` are methods with
  loops, proved against specification functions. The convexity test
  `canAugmentWith` is an abstract parameter `fits`. The catalog name of a
  spec is an abstract parameter `name`.
- `specs.dfy` holds the classification of a solid (`Spec`) as a closed sum
  type.
- `common.dfy` holds `Option` and `Result`, the array helpers (`indexOf`,
  `uniq`, `range` and the `replace` of util.js), and the mesh value types.

## Model

| member | source | states |
|---|---|---|
| `SolidBuilder.NormalizeVertex` | src/math/polyhedra/SolidBuilder.ts:14-22 | a raw point or vector stands for itself, a vertex object for its position; `NormalizeVerticesRoundTrip` gives its meaning on a solid's own vertices |
| `SolidBuilder.NormalizeFace` | src/math/polyhedra/SolidBuilder.ts:24-32 | keeps the length of a face given as a list; keeps each number; turns each vertex object into its index; gives a face object's own index list |
| `SolidBuilder.NormalizeFaceRoundTrip` | src/math/polyhedra/SolidBuilder.ts:24-32 | a stored index list, passed back in, normalizes to itself |
| `SolidBuilder.NormalizeVerticesRoundTrip` | src/math/polyhedra/SolidBuilder.ts:14-22 | normalizing a polyhedron's vertex objects gives back its vertex table |
| `Lists.Without` | src/math/polyhedra/SolidBuilder.ts:80-87 | lodash `pullAt` on a copy: the elements at the named positions removed; `Lists.WithoutKeepsOrder` and `Lists.WithoutLength` give its meaning |
| `Lists.KeptExactly` | src/math/polyhedra/SolidBuilder.ts:80-87 | the positions that survive a removal are exactly those not named, in strictly increasing order |
| `Lists.WithoutKeepsOrder` | src/math/polyhedra/SolidBuilder.ts:80-87 | removing positions (lodash `pullAt`) keeps the remaining faces in their original relative order |
| `Lists.WithoutLength` | src/math/polyhedra/SolidBuilder.ts:80-87 | each named position that exists removes exactly one face |
| `SolidBuilder.Shifted` | src/math/polyhedra/SolidBuilder.ts:91-92 | every vertex index of every face moved up by the offset; `ShiftedInRange` gives its meaning |
| `SolidBuilder.ShiftedInRange` | src/math/polyhedra/SolidBuilder.ts:89-95 | shifting the faces of a valid solid by the vertex count keeps every index in range of the merged vertex table |
| `SolidBuilder.Builder.constructor` | src/math/polyhedra/SolidBuilder.ts:38-41 | keeps the source polyhedron and starts from a copy of its vertex, face and edge tables |
| `SolidBuilder.Builder.Build` | src/math/polyhedra/SolidBuilder.ts:43-45 | the built polyhedron carries exactly the accumulated tables |
| `SolidBuilder.Builder.WithVertices` | src/math/polyhedra/SolidBuilder.ts:48-51 | replaces the vertex table with the normalized arguments; leaves faces and edges alone; returns the same builder |
| `SolidBuilder.Builder.WithFaces` | src/math/polyhedra/SolidBuilder.ts:54-59 | replaces the face table with the normalized arguments; discards the edge cache; leaves vertices alone; returns the same builder |
| `SolidBuilder.Builder.AddVertices` | src/math/polyhedra/SolidBuilder.ts:61-65 | the old vertex table is a prefix of the new one (every vertex keeps its index); the length grows by exactly the number added |
| `SolidBuilder.Builder.AddFaces` | src/math/polyhedra/SolidBuilder.ts:67-69 | the old face table is a prefix of the new one; the length grows by exactly the number added; the edge cache is discarded |
| `SolidBuilder.Builder.MapVertices` | src/math/polyhedra/SolidBuilder.ts:71-73 | one vertex per vertex of the original polyhedron, each the image of that vertex; faces and edges unchanged |
| `SolidBuilder.Builder.MapFaces` | src/math/polyhedra/SolidBuilder.ts:75-78 | one face per face of the original polyhedron, each the normalized image of that face; edge cache discarded |
| `SolidBuilder.Builder.WithoutFaces` | src/math/polyhedra/SolidBuilder.ts:80-87 | the face table loses exactly the positions of the given faces and keeps the rest; vertices untouched; edge cache discarded |
| `SolidBuilder.Builder.AddPolyhedron` | src/math/polyhedra/SolidBuilder.ts:89-95 | appends the other solid's vertices, and its faces shifted by the vertex count of the polyhedron the builder was constructed from; a valid merge stays in range |
| `Lists.IndexOf` | src/math/operations/truncate.js:62 | -1 exactly when absent; otherwise the first position holding the element |
| `Lists.Range` | src/math/operations/truncate.js:71 | the `hi - lo` consecutive naturals from `lo` below `hi`, each once, in increasing order |
| `Lists.Uniq` | src/math/operations/cutPasteOps/augment.ts:114 | the same elements as the input, without duplicates, in the order of their first occurrence |
| `Lists.Replace` | src/math/operations/truncate.js:63-69 | one element longer, with the two new elements at the replaced position; `ReplaceKeeps` and `ReplaceElements` give the rest |
| `Lists.ReplaceKeeps` | src/math/operations/truncate.js:63-69 | `replace` keeps every element other than the replaced one |
| `Lists.ReplaceElements` | src/math/operations/truncate.js:63-69 | `replace` introduces no element besides the two inserted ones |
| `Truncate.PrevVertex` | src/math/operations/truncate.js:15 | the vertex before `v` in the cyclic order of the face, which lies on the face (`math/solidUtils` is not part of this model) |
| `Truncate.NextVertex` | src/math/operations/truncate.js:15 | the vertex after `v` in the cyclic order of the face, which lies on the face |
| `Truncate.PrevNextInverse` | src/math/operations/truncate.js:15 | on a face listing each vertex once, stepping back then forward, or forward then back, returns to `v` |
| `Truncate.AdjacentFaceIndices` | src/math/operations/truncate.js:11 | exactly the indices of the faces containing the vertex, in strictly increasing order |
| `Truncate.AdjacentBelow` | src/math/operations/truncate.js:11 | the touching faces are listed exactly (sound and complete), in strictly increasing order |
| `Truncate.FindFollower` | src/math/operations/truncate.js:14-18 | `_.find` with `checkVertex` returns the first listed face that follows the current one around the vertex, or nothing when no listed face does |
| `Truncate.ManifoldHasFollower` | src/math/operations/truncate.js:18 | around a vertex whose faces close up, the lookup never fails |
| `Truncate.DirectedAdjacentFaceIndices` | src/math/operations/truncate.js:9-21 | as many entries as faces touching the vertex, the first being the first touching face; consecutive entries satisfy `prevVertex(faces[r[i]], v) == nextVertex(faces[r[i+1]], v)`, and each entry is the first touching face in index order to do so from the one before (`_.find`); always succeeds around a vertex whose faces close up |
| `Truncate.JsMod` | src/math/operations/truncate.js:57 | the `mod` as written, with JavaScript's truncating `%`; `JsModAgrees` and `JsModLeavesRange` give where it is and is not the cyclic index |
| `Truncate.JsModLeavesRange` | src/math/operations/truncate.js:57 | the `mod` as written gives `mod(-2, 2) == 2`, outside `[0, 2)` |
| `Truncate.CyclicMod` | src/math/operations/truncate.js:57 | the intended cyclic index: in `[0, b)` and congruent to `a` modulo `b`, for every `a` |
| `Truncate.JsModAgrees` | src/math/operations/truncate.js:57 | on the non-negative arguments that `truncateVertex` passes, the written `mod` is the intended one |
| `Truncate.CyclicModSucc` | src/math/operations/truncate.js:66-67 | the successor of position `t` among `k` faces is `t + 1`, except that the last wraps to 0 |
| `Truncate.NewVertex` | src/math/operations/truncate.js:33-53 | the new vertex on one touching face: a copy in mock mode, else placed on the edge to the next vertex; `TruncateVertexMock` gives the mock case |
| `Truncate.RewriteFace` | src/math/operations/truncate.js:59-70 | a face not touching the vertex is kept; a touching one has the vertex replaced by two new indices; `TruncateVertexTables` and `TruncateVertexTouched` give its meaning |
| `Truncate.TruncateVertex` | src/math/operations/truncate.js:23-73 | cutting one vertex out; `TruncateVertexTables`, `TruncateVertexTouched`, `TruncateVertexInRange` and `TruncateVertexKeepsOthers` give its meaning |
| `Truncate.TruncateVertexTables` | src/math/operations/truncate.js:55-72 | vertex count grows by the number of touching faces, with the old vertices a prefix; exactly one face is appended, the range `[old count, new count)`; faces not touching the vertex are unchanged |
| `Truncate.TruncateVertexTouched` | src/math/operations/truncate.js:59-70 | in a touched face at position `t`, the occurrence of the vertex becomes `base + (t+1) mod k` followed by `base + t`; the rest of the face stays in place, so the face grows by one |
| `Truncate.TruncateVertexMock` | src/math/operations/truncate.js:34-36 | in mock mode every new vertex is a copy of the cut vertex |
| `Truncate.TruncateVertexInRange` | src/math/operations/truncate.js:59-72 | a cut keeps every face index in range of the vertex table |
| `Truncate.TruncateVertexKeepsOthers` | src/math/operations/truncate.js:61-69 | a cut keeps every other vertex in every face that had it |
| `Truncate.TruncateVertexSteps` | src/math/operations/truncate.js:23-73 | one cut has the effect on the tables that `doTruncate`'s loop relies on |
| `Truncate.CutStep` | src/math/operations/truncate.js:77-79 | one iteration of the loop carries the invariant from the first `j` vertices to the first `j + 1` |
| `Truncate.CutStepMock` | src/math/operations/truncate.js:77-79 | in mock mode the iteration also keeps every appended face made of copies of its vertex |
| `Truncate.DoTruncate` | src/math/operations/truncate.js:75-84 | before the repair pass: face count = original faces + original vertices; vertex count = original vertices + the sum of the vertex degrees; original vertices first; indices in range; the face appended for vertex `v` is the range of vertices created for it; in mock mode those are copies of `v`; succeeds when the faces around every vertex close up |
| `Augment.AugmenteeFor` | src/math/operations/cutPasteOps/augment.ts:182-187 | the table entry of that kind whose underside has that many sides, when there is one; `AugmenteeForFits` gives its meaning |
| `Augment.AugmenteeForFits` | src/math/operations/cutPasteOps/augment.ts:182-187 | an augmentee is found exactly for the table entries of that kind whose underside has that many sides, and is that entry |
| `Augment.Compact` | src/math/operations/cutPasteOps/augment.ts:65 | lodash `compact` keeps exactly the present values |
| `Augment.PossibleAugmentees` | src/math/operations/cutPasteOps/augment.ts:63-66 | the pyramid, cupola and rotunda that go on a face of that size; `PossibleAugmenteesExactly` gives its meaning |
| `Augment.PossibleAugmenteesExactly` | src/math/operations/cutPasteOps/augment.ts:63-66 | the possible augmentees of an `n`-sided face are exactly the table entries whose underside has `n` sides |
| `Augment.CanAugmentWith` | src/math/operations/cutPasteOps/augment.ts:69-82 | false without an augmentee, else the abstract convexity test `fits`; `AugmentableSizes` gives its meaning when every placement is convex |
| `Augment.AugmentableSizes` | src/math/operations/cutPasteOps/augment.ts:95-106 | when every placement is convex, exactly the faces of 3, 4, 5, 6, 8 or 10 sides can be augmented |
| `Augment.CanAugment` | src/math/operations/cutPasteOps/augment.ts:95-106 | the loop with early return is true exactly when some possible augmentee fits at offset 0 or 1 |
| `Augment.GetUsingData` | src/math/operations/cutPasteOps/augment.ts:299-302 | the kind named by the first character and the base named by the second; `UsingCodeRoundTrip` and `UsingDataDetermines` give its meaning |
| `Augment.GetUsingType` | src/math/operations/cutPasteOps/augment.ts:304-306 | the kind the code names; `AugmentableWith` fails exactly when it is absent |
| `Augment.UsingCodeRoundTrip` | src/math/operations/cutPasteOps/augment.ts:299-302 | reading a written code gives back the kind (Y, U, R) and the base digit |
| `Augment.UsingDataDetermines` | src/math/operations/cutPasteOps/augment.ts:299-302 | a code that names a kind and a base begins with the written form of that kind and base |
| `Augment.GetAugmenteeNumSides` | src/math/operations/cutPasteOps/augment.ts:278-281 | twice the base for a cupola or rotunda, the base for a pyramid; `NumSidesIsUnderside` gives its meaning |
| `Augment.NumSidesIsUnderside` | src/math/operations/cutPasteOps/augment.ts:278-281 | the side count of a code is `2 * base` for a cupola or rotunda and `base` for a pyramid, which is the underside of the augmentee it names |
| `Augment.DefaultAugmentType` | src/math/operations/cutPasteOps/augment.ts:265-267 | a pyramid up to five sides, else a cupola; `DefaultAugmenteeAgrees` ties it to the default codes |
| `Augment.DefaultAugmentee` | src/math/operations/cutPasteOps/augment.ts:269-276 | the default code for 3, 4, 5, 6, 8 and 10 sides; `DefaultAugmenteeAgrees` gives its meaning |
| `Augment.DefaultAugmenteeAgrees` | src/math/operations/cutPasteOps/augment.ts:265-276 | a default code exists exactly for 3, 4, 5, 6, 8 and 10 sides; it names the default type (a pyramid up to five sides, else a cupola), fits that side count, and names a table entry |
| `Augment.Truthy` | src/math/operations/cutPasteOps/augment.ts:284 | `!!using`: a code is given and is not empty; `GetUsingOpt` shows an empty code falls back to the default |
| `Augment.GetUsingOpt` | src/math/operations/cutPasteOps/augment.ts:283-287 | the given code exactly when it is non-empty and fits the face size, else the default for that size; any code returned fits the face size |
| `Augment.DefaultResolves` | src/math/operations/cutPasteOps/augment.ts:269-287 | with no code given, a face size in the default table resolves to a well-formed code |
| `Augment.AugmentableWith` | src/math/operations/cutPasteOps/augment.ts:84-93 | fails exactly when the code's prefix names no type |
| `Augment.AugmentableWithImpliesAugmentable` | src/math/operations/cutPasteOps/augment.ts:84-106 | a face that passes `canAugmentWithType` also passes `canAugment` |
| `Augment.CanAugmentWithType` | src/math/operations/cutPasteOps/augment.ts:84-93 | the loop over offsets 0 and 1 with early return computes the test, including the throw for an unknown prefix |
| `Augment.OnlyIn` | src/math/operations/cutPasteOps/augment.ts:110 | one half of lodash `xor`: exactly the elements of the first list missing from the second |
| `Augment.Xor` | src/math/operations/cutPasteOps/augment.ts:110 | lodash `xor` of two lists, as the two `OnlyIn` halves; `SetEqualsIsSetEquality` shows it is empty exactly for lists with the same elements |
| `Augment.SetEquals` | src/math/operations/cutPasteOps/augment.ts:109-110 | the lodash `xor` of the two lists is empty; `SetEqualsIsSetEquality` gives its meaning |
| `Augment.SetEqualsIsSetEquality` | src/math/operations/cutPasteOps/augment.ts:109-110 | `setEquals` holds exactly when both lists have the same elements |
| `Augment.GetBaseType` | src/math/operations/cutPasteOps/augment.ts:112-128 | the base type from the side counts of the adjacent faces; `GetBaseTypeBySet`, `GetBaseTypeOnlySet` and `NoAdjacentIsTruncated` give its meaning |
| `Augment.GetBaseTypeBySet` | src/math/operations/cutPasteOps/augment.ts:112-128 | the base type is the table over the set of adjacent side counts: {3,4} cupola, {4} prism, {3} pyramid or antiprism, {3,5} rotunda, {4,5} rhombicosidodecahedron, anything else truncated |
| `Augment.GetBaseTypeOnlySet` | src/math/operations/cutPasteOps/augment.ts:112-128 | the base type depends only on which side counts occur, not on their order or repeats |
| `Augment.NoAdjacentIsTruncated` | src/math/operations/cutPasteOps/augment.ts:112-128 | a base with no adjacent faces classifies as truncated |
| `Augment.IsCupolaRotunda` | src/math/operations/cutPasteOps/augment.ts:130-132 | the cap and the augmentee are a cupola and a rotunda; `IsCupolaRotundaPairs` gives its meaning |
| `Augment.IsCupolaRotundaPairs` | src/math/operations/cutPasteOps/augment.ts:130-132 | holds exactly for a cupola with a rotunda, in either order |
| `Augment.IsAligned` | src/math/operations/cutPasteOps/augment.ts:136-180 | true for a pyramid augmentee, for a pyramid-or-antiprism base, and for a prism base without caps; fails for want of a gyrate value exactly when none of these holds, the base is not truncated and no gyrate is given; on a truncated base true exactly when the face next to the base and the face next to the underside are not both or neither triangles (an error without adjacent faces); on the rhombicosidodecahedron true exactly when "ortho" matches whether those faces line up on squares; on cupola and rotunda bases, and on capped prisms by the opposite face, true exactly when "ortho" matches whether they line up on triangles, the sense inverted for a cupola against a rotunda, and an error without caps |
| `Augment.CupolaRotundaInverts` | src/math/operations/cutPasteOps/augment.ts:172-179 | on a cupola or rotunda base, a cupola and a rotunda with the same gyrate value go on at opposite offsets |
| `Augment.OrthoGyroComplementary` | src/math/operations/cutPasteOps/augment.ts:158-179 | where the gyrate value decides, "ortho" and "gyro" choose different offsets |
| `Augment.TruncatedIgnoresGyrate` | src/math/operations/cutPasteOps/augment.ts:152-170 | on a truncated base the gyrate value is not consulted |
| `Augment.IsFastigium` | src/math/operations/cutPasteOps/augment.ts:189-191 | a cupola on a square face; `FastigiumIsPrismAugmentee` gives its meaning |
| `Augment.FastigiumIsPrismAugmentee` | src/math/operations/cutPasteOps/augment.ts:189-191 | the fastigium case is exactly the one whose augmentee is the triangular prism |
| `Augment.AlignmentGyrate` | src/math/operations/cutPasteOps/augment.ts:210-216 | for the fastigium `isAligned` is always handed "gyro"; otherwise it gets the chosen value |
| `Augment.HasAugmentAlignment` | src/math/operations/cutPasteOps/augment.ts:48-56 | a singly augmented composite of the hexagonal prism or of an icosahedral solid; `CompositeTransition` shows the alignment recorded exactly then |
| `Augment.HasRotunda` | src/math/operations/cutPasteOps/augment.ts:289-297 | the decagonal prismatics and the single pentagonal cupolae and rotundae; `GetUsingOpts` offers the cupola-or-rotunda choice exactly then |
| `Augment.GetUsingOpts` | src/math/operations/cutPasteOps/augment.ts:289-318 | offers a choice of two codes exactly for the triangular prism and the solids that `hasRotunda` accepts: a pyramid then a cupola for the triangular prism, a cupola then a rotunda for the others |
| `Augment.UsingOptsAlternatives` | src/math/operations/cutPasteOps/augment.ts:308-318 | the offered codes are well formed and all fit one face size: 4 sides for the triangular prism, 10 otherwise |
| `Augment.HasGyrateOpts` | src/math/operations/cutPasteOps/augment.ts:320-332 | capstones of cupolae or rotundae that are neither gyroelongated nor digonal, and rhombicosidodecahedron composites; `GyrateOptsDistinguish` shows the two values then differ |
| `Augment.UsingOptsKnown` | src/math/operations/cutPasteOps/augment.ts:452-458 | no offered code makes `canAugmentWithType` throw |
| `Augment.CanApplyTo` | src/math/operations/cutPasteOps/augment.ts:350-380 | the applicability table; `CanApplyToVariants` gives its meaning |
| `Augment.CanApplyToVariants` | src/math/operations/cutPasteOps/augment.ts:350-380 | never applies to a Platonic or Archimedean solid; applies to a capstone exactly when it has one cap; to a prismatic exactly when it is a prism of at least 3 sides or an antiprism of at least 4; to a rhombicosidodecahedron composite exactly when a position is diminished; to an icosahedron composite exactly when diminished and not yet augmented; to a prism composite exactly when fewer than 3 (base divisible by 3) or 2 positions are augmented and it is not para; to a Platonic or Archimedean composite exactly when fewer than `family - 2` are augmented and it is not para; to no other composite; to an elementary solid exactly when it is the sphenocorona |
| `Augment.GetResult` | src/math/operations/cutPasteOps/augment.ts:396-443 | fails when no code resolves, and for any Platonic or Archimedean solid; its per-variant transitions are stated by `PrismaticBecomesCapstone`, `CapstoneAugmentsOnce`, `CapstoneCapType`, `CompositeTransition` and `ElementaryResult` |
| `Augment.ApplicableHasResult` | src/math/operations/cutPasteOps/augment.ts:350-443 | whenever the operation applies and the code resolves to a well-formed one, there is a result |
| `Augment.PrismaticBecomesCapstone` | src/math/operations/cutPasteOps/augment.ts:399-406 | succeeds exactly when the code names both a kind and a base; the result is a single capstone on the code's base, with the cap the code's kind makes, elongated by the prism type, with no gyrate value, to which the operation applies again |
| `Augment.CapstoneAugmentsOnce` | src/math/operations/cutPasteOps/augment.ts:407-413 | a single capstone becomes a bicapstone on the same base and elongation, "gyro" when the code's base is 2 and the chosen gyrate value otherwise, to which the operation no longer applies |
| `Augment.CapstoneCapType` | src/math/operations/cutPasteOps/augment.ts:408-411 | the cap type is kept when the added cap is of the same type, and becomes the cupola-rotunda otherwise |
| `Augment.CompositeTransition` | src/math/operations/cutPasteOps/augment.ts:414-438 | a composite stays a composite of the same source; on the rhombicosidodecahedron one diminished position is filled, becoming a gyrated one and keeping the alignment for "ortho", and recorded as meta otherwise; on the icosahedron a code of base 3 sets the augmented count to 1 and keeps the rest, any other refills a diminished position as meta; on other sources the augmented count goes up by one, and the face's alignment is recorded exactly when `hasAugmentAlignment` holds |
| `Augment.ElementaryResult` | src/math/operations/cutPasteOps/augment.ts:439-440 | an elementary solid becomes the augmented sphenocorona |
| `Augment.IcosahedronOnce` | src/math/operations/cutPasteOps/augment.ts:426-429 | an icosahedron composite augmented with a triangular pyramid cannot be augmented again |
| `Augment.GyrateOptsDistinguish` | src/math/operations/cutPasteOps/augment.ts:320-332 | wherever `hasGyrateOpts` offers gyrate options (and the triangular prism does not force "gyro"), "ortho" and "gyro" give different results |
| `Augment.IsPreferredSpec` | src/math/operations/cutPasteOps/augment.ts:382-394 | fails exactly when no code resolves; a square pyramid on a prism is never preferred for the prism's own spec; on the triangular prism a cupola prefers the capstone, a base of 3 the prismatic and any other code the composite; every other spec is preferred |
| `Augment.PreferredUnique` | src/math/operations/cutPasteOps/augment.ts:382-394 | for the triangular prism, at most one spec variant is preferred for any choice of code |
| `Augment.AugmentableFaces` | src/math/operations/cutPasteOps/augment.ts:453 | the face filter keeps exactly the faces that pass `canAugment`, and no more faces than it is given |
| `Augment.AugmentableFacesInOrder` | src/math/operations/cutPasteOps/augment.ts:453 | the filter is the face list with the positions of the other faces removed, so the kept faces appear in their original relative order, the `j`-th at the `j`-th position that passes |
| `Augment.GyrateOpts` | src/math/operations/cutPasteOps/augment.ts:450 | "ortho" and "gyro" where `hasGyrateOpts` holds, else only the absent value, so never empty; `GyrateCombosExactly` and `AllOptionCombosExactly` give its meaning |
| `Augment.UsingOpts` | src/math/operations/cutPasteOps/augment.ts:452 | the offered codes, else only the absent value, so never empty; `UsingOptsKnown` and `AllOptionCombosExactly` give its meaning |
| `Augment.UsingPasses` | src/math/operations/cutPasteOps/augment.ts:458 | the code is absent or passes `canAugmentWithType`; `UsingCombosExactly` gives its meaning |
| `Augment.UsingCombosExactly` | src/math/operations/cutPasteOps/augment.ts:457-461 | the innermost loop yields exactly the codes that are absent or pass `canAugmentWithType`, at most one per code |
| `Augment.GyrateCombosExactly` | src/math/operations/cutPasteOps/augment.ts:456-462 | the middle loop yields every gyrate value with every passing code, at most gyrate options × using options |
| `Augment.FaceCombosExactly` | src/math/operations/cutPasteOps/augment.ts:455-463 | the outer loop yields every face with every gyrate value and passing code, at most faces × gyrate options × using options |
| `Augment.FaceCombosAppend` | src/math/operations/cutPasteOps/augment.ts:455-463 | the combinations are face-major: those of more faces follow those of the first faces |
| `Augment.SingleFaceCombos` | src/math/operations/cutPasteOps/augment.ts:456-462 | the combinations of one face all carry that face |
| `Augment.AllOptionCombos` | src/math/operations/cutPasteOps/augment.ts:449-464 | the generator's three nested loops yield the face-major, then gyrate, then using sequence of combinations |
| `Augment.CombosOver` | src/math/operations/cutPasteOps/augment.ts:455-463 | the outer loop, face by face, yields the face-major sequence |
| `Augment.FaceOptionCombos` | src/math/operations/cutPasteOps/augment.ts:456-462 | the middle loop, gyrate value by gyrate value, yields the gyrate-major sequence for one face |
| `Augment.GyrateOptionCombos` | src/math/operations/cutPasteOps/augment.ts:457-461 | the inner loop yields, in order, the combinations whose code passes the filter |
| `Augment.UsingFilter` | src/math/operations/cutPasteOps/augment.ts:458 | passes exactly when the code is absent or `canAugmentWithType` is true |
| `Augment.AllOptionCombosExactly` | src/math/operations/cutPasteOps/augment.ts:449-464 | every combination has a face that passes `canAugment`, a gyrate value from the gyrate options, and a code that is absent or passes `canAugmentWithType`; every such combination is yielded; there are at most faces × gyrate options × using options |
| `Augment.FaceSelectionState` | src/math/operations/cutPasteOps/augment.ts:480-487 | the state of one face; `FaceSelectionStateMeaning` gives its meaning |
| `Augment.FaceSelectionStates` | src/math/operations/cutPasteOps/augment.ts:479-488 | one state per face, in order, each that face's state; fails only when some face's test throws |
| `Augment.FaceSelectionStateMeaning` | src/math/operations/cutPasteOps/augment.ts:480-487 | the chosen face is selected before anything else is tested; without a code another face is selectable exactly when it passes `canAugment`, with a code exactly when it passes `canAugmentWithType`; no other face is selected |
| `Augment.FaceSelectionStatesTotal` | src/math/operations/cutPasteOps/augment.ts:479-488 | with no code or a well-formed one, the states are always produced |
| `Augment.AllOptions` | src/math/operations/cutPasteOps/augment.ts:490-499 | the gyrate values, the codes, or the faces that can be augmented; `DefaultsAreOptions` and `AugmentableFacesInOrder` give its meaning |
| `Augment.DefaultOptions` | src/math/operations/cutPasteOps/augment.ts:501-507 | "gyro" when there are gyrate options and the first code when there is a choice; `DefaultsAreOptions` gives its meaning |
| `Augment.DefaultsAreOptions` | src/math/operations/cutPasteOps/augment.ts:490-507 | a default gyrate value exists exactly when there are gyrate options, and it is "gyro", one of them; a default code is proposed exactly when more than one code is offered, and it is the first of them |
| `Augment.GetHitOption` | src/math/operations/cutPasteOps/augment.ts:467-477 | nothing without options; otherwise only the hit face, which is returned exactly when it passes `canAugment` (no code) or `canAugmentWithType` (with a code) |
| `Augment.HitOptionSelectable` | src/math/operations/cutPasteOps/augment.ts:467-488 | a face the pointer picks is one the picker shows as selectable, or as selected if it is the chosen face |

## Left out

- Floating-point geometry is not modelled.
  - Positions are opaque `Point` values.
  - The truncation's cut point and midpoint come from an abstract `Placement`.
  - The dihedral-angle convexity test of `canAugmentWith` is the abstract predicate `fits`.
  - `getAugmentAlignment` (normals and `isInverse`) becomes the `faceAlign` argument of `GetResult`.
  - `oppositeFace`, `adjacentFaces` and `Cap.getAll` become the side counts and cap types in `AlignGeom`.
- `doAugment` and the operation's `apply` are not modelled: the transform, scaling, merge and animation data are geometry. The gyrate value `doAugment` hands to `isAligned` is modelled, as `AlignmentGyrate`.
- `deduplicateVertices` and `removeExtraneousVertices` are not part of this model. `DoTruncate` returns the mesh before that pass. The `truncate` and `rectify` wrappers are the `Mock`/`Cut` and `Rectify` modes.
- The catalog (`Polyhedron.get`, `augmentData`) is not modelled. Augmentees are named by their entry in the `augmentees` table.
- The canonical name is the abstract parameter `name`, and the offset-dependent convexity answer is `fits`.
- `hitFace` ray picking is not modelled. `GetHitOption` receives the hit face.
- The spec classes, `inc`/`dec` and `makeOperation` are not part of this model.
  - The spec predicates (`isMono`, `isPara`, `isIcosahedral`, ...) are read off the fields of `Spec`.
  - `inc`/`dec` are plus and minus one on unbounded integers.
  - `Capstone.query.withData` and `Elementary.query.withName` build the `Spec` value directly.
- Where the source would push `undefined` after a failed `_.find` in `directedAdjacentFaceIndices`, the model reports `ok = false`. `DoTruncate` then stops and reports failure.
- `DirectedAdjacentFaceIndices` returns `[]` with `ok = false` for a vertex that touches no face. The source pushes `undefined` once there and returns `[undefined]`. In mock mode `truncateVertex` then adds one copy of the vertex and a face of that one vertex; in the other modes it throws. Such a vertex cannot occur on a closed solid, but the model's validity predicate does not exclude it.
- `DoTruncate` requires every face of the input to refer to existing vertices. Otherwise the source reads an undefined position.
- Where the source throws, the model returns `Err`. This covers:
  - destructuring an unresolved code;
  - an unknown prefix in `canAugmentWithType`;
  - a missing gyrate value, a base with no adjacent face, or no caps in `isAligned`;
  - `getResult` on a Platonic or Archimedean solid.

  For a prismatic spec with a code that names no type or base, the source queries the catalog with `undefined`. The model returns `Err` there.
- `normalizeVertex`'s final throw is unreachable in the model, because vertex arguments form a closed datatype.
- The edge cache is an `Option<seq<Edge>>`. Computing edges is not modelled.
- `faceSelectionStates` compares faces with `Face.equals`. The model compares the index and the vertex list.
- `allOptionCombos` is a lazy generator. The model produces the whole sequence.
- `AddPolyhedron` shifts the other solid's faces by the vertex count of the polyhedron the builder was constructed from, as `addPolyhedron` does. After earlier vertex edits that count can differ from the builder's current one; the model follows the code.

## Findings

| source | as written | input that shows it | evidently intended | confidence | as-written member | corrected member |
|---|---|---|---|---|---|---|
| src/math/operations/truncate.js:57 | `mod(a, b)` is `a % b + b` for negative `a`, which is `b` when `b` divides `a` | `mod(-2, 2)` is 2, outside `[0, 2)` | the representative of `a` modulo `b` in `[0, b)` | not executed; `truncateVertex` only passes non-negative `a`, where the two agree (`Truncate.JsModAgrees`) | `Truncate.JsModLeavesRange` | `Truncate.CyclicMod` |
