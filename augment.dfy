/**
 * The discrete rules of the augment operation: which augmentee a `using`
 * code names, which faces can take which augmentee, how the base of an
 * augmentation is classified and aligned, when the operation applies to a
 * spec, what spec it produces, and which option combinations it offers.
 *
 * The geometry stays abstract: whether an augmentee sits convexly on a face
 * at a rotational offset is the parameter `fits`; the canonical name of a
 * spec is the parameter `name`; the side counts of the faces around a base
 * and the caps of the solid are handed in as values.
 */
module Augment {
  import opened Wrappers
  import opened Lists
  import opened Mesh
  import opened Specs

  /** The three kinds of augmentee. */
  datatype AugmentType = Pyramid | Cupola | Rotunda

  /**
   * A catalog augmentee, by kind and table index: the pyramids of 3, 4 and
   * 5 sides, the cupolae of 2 to 5 (index 2 being the triangular prism) and
   * the pentagonal rotunda.
   */
  datatype Augmentee = Augmentee(kind: AugmentType, index: nat)

  /** What can go wrong where the source throws. */
  datatype AugmentError =
    | UnresolvedUsing      // no `using` code applies, so destructuring `undefined` throws
    | UnknownAugmentType   // a `using` code whose prefix is not Y, U or R
    | MissingGyrate        // `isAligned` needs a gyrate option it was not given
    | NoAdjacentFace       // the base has no adjacent face to compare
    | NoCaps               // the alignment rule reads the first cap of a solid without caps
    | Unclassifiable       // `getResult` has no rule for the spec

  /** The entries of the `augmentees` table. */
  predicate InTable(kind: AugmentType, index: nat)
  {
    match kind
    case Pyramid => 3 <= index <= 5
    case Cupola => 2 <= index <= 5
    case Rotunda => index == 5
  }

  /** The number of sides of the face an augmentee is attached by. */
  function UndersideSides(a: Augmentee): nat
  {
    if a.kind == Pyramid then a.index else 2 * a.index
  }

  /**
   * `getAugmentee`, and the lookups of `getPossibleAugmentees` and
   * `canAugmentWithType`: the table entry of the kind, indexed by the side
   * count for a pyramid and by half of it otherwise (an odd count has no
   * half, and finds nothing).
   */
  function AugmenteeFor(kind: AugmentType, numSides: nat): (r: Option<Augmentee>)
    ensures r.Some? ==> InTable(r.value.kind, r.value.index)
  {
    var index := if kind == Pyramid then numSides else numSides / 2;
    if kind != Pyramid && numSides % 2 == 1 then None
    else if InTable(kind, index) then Some(Augmentee(kind, index))
    else None
  }

  /**
   * An augmentee is found for a side count exactly when the table has an
   * entry of that kind attached by a face of that many sides, and then it is
   * that entry.
   */
  lemma AugmenteeForFits(kind: AugmentType, numSides: nat)
    ensures AugmenteeFor(kind, numSides).Some? ==>
      AugmenteeFor(kind, numSides).value.kind == kind && UndersideSides(AugmenteeFor(kind, numSides).value) == numSides
    ensures forall index :: InTable(kind, index) && UndersideSides(Augmentee(kind, index)) == numSides ==>
      AugmenteeFor(kind, numSides) == Some(Augmentee(kind, index))
  {
  }

  /** `compact` of a list of optional values: the present ones. */
  function Compact<T(==,!new)>(s: seq<Option<T>>): (r: seq<T>)
    ensures |r| <= |s|
    ensures forall x :: x in r <==> Some(x) in s
  {
    if |s| == 0 then []
    else
      var rest := Compact(s[1..]);
      assert forall x :: Some(x) in s[1..] ==> Some(x) in s;
      assert forall o :: o in s ==> o == s[0] || o in s[1..];
      if s[0].Some? then [s[0].value] + rest else rest
  }

  /** `getPossibleAugmentees`: the pyramid, the cupola and the rotunda that fit a face of `n` sides, those that exist. */
  function PossibleAugmentees(n: nat): seq<Augmentee>
  {
    Compact([AugmenteeFor(Pyramid, n), AugmenteeFor(Cupola, n), AugmenteeFor(Rotunda, n)])
  }

  /** The possible augmentees of a face are exactly the table entries attached by a face of its size. */
  lemma PossibleAugmenteesExactly(n: nat, a: Augmentee)
    ensures a in PossibleAugmentees(n) <==> InTable(a.kind, a.index) && UndersideSides(a) == n
  {
    AugmenteeForFits(a.kind, n);
    if a in PossibleAugmentees(n) {
      AugmenteeForFits(Pyramid, n);
      AugmenteeForFits(Cupola, n);
      AugmenteeForFits(Rotunda, n);
    }
  }

  /**
   * The convexity test of `canAugmentWith`, left abstract: augmentee `a`
   * sits convexly on face `base` at rotational offset `offset`.
   */
  type Fits = (Face, Augmentee, nat) -> bool

  /** `canAugmentWith`: false when there is no augmentee, else the convexity test. */
  function CanAugmentWith(fits: Fits, base: Face, augmentee: Option<Augmentee>, offset: nat): bool
  {
    augmentee.Some? && fits(base, augmentee.value, offset)
  }

  /** Some possible augmentee fits the face at offset 0 or 1. */
  predicate Augmentable(fits: Fits, base: Face)
  {
    var augs := PossibleAugmentees(base.NumSides());
    exists i, offset :: 0 <= i < |augs| && 0 <= offset < 2 && CanAugmentWith(fits, base, Some(augs[i]), offset)
  }

  /**
   * When every placement is convex, the faces that can be augmented are
   * exactly those with 3, 4, 5, 6, 8 or 10 sides.
   */
  lemma AugmentableSizes(fits: Fits, base: Face)
    requires forall f, a, k :: fits(f, a, k)
    ensures Augmentable(fits, base) <==> base.NumSides() in {3, 4, 5, 6, 8, 10}
  {
    var n := base.NumSides();
    var augs := PossibleAugmentees(n);
    if n in {3, 4, 5, 6, 8, 10} {
      var a := if n <= 5 then Augmentee(Pyramid, n) else Augmentee(Cupola, n / 2);
      PossibleAugmenteesExactly(n, a);
      var i :| 0 <= i < |augs| && augs[i] == a;
      assert CanAugmentWith(fits, base, Some(augs[i]), 0);
    } else if Augmentable(fits, base) {
      var i, offset :| 0 <= i < |augs| && 0 <= offset < 2 && CanAugmentWith(fits, base, Some(augs[i]), offset);
      PossibleAugmenteesExactly(n, augs[i]);
    }
  }

  /** `canAugment`: tries each possible augmentee at offsets 0 and 1, stopping at the first that fits. */
  method CanAugment(fits: Fits, base: Face) returns (r: bool)
    ensures r == Augmentable(fits, base)
  {
    var augs := PossibleAugmentees(base.NumSides());
    var i := 0;
    while i < |augs|
      invariant 0 <= i <= |augs|
      invariant forall k, offset :: 0 <= k < i && 0 <= offset < 2 ==> !CanAugmentWith(fits, base, Some(augs[k]), offset)
    {
      var offset := 0;
      while offset < 2
        invariant 0 <= offset <= 2
        invariant forall o :: 0 <= o < offset ==> !CanAugmentWith(fits, base, Some(augs[i]), o)
      {
        if CanAugmentWith(fits, base, Some(augs[i]), offset) {
          return true;
        }
        offset := offset + 1;
      }
      i := i + 1;
    }
    return false;
  }

  /** The digit a character stands for, as `parseInt` reads a one-character string. */
  function DigitValue(c: char): (r: Option<nat>)
    ensures r.Some? ==> r.value < 10
  {
    if '0' <= c <= '9' then Some((c as int - '0' as int) as nat) else None
  }

  /** The `augmentTypes` table: Y, U and R name the pyramid, the cupola and the rotunda. */
  function TypeOfPrefix(c: char): Option<AugmentType>
  {
    if c == 'Y' then Some(Pyramid) else if c == 'U' then Some(Cupola) else if c == 'R' then Some(Rotunda) else None
  }

  /** The prefix character of a kind of augmentee. */
  function PrefixOf(kind: AugmentType): char
  {
    match kind
    case Pyramid => 'Y'
    case Cupola => 'U'
    case Rotunda => 'R'
  }

  /** A `using` code as the operation writes it: the kind's prefix followed by the base digit. */
  function UsingCode(kind: AugmentType, base: nat): string
    requires base < 10
  {
    [PrefixOf(kind), ('0' as int + base) as char]
  }

  /** What a `using` code names: a kind (absent for an unknown prefix) and a base (absent when not a digit). */
  datatype UsingData = UsingData(kind: Option<AugmentType>, base: Option<nat>)

  /** `getUsingData`: the kind named by the first character and the base read from the second. */
  function GetUsingData(using: string): UsingData
  {
    UsingData(if |using| > 0 then TypeOfPrefix(using[0]) else None,
              if |using| > 1 then DigitValue(using[1]) else None)
  }

  /** Reading a written code gives back its kind and base. */
  lemma UsingCodeRoundTrip(kind: AugmentType, base: nat)
    requires base < 10
    ensures GetUsingData(UsingCode(kind, base)) == UsingData(Some(kind), Some(base))
  {
  }

  /** A code that names both a kind and a base is the written form of that kind and base, up to what follows. */
  lemma UsingDataDetermines(using: string)
    requires GetUsingData(using).kind.Some? && GetUsingData(using).base.Some?
    ensures |using| >= 2
    ensures using[..2] == UsingCode(GetUsingData(using).kind.value, GetUsingData(using).base.value)
  {
    var c := using[1];
    assert ('0' as int + (c as int - '0' as int)) as char == c;
  }

  /** `getAugmenteeNumSides`: twice the base for a cupola or rotunda, else the base; absent when the base is not a number. */
  function GetAugmenteeNumSides(using: string): (r: Option<nat>)
  {
    var d := GetUsingData(using);
    if d.base.None? then None
    else if d.kind == Some(Rotunda) || d.kind == Some(Cupola) then Some(2 * d.base.value)
    else Some(d.base.value)
  }

  /** The side count of a code is the underside of the augmentee it names. */
  lemma NumSidesIsUnderside(kind: AugmentType, base: nat)
    requires base < 10
    ensures GetAugmenteeNumSides(UsingCode(kind, base)) == Some(UndersideSides(Augmentee(kind, base)))
  {
    UsingCodeRoundTrip(kind, base);
  }

  /** `defaultAugmentType`: a pyramid for up to five sides, else a cupola. */
  function DefaultAugmentType(numSides: nat): AugmentType
  {
    if numSides <= 5 then Pyramid else Cupola
  }

  /** The `defaultAugmentees` table. */
  function DefaultAugmentee(numSides: nat): Option<string>
  {
    if numSides == 3 then Some("Y3")
    else if numSides == 4 then Some("Y4")
    else if numSides == 5 then Some("Y5")
    else if numSides == 6 then Some("U3")
    else if numSides == 8 then Some("U4")
    else if numSides == 10 then Some("U5")
    else None
  }

  /**
   * The default code for a side count names an augmentee of the default
   * type that is attached by a face of exactly that many sides.
   */
  lemma DefaultAugmenteeAgrees(numSides: nat)
    ensures DefaultAugmentee(numSides).Some? <==> numSides in {3, 4, 5, 6, 8, 10}
    ensures DefaultAugmentee(numSides).Some? ==>
      var u := DefaultAugmentee(numSides).value;
      && GetUsingData(u).kind == Some(DefaultAugmentType(numSides))
      && GetAugmenteeNumSides(u) == Some(numSides)
      && AugmenteeFor(DefaultAugmentType(numSides), numSides).Some?
  {
  }

  /** `!!using`: a given, non-empty string. */
  predicate Truthy(using: Option<string>)
  {
    using.Some? && using.value != ""
  }

  /** `getUsingOpt`: the given code when it fits a face of `numSides` sides, else the default for that size. */
  function GetUsingOpt(numSides: nat, using: Option<string>): (r: Option<string>)
    ensures Truthy(using) && GetAugmenteeNumSides(using.value) == Some(numSides) ==> r == using
    ensures !(Truthy(using) && GetAugmenteeNumSides(using.value) == Some(numSides)) ==> r == DefaultAugmentee(numSides)
    ensures r.Some? ==> GetAugmenteeNumSides(r.value) == Some(numSides)
  {
    if Truthy(using) && GetAugmenteeNumSides(using.value) == Some(numSides) then using
    else
      DefaultAugmenteeAgrees(numSides);
      DefaultAugmentee(numSides)
  }

  /** `getUsingType`. */
  function GetUsingType(using: string): Option<AugmentType>
  {
    GetUsingData(using).kind
  }

  /** The test of `canAugmentWithType`: the augmentee the code's type names for this face fits at offset 0 or 1. */
  function AugmentableWith(fits: Fits, base: Face, using: string): (r: Result<bool, AugmentError>)
    ensures r.Err? <==> GetUsingType(using).None?
  {
    match GetUsingType(using)
    case None => Err(UnknownAugmentType)
    case Some(kind) =>
      var a := AugmenteeFor(kind, base.NumSides());
      Ok(CanAugmentWith(fits, base, a, 0) || CanAugmentWith(fits, base, a, 1))
  }

  /** A face that takes the augmentee of a code can be augmented at all. */
  lemma AugmentableWithImpliesAugmentable(fits: Fits, base: Face, using: string)
    requires AugmentableWith(fits, base, using) == Ok(true)
    ensures Augmentable(fits, base)
  {
    var kind := GetUsingType(using).value;
    var n := base.NumSides();
    var a := AugmenteeFor(kind, n).value;
    AugmenteeForFits(kind, n);
    PossibleAugmenteesExactly(n, a);
    var augs := PossibleAugmentees(n);
    var i :| 0 <= i < |augs| && augs[i] == a;
    if !CanAugmentWith(fits, base, Some(augs[i]), 0) {
      assert CanAugmentWith(fits, base, Some(augs[i]), 1);
    }
  }

  /** `canAugmentWithType`: tries the code's augmentee at offsets 0 and 1; an unknown prefix throws. */
  method CanAugmentWithType(fits: Fits, base: Face, using: string) returns (r: Result<bool, AugmentError>)
    ensures r == AugmentableWith(fits, base, using)
  {
    var kind := GetUsingType(using);
    if kind.None? {
      return Err(UnknownAugmentType);
    }
    var a := AugmenteeFor(kind.value, base.NumSides());
    var offset := 0;
    while offset < 2
      invariant 0 <= offset <= 2
      invariant forall o :: 0 <= o < offset ==> !CanAugmentWith(fits, base, a, o)
    {
      if CanAugmentWith(fits, base, a, offset) {
        return Ok(true);
      }
      offset := offset + 1;
    }
    return Ok(false);
  }

  /** The elements of `a` missing from `b`. */
  function OnlyIn<T(==,!new)>(a: seq<T>, b: seq<T>): (r: seq<T>)
    ensures forall x :: x in r <==> x in a && x !in b
  {
    if |a| == 0 then []
    else
      var rest := OnlyIn(a[1..], b);
      assert forall x :: x in a <==> x == a[0] || x in a[1..];
      if a[0] in b then rest else [a[0]] + rest
  }

  /** lodash `xor`: the values in exactly one of the two lists (with repeats; only its emptiness matters here). */
  function Xor<T(==,!new)>(a: seq<T>, b: seq<T>): seq<T>
  {
    OnlyIn(a, b) + OnlyIn(b, a)
  }

  /** `setEquals`: the symmetric difference is empty. */
  predicate SetEquals<T(==,!new)>(a: seq<T>, b: seq<T>)
  {
    |Xor(a, b)| == 0
  }

  /** `setEquals` is equality of the sets of elements, in both directions. */
  lemma SetEqualsIsSetEquality<T(!new)>(a: seq<T>, b: seq<T>)
    ensures SetEquals(a, b) <==> (forall x :: x in a <==> x in b)
  {
    if !SetEquals(a, b) {
      var x := Xor(a, b)[0];
      assert x in OnlyIn(a, b) || x in OnlyIn(b, a);
    }
  }

  /** The topology around an augmentation base, as classified from its neighbours. */
  datatype BaseType = CupolaBase | PrismBase | PyramidOrAntiprism | RotundaBase | Rhombicosidodecahedron | Truncated

  /** The classification as a table over the set of side counts of the faces around the base. */
  function BaseTypeOfSet(counts: set<nat>): BaseType
  {
    if counts == {3, 4} then CupolaBase
    else if counts == {4} then PrismBase
    else if counts == {3} then PyramidOrAntiprism
    else if counts == {3, 5} then RotundaBase
    else if counts == {4, 5} then Rhombicosidodecahedron
    else Truncated
  }

  /** `getBaseType`, over the side counts of the faces adjacent to the base. */
  function GetBaseType(adjacentSides: seq<nat>): BaseType
  {
    var counts := Uniq(adjacentSides);
    if SetEquals(counts, [3, 4]) then CupolaBase
    else if SetEquals(counts, [4]) then PrismBase
    else if SetEquals(counts, [3]) then PyramidOrAntiprism
    else if SetEquals(counts, [3, 5]) then RotundaBase
    else if SetEquals(counts, [4, 5]) then Rhombicosidodecahedron
    else Truncated
  }

  /** A list whose elements form the set `elems` set-equals a literal list exactly when `elems` is the literal's set. */
  lemma SetEqualsLiteral(counts: seq<nat>, elems: set<nat>, lit: seq<nat>, s: set<nat>)
    requires forall x :: x in counts <==> x in elems
    requires forall x :: x in lit <==> x in s
    ensures SetEquals(counts, lit) <==> elems == s
  {
    SetEqualsIsSetEquality(counts, lit);
  }

  /** `getBaseType` is the set table applied to the set of adjacent side counts. */
  lemma GetBaseTypeBySet(adjacentSides: seq<nat>, elems: set<nat>)
    requires forall x :: x in adjacentSides <==> x in elems
    ensures GetBaseType(adjacentSides) == BaseTypeOfSet(elems)
  {
    var counts := Uniq(adjacentSides);
    var cupola := SetEquals(counts, [3, 4]);
    var prism := SetEquals(counts, [4]);
    var pyramid := SetEquals(counts, [3]);
    var rotunda := SetEquals(counts, [3, 5]);
    var rhombi := SetEquals(counts, [4, 5]);
    SetEqualsLiteral(counts, elems, [3, 4], {3, 4});
    SetEqualsLiteral(counts, elems, [4], {4});
    SetEqualsLiteral(counts, elems, [3], {3});
    SetEqualsLiteral(counts, elems, [3, 5], {3, 5});
    SetEqualsLiteral(counts, elems, [4, 5], {4, 5});
    assert GetBaseType(adjacentSides) ==
      if cupola then CupolaBase else if prism then PrismBase else if pyramid then PyramidOrAntiprism
      else if rotunda then RotundaBase else if rhombi then Rhombicosidodecahedron else Truncated;
  }

  /** The base type depends only on which side counts occur, not on their order or repeats. */
  lemma GetBaseTypeOnlySet(a: seq<nat>, b: seq<nat>)
    requires forall x :: x in a <==> x in b
    ensures GetBaseType(a) == GetBaseType(b)
  {
    var elems := set x | x in a;
    GetBaseTypeBySet(a, elems);
    GetBaseTypeBySet(b, elems);
  }

  /** `isCupolaRotunda`: the cap type and the augmentee type are a cupola and a rotunda, in either order. */
  predicate IsCupolaRotunda(capType: AugmentType, augmentType: AugmentType)
  {
    SetEquals([Cupola, Rotunda], [capType, augmentType])
  }

  /** `isCupolaRotunda` holds exactly for the two mixed pairs. */
  lemma IsCupolaRotundaPairs(capType: AugmentType, augmentType: AugmentType)
    ensures IsCupolaRotunda(capType, augmentType) <==>
      (capType == Cupola && augmentType == Rotunda) || (capType == Rotunda && augmentType == Cupola)
  {
    SetEqualsIsSetEquality([Cupola, Rotunda], [capType, augmentType]);
    var s := [capType, augmentType];
    assert Cupola in [Cupola, Rotunda] && Rotunda in [Cupola, Rotunda];
    assert capType in s && augmentType in s;
  }

  /**
   * The geometric facts `isAligned` reads: the side counts of the faces
   * adjacent to the base in order, the side count of the face opposite the
   * base's first edge, the side count of the face before the underside's
   * first edge on the augmentee, and the types of the caps of the solid.
   */
  datatype AlignGeom = AlignGeom(adjacentSides: seq<nat>, oppositeSides: nat, alignedSides: nat, caps: seq<AugmentType>)

  /** Whether the faces next to the base and to the underside line up, measured on faces of `sides` sides. */
  function SameSense(adjSides: nat, alignedSides: nat, sides: nat): bool
  {
    (adjSides != sides) == (alignedSides != sides)
  }

  /** `isAligned`: whether the augmentee goes on at offset 0, by the rule table per base type. */
  function IsAligned(g: AlignGeom, gyrate: Option<Gyrate>, augmentType: AugmentType): (r: Result<bool, AugmentError>)
    ensures augmentType == Pyramid ==> r == Ok(true)
    ensures GetBaseType(g.adjacentSides) == PyramidOrAntiprism ==> r == Ok(true)
    ensures GetBaseType(g.adjacentSides) == PrismBase && |g.caps| == 0 ==> r == Ok(true)
    ensures r == Err(MissingGyrate) <==>
      augmentType != Pyramid && GetBaseType(g.adjacentSides) !in {PyramidOrAntiprism, Truncated}
      && !(GetBaseType(g.adjacentSides) == PrismBase && |g.caps| == 0) && gyrate.None?
    // a truncated base points the augmentee away from the triangles, whatever the gyrate option
    ensures augmentType != Pyramid && GetBaseType(g.adjacentSides) == Truncated ==>
      r == if |g.adjacentSides| == 0 then Err(NoAdjacentFace)
           else Ok(!SameSense(g.adjacentSides[0], g.alignedSides, 3))
    // on the rhombicosidodecahedron "ortho" means lined up with the squares
    ensures (augmentType != Pyramid && GetBaseType(g.adjacentSides) == Rhombicosidodecahedron
             && gyrate.Some? && |g.adjacentSides| > 0) ==>
      r == Ok(SameSense(g.adjacentSides[0], g.alignedSides, 4) == (gyrate == Some(Ortho)))
    // on cupola and rotunda bases "ortho" means lined up with the triangles, swapped for a mixed pair
    ensures (augmentType != Pyramid && GetBaseType(g.adjacentSides) in {CupolaBase, RotundaBase}
             && gyrate.Some? && |g.adjacentSides| > 0) ==>
      r == if |g.caps| == 0 then Err(NoCaps)
           else Ok((SameSense(g.adjacentSides[0], g.alignedSides, 3) == (gyrate == Some(Ortho)))
                   != IsCupolaRotunda(g.caps[0], augmentType))
    // on a capped prism the face opposite the base is compared instead
    ensures (augmentType != Pyramid && GetBaseType(g.adjacentSides) == PrismBase
             && |g.caps| > 0 && gyrate.Some?) ==>
      r == Ok((SameSense(g.oppositeSides, g.alignedSides, 3) == (gyrate == Some(Ortho)))
              != IsCupolaRotunda(g.caps[0], augmentType))
  {
    if augmentType == Pyramid then Ok(true)
    else
      var baseType := GetBaseType(g.adjacentSides);
      if baseType == PyramidOrAntiprism then Ok(true)
      else if baseType == PrismBase && |g.caps| == 0 then Ok(true)
      else if baseType != Truncated && gyrate.None? then Err(MissingGyrate)
      else if baseType != PrismBase && |g.adjacentSides| == 0 then Err(NoAdjacentFace)
      else
        var adjSides := if baseType == PrismBase then g.oppositeSides else g.adjacentSides[0];
        var ortho := gyrate == Some(Ortho);
        if baseType == Rhombicosidodecahedron then Ok(SameSense(adjSides, g.alignedSides, 4) == ortho)
        else
          var isOrtho := SameSense(adjSides, g.alignedSides, 3);
          if baseType == Truncated then Ok(!isOrtho)
          else if |g.caps| == 0 then Err(NoCaps)
          else if IsCupolaRotunda(g.caps[0], augmentType) then Ok(isOrtho != ortho)
          else Ok(isOrtho == ortho)
  }

  /** A base with no adjacent faces reads as truncated. */
  lemma NoAdjacentIsTruncated(adjacentSides: seq<nat>)
    ensures |adjacentSides| == 0 ==> GetBaseType(adjacentSides) == Truncated
  {
    if |adjacentSides| == 0 {
      GetBaseTypeBySet(adjacentSides, {});
    }
  }

  /**
   * On a cupola or rotunda base of a solid capped by a cupola or a rotunda,
   * a cupola and a rotunda with the same gyrate option go on at opposite
   * offsets: for the mixed pairing "ortho" and "gyro" swap meaning.
   */
  lemma CupolaRotundaInverts(g: AlignGeom, gyrate: Gyrate)
    requires GetBaseType(g.adjacentSides) in {CupolaBase, RotundaBase}
    requires |g.caps| > 0 && g.caps[0] != Pyramid
    ensures IsAligned(g, Some(gyrate), Cupola).Ok? && IsAligned(g, Some(gyrate), Rotunda).Ok?
    ensures IsAligned(g, Some(gyrate), Cupola).value != IsAligned(g, Some(gyrate), Rotunda).value
  {
    NoAdjacentIsTruncated(g.adjacentSides);
    IsCupolaRotundaPairs(g.caps[0], Cupola);
    IsCupolaRotundaPairs(g.caps[0], Rotunda);
  }

  /** Where the gyrate option decides, "ortho" and "gyro" choose the two different offsets. */
  lemma OrthoGyroComplementary(g: AlignGeom, augmentType: AugmentType)
    requires augmentType != Pyramid
    requires GetBaseType(g.adjacentSides) !in {PyramidOrAntiprism, Truncated}
    requires !(GetBaseType(g.adjacentSides) == PrismBase && |g.caps| == 0)
    requires IsAligned(g, Some(Ortho), augmentType).Ok?
    ensures IsAligned(g, Some(Gyro), augmentType).Ok?
    ensures IsAligned(g, Some(Ortho), augmentType).value != IsAligned(g, Some(Gyro), augmentType).value
  {
  }

  /** On a truncated base the gyrate option is not consulted. */
  lemma TruncatedIgnoresGyrate(g: AlignGeom, a: Option<Gyrate>, b: Option<Gyrate>, augmentType: AugmentType)
    requires GetBaseType(g.adjacentSides) == Truncated
    ensures IsAligned(g, a, augmentType) == IsAligned(g, b, augmentType)
  {
  }

  /** `isFastigium`: a cupola on a square face, which is the triangular prism of the gyrobifastigium. */
  predicate IsFastigium(augmentType: AugmentType, numSides: nat)
  {
    augmentType == Cupola && numSides == 4
  }

  /** The fastigium case is exactly the one whose augmentee is the triangular prism. */
  lemma FastigiumIsPrismAugmentee(augmentType: AugmentType, numSides: nat)
    ensures IsFastigium(augmentType, numSides) <==> AugmenteeFor(augmentType, numSides) == Some(Augmentee(Cupola, 2))
  {
  }

  /** The gyrate value `doAugment` hands to `isAligned`: always "gyro" for the fastigium. */
  function AlignmentGyrate(augmentType: AugmentType, numSides: nat, gyrate: Option<Gyrate>): (r: Option<Gyrate>)
    ensures IsFastigium(augmentType, numSides) ==> r == Some(Gyro)
    ensures !IsFastigium(augmentType, numSides) ==> r == gyrate
  {
    if IsFastigium(augmentType, numSides) then Some(Gyro) else gyrate
  }

  /** `hasAugmentAlignment`: a singly augmented composite of a hexagonal prism or of an icosahedral solid. */
  predicate HasAugmentAlignment(info: Spec)
  {
    && info.Composite?
    && info.augmented == 1
    && (if info.source.Prismatic? then info.source.base == 6 else info.source.IsIcosahedral())
  }

  /** `hasRotunda`: the decagonal prismatics and the single pentagonal cupola or rotunda. */
  predicate HasRotunda(info: Spec)
  {
    if info.Prismatic? then info.base == 10
    else if info.Capstone? then info.IsMono() && !info.IsPyramid() && info.IsPentagonal()
    else false
  }

  /** The canonical name of a spec, from the catalog; left abstract. */
  type Naming = Spec -> string

  /** `getUsingOpts`: the choice of augmentee offered for the triangular prism and for the rotunda-capable solids. */
  function GetUsingOpts(name: Naming, info: Spec): (r: Option<seq<string>>)
    ensures r.Some? ==> |r.value| == 2
    ensures r.Some? <==> name(info) == "triangular prism" || HasRotunda(info)
    // the triangular prism offers a pyramid, then a cupola (the fastigium)
    ensures name(info) == "triangular prism" ==>
      r.Some? && |r.value| == 2
      && GetUsingType(r.value[0]) == Some(Pyramid) && GetUsingType(r.value[1]) == Some(Cupola)
    // the rotunda-capable solids offer a cupola, then a rotunda
    ensures name(info) != "triangular prism" && HasRotunda(info) ==>
      r.Some? && |r.value| == 2
      && GetUsingType(r.value[0]) == Some(Cupola) && GetUsingType(r.value[1]) == Some(Rotunda)
  {
    if name(info) == "triangular prism" then Some(["Y4", "U2"])
    else if HasRotunda(info) then Some(["U5", "R5"])
    else None
  }

  /**
   * The offered codes are well formed and all fit the same face size, so
   * they are genuine alternatives for one face: 4 sides for the triangular
   * prism, 10 for the rotunda-capable solids.
   */
  lemma UsingOptsAlternatives(name: Naming, info: Spec)
    requires GetUsingOpts(name, info).Some?
    ensures var opts := GetUsingOpts(name, info).value;
      var sides := if name(info) == "triangular prism" then 4 else 10;
      forall u :: u in opts ==> GetUsingType(u).Some? && GetAugmenteeNumSides(u) == Some(sides)
  {
  }

  /** `hasGyrateOpts`: capstones of cupolae or rotundae that are not gyroelongated or digonal, and composites of the rhombicosidodecahedron. */
  predicate HasGyrateOpts(name: Naming, info: Spec)
  {
    if info.Capstone? then
      if info.IsGyroelongated() then false
      else !info.IsDigonal() && !info.IsPyramid()
    else if info.Composite? then name(info.source) == "rhombicosidodecahedron"
    else false
  }

  /** `canApplyTo`: the applicability table over the spec variants. */
  predicate CanApplyTo(name: Naming, info: Spec)
  {
    match info
    case Prismatic(base, prismType) => if info.IsAntiprism() && base == 3 then false else base > 2
    case Capstone(_, _, _, _, _) => info.IsMono()
    case Composite(source, augmented, diminished, _, _) =>
      if name(source) == "rhombicosidodecahedron" then diminished > 0
      else if name(source) == "icosahedron" then diminished > 0 && augmented == 0
      else if source.Prismatic? then augmented < (if source.base % 3 == 0 then 3 else 2) && !info.IsPara()
      else if source.Classical? then augmented < source.family - 2 && !info.IsPara()
      else false
    case Elementary(_) => name(info) == "sphenocorona"
    case Classical(_, _) => false
  }

  /**
   * The augmentation applies to no Platonic or Archimedean solid, to exactly
   * the single capstones, to the prismatics other than the digonal ones and
   * the triangular antiprism (the octahedron), to composites with a free
   * position left, and of the elementary solids to the sphenocorona alone.
   */
  lemma CanApplyToVariants(name: Naming, info: Spec)
    ensures info.Classical? ==> !CanApplyTo(name, info)
    ensures info.Capstone? ==> (CanApplyTo(name, info) <==> info.count == 1)
    ensures info.Prismatic? ==> (CanApplyTo(name, info) <==> info.base > 3 || (info.base == 3 && info.prismType == Prism))
    ensures info.Composite? && name(info.source) == "rhombicosidodecahedron" ==>
      (CanApplyTo(name, info) <==> info.diminished > 0)
    ensures info.Composite? && name(info.source) != "rhombicosidodecahedron" && name(info.source) == "icosahedron" ==>
      (CanApplyTo(name, info) <==> info.diminished > 0 && info.augmented == 0)
    ensures info.Composite? && name(info.source) !in {"rhombicosidodecahedron", "icosahedron"} && info.source.Prismatic? ==>
      (CanApplyTo(name, info) <==> info.augmented < (if info.source.base % 3 == 0 then 3 else 2) && info.align != Some(Para))
    ensures info.Composite? && name(info.source) !in {"rhombicosidodecahedron", "icosahedron"} && info.source.Classical? ==>
      (CanApplyTo(name, info) <==> info.augmented < info.source.family - 2 && info.align != Some(Para))
    ensures (info.Composite? && name(info.source) !in {"rhombicosidodecahedron", "icosahedron"}
             && !info.source.Prismatic? && !info.source.Classical?) ==> !CanApplyTo(name, info)
    ensures info.Elementary? ==> (CanApplyTo(name, info) <==> name(info) == "sphenocorona")
  {
  }

  /** The cap type a kind of augmentee makes. */
  function CapOf(kind: AugmentType): CapType
  {
    match kind
    case Pyramid => PyramidCap
    case Cupola => CupolaCap
    case Rotunda => RotundaCap
  }

  /**
   * `getResult`: the spec after augmenting a face of `numSides` sides. The
   * code used is resolved by `getUsingOpt` first, which throws when none
   * applies. `faceAlign` is the para or meta position of the chosen face
   * against the existing cap, which the source measures geometrically.
   */
  function GetResult(name: Naming, info: Spec, numSides: nat, using: Option<string>, gyrate: Option<Gyrate>, faceAlign: Align): (r: Result<Spec, AugmentError>)
    ensures GetUsingOpt(numSides, using).None? ==> r == Err(UnresolvedUsing)
    ensures info.Classical? ==> r.Err?
  {
    match GetUsingOpt(numSides, using)
    case None => Err(UnresolvedUsing)
    case Some(code) =>
      var d := GetUsingData(code);
      match info
      case Prismatic(_, prismType) =>
        if d.kind.None? || d.base.None? then Err(UnknownAugmentType)
        else Ok(Capstone(d.base.value, CapOf(d.kind.value), 1, Some(prismType), None))
      case Capstone(base, capType, _, elongation, _) =>
        var newType := if d.kind.Some? && CapOf(d.kind.value) == capType then capType else CupolaRotundaCap;
        Ok(Capstone(base, newType, 2, elongation, if d.base == Some(2) then Some(Gyro) else gyrate))
      case Composite(source, augmented, diminished, gyrated, align) =>
        if name(source) == "rhombicosidodecahedron" then
          if gyrate == Some(Ortho) then Ok(Composite(source, augmented, Dec(diminished), Inc(gyrated), align))
          else Ok(Composite(source, augmented, Dec(diminished), gyrated, Some(Meta)))
        else if name(source) == "icosahedron" then
          if d.base == Some(3) then Ok(Composite(source, 1, diminished, gyrated, align))
          else Ok(Composite(source, augmented, Dec(diminished), gyrated, Some(Meta)))
        else
          Ok(Composite(source, Inc(augmented), diminished, gyrated,
                       if HasAugmentAlignment(info) then Some(faceAlign) else None))
      case Elementary(_) => Ok(Elementary("augmented sphenocorona"))
      case Classical(_, _) => Err(Unclassifiable)
  }

  /** A well-formed code: it names both a kind and a base. */
  predicate ResolvesFully(code: string)
  {
    GetUsingData(code).kind.Some? && GetUsingData(code).base.Some?
  }

  /**
   * Whenever the operation applies and the code it resolves to is well
   * formed, there is a result: `canApplyTo` and the transition table agree.
   */
  lemma ApplicableHasResult(name: Naming, info: Spec, numSides: nat, using: Option<string>, gyrate: Option<Gyrate>, faceAlign: Align)
    requires CanApplyTo(name, info)
    requires GetUsingOpt(numSides, using).Some? && ResolvesFully(GetUsingOpt(numSides, using).value)
    ensures GetResult(name, info, numSides, using, gyrate, faceAlign).Ok?
  {
  }

  /** Without a code of its own, a face of a size in the default table always resolves to a well-formed code. */
  lemma DefaultResolves(numSides: nat)
    requires DefaultAugmentee(numSides).Some?
    ensures GetUsingOpt(numSides, None).Some? && ResolvesFully(GetUsingOpt(numSides, None).value)
  {
  }

  /**
   * Augmenting a single capstone gives a bicapstone on the same base and
   * elongation, to which the operation no longer applies. Its gyrate value is
   * "gyro" when the code's base is 2 (the gyrobifastigium), else the chosen one.
   */
  lemma CapstoneAugmentsOnce(name: Naming, info: Spec, numSides: nat, using: Option<string>, gyrate: Option<Gyrate>, faceAlign: Align)
    requires info.Capstone? && GetResult(name, info, numSides, using, gyrate, faceAlign).Ok?
    ensures var r := GetResult(name, info, numSides, using, gyrate, faceAlign).value;
      var d := GetUsingData(GetUsingOpt(numSides, using).value);
      && r.Capstone? && r.count == 2 && r.base == info.base && r.elongation == info.elongation
      && r.gyrate == (if d.base == Some(2) then Some(Gyro) else gyrate)
      && !CanApplyTo(name, r)
  {
  }

  /**
   * The cap type of the bicapstone is kept when the added cap is of the
   * same kind, and becomes the cupola-rotunda when it is not.
   */
  lemma CapstoneCapType(name: Naming, info: Spec, numSides: nat, using: Option<string>, gyrate: Option<Gyrate>, faceAlign: Align)
    requires info.Capstone? && GetResult(name, info, numSides, using, gyrate, faceAlign).Ok?
    ensures var r := GetResult(name, info, numSides, using, gyrate, faceAlign).value;
      var kind := GetUsingData(GetUsingOpt(numSides, using).value).kind;
      r.capType == (if kind.Some? && CapOf(kind.value) == info.capType then info.capType else CupolaRotundaCap)
    ensures var r := GetResult(name, info, numSides, using, gyrate, faceAlign).value;
      var kind := GetUsingData(GetUsingOpt(numSides, using).value).kind;
      (r.capType == info.capType) <==> (kind.Some? && CapOf(kind.value) == info.capType) || info.capType == CupolaRotundaCap
  {
  }

  /**
   * Augmenting a prismatic solid gives a single capstone elongated by it,
   * whose base and cap are those the code names, and to which the operation
   * applies again. It succeeds exactly when the code names both.
   */
  lemma PrismaticBecomesCapstone(name: Naming, info: Spec, numSides: nat, using: Option<string>, gyrate: Option<Gyrate>, faceAlign: Align)
    requires info.Prismatic? && GetUsingOpt(numSides, using).Some?
    ensures GetResult(name, info, numSides, using, gyrate, faceAlign).Ok? <==> ResolvesFully(GetUsingOpt(numSides, using).value)
    ensures GetResult(name, info, numSides, using, gyrate, faceAlign).Ok? ==>
      var r := GetResult(name, info, numSides, using, gyrate, faceAlign).value;
      var d := GetUsingData(GetUsingOpt(numSides, using).value);
      && r.Capstone? && r.count == 1 && r.elongation == Some(info.prismType) && r.gyrate.None?
      && d.base == Some(r.base) && d.kind.Some? && r.capType == CapOf(d.kind.value)
      && CanApplyTo(name, r)
  {
  }

  /**
   * A composite stays a composite of the same source. On the
   * rhombicosidodecahedron one diminished position is refilled, turning
   * into a gyrated one exactly when "ortho" is chosen, and recorded as meta
   * otherwise. On the icosahedron a triangular pyramid makes it the
   * augmented icosahedron, and anything else refills a diminished position
   * as meta. Elsewhere the augmented count goes up by one.
   */
  lemma CompositeTransition(name: Naming, info: Spec, numSides: nat, using: Option<string>, gyrate: Option<Gyrate>, faceAlign: Align)
    requires info.Composite? && GetResult(name, info, numSides, using, gyrate, faceAlign).Ok?
    ensures var r := GetResult(name, info, numSides, using, gyrate, faceAlign).value;
      && r.Composite? && r.source == info.source
      && (name(info.source) == "rhombicosidodecahedron" ==>
            && r.augmented == info.augmented && r.diminished == info.diminished - 1
            && r.gyrated == info.gyrated + (if gyrate == Some(Ortho) then 1 else 0))
      && (name(info.source) == "rhombicosidodecahedron" ==>
            r.align == (if gyrate == Some(Ortho) then info.align else Some(Meta)))
      && (name(info.source) != "rhombicosidodecahedron" && name(info.source) == "icosahedron" ==>
            var d := GetUsingData(GetUsingOpt(numSides, using).value);
            && r.gyrated == info.gyrated
            && (if d.base == Some(3)
                then r.augmented == 1 && r.diminished == info.diminished && r.align == info.align
                else r.augmented == info.augmented && r.diminished == info.diminished - 1 && r.align == Some(Meta)))
      && (name(info.source) != "rhombicosidodecahedron" && name(info.source) != "icosahedron" ==>
            && r.augmented == info.augmented + 1 && r.diminished == info.diminished && r.gyrated == info.gyrated
            && r.align == (if HasAugmentAlignment(info) then Some(faceAlign) else None))
  {
  }

  /** The sphenocorona, the one elementary solid the operation applies to, becomes the augmented sphenocorona. */
  lemma ElementaryResult(name: Naming, info: Spec, numSides: nat, using: Option<string>, gyrate: Option<Gyrate>, faceAlign: Align)
    requires info.Elementary? && GetUsingOpt(numSides, using).Some?
    ensures GetResult(name, info, numSides, using, gyrate, faceAlign) == Ok(Elementary("augmented sphenocorona"))
  {
  }

  /** An icosahedron composite that can be augmented cannot be augmented again with a pyramid. */
  lemma IcosahedronOnce(name: Naming, info: Spec, numSides: nat, using: Option<string>, gyrate: Option<Gyrate>, faceAlign: Align)
    requires info.Composite? && name(info.source) == "icosahedron" && name(info.source) != "rhombicosidodecahedron"
    requires CanApplyTo(name, info) && GetResult(name, info, numSides, using, gyrate, faceAlign).Ok?
    requires GetUsingData(GetUsingOpt(numSides, using).value).base == Some(3)
    ensures !CanApplyTo(name, GetResult(name, info, numSides, using, gyrate, faceAlign).value)
  {
  }

  /**
   * Where gyrate options are offered, they are genuine alternatives: on a
   * capstone (other than through the triangular prism, which is always
   * "gyro") and on a rhombicosidodecahedron composite, "ortho" and "gyro"
   * give different results.
   */
  lemma GyrateOptsDistinguish(name: Naming, info: Spec, numSides: nat, using: Option<string>, faceAlign: Align)
    requires HasGyrateOpts(name, info) && GetUsingOpt(numSides, using).Some?
    requires GetUsingData(GetUsingOpt(numSides, using).value).base != Some(2)
    ensures GetResult(name, info, numSides, using, Some(Ortho), faceAlign).Ok?
    ensures GetResult(name, info, numSides, using, Some(Gyro), faceAlign).Ok?
    ensures GetResult(name, info, numSides, using, Some(Ortho), faceAlign) != GetResult(name, info, numSides, using, Some(Gyro), faceAlign)
  {
  }

  /** `isPreferredSpec`: which of several specs of the same solid is kept for the result. */
  function IsPreferredSpec(name: Naming, info: Spec, numSides: nat, using: Option<string>): (r: Result<bool, AugmentError>)
    ensures r.Err? <==> GetUsingOpt(numSides, using).None?
    // a square pyramid on a prism's side face is not the prismatic spec's result
    ensures (GetUsingOpt(numSides, using).Some? && info.IsPrism()
             && GetUsingData(GetUsingOpt(numSides, using).value) == UsingData(Some(Pyramid), Some(4))) ==> r == Ok(false)
    // on the triangular prism the code decides: a cupola makes the fastigium capstone,
    // a base of 3 the prismatic, anything else the composite
    ensures (GetUsingOpt(numSides, using).Some? && name(info) == "triangular prism"
             && !(info.IsPrism() && GetUsingData(GetUsingOpt(numSides, using).value) == UsingData(Some(Pyramid), Some(4)))) ==>
      var d := GetUsingData(GetUsingOpt(numSides, using).value);
      r == Ok(if d.kind == Some(Cupola) then info.Capstone?
              else if d.base == Some(3) then info.Prismatic?
              else info.Composite?)
    // every other spec is preferred
    ensures (GetUsingOpt(numSides, using).Some? && name(info) != "triangular prism"
             && !(info.IsPrism() && GetUsingData(GetUsingOpt(numSides, using).value) == UsingData(Some(Pyramid), Some(4)))) ==>
      r == Ok(true)
  {
    match GetUsingOpt(numSides, using)
    case None => Err(UnresolvedUsing)
    case Some(code) =>
      var d := GetUsingData(code);
      if d.base == Some(4) && d.kind == Some(Pyramid) && info.IsPrism() then Ok(false)
      else if name(info) == "triangular prism" then
        if d.kind == Some(Cupola) then Ok(info.Capstone?)
        else if d.base == Some(3) then Ok(info.Prismatic?)
        else Ok(info.Composite?)
      else Ok(true)
  }

  /**
   * For the triangular prism, which the catalog lists under more than one
   * spec variant, at most one variant is preferred for any choice of code.
   */
  lemma PreferredUnique(name: Naming, a: Spec, b: Spec, numSides: nat, using: Option<string>)
    requires name(a) == "triangular prism" && name(b) == "triangular prism"
    requires a.Prismatic? || a.Capstone? || a.Composite?
    requires b.Prismatic? || b.Capstone? || b.Composite?
    requires IsPreferredSpec(name, a, numSides, using) == Ok(true)
    requires IsPreferredSpec(name, b, numSides, using) == Ok(true)
    ensures a.Prismatic? == b.Prismatic? && a.Capstone? == b.Capstone? && a.Composite? == b.Composite?
  {
  }

  /** One option combination offered by the operation. */
  datatype Combo = Combo(gyrate: Option<Gyrate>, using: Option<string>, face: Face)

  /** The gyrate options iterated over: both when the spec has them, else only "undefined". */
  function GyrateOpts(name: Naming, info: Spec): (r: seq<Option<Gyrate>>)
    ensures |r| > 0
  {
    if HasGyrateOpts(name, info) then [Some(Ortho), Some(Gyro)] else [None]
  }

  /** The `using` options iterated over: the spec's codes, else only "undefined". */
  function UsingOpts(name: Naming, info: Spec): (r: seq<Option<string>>)
    ensures |r| > 0
  {
    match GetUsingOpts(name, info)
    case Some(codes) => seq(|codes|, i requires 0 <= i < |codes| => Some(codes[i]))
    case None => [None]
  }

  /** The filter of `allOptionCombos`: no code, or a code whose augmentee fits the face. */
  predicate UsingPasses(fits: Fits, face: Face, using: Option<string>)
  {
    !Truthy(using) || AugmentableWith(fits, face, using.value) == Ok(true)
  }

  /** The combinations for one face and gyrate value, over the first `|us|` using options. */
  function UsingCombos(fits: Fits, face: Face, g: Option<Gyrate>, us: seq<Option<string>>): seq<Combo>
  {
    if |us| == 0 then []
    else
      UsingCombos(fits, face, g, us[..|us| - 1])
      + (if UsingPasses(fits, face, us[|us| - 1]) then [Combo(g, us[|us| - 1], face)] else [])
  }

  /** The combinations for one face, gyrate-major. */
  function GyrateCombos(fits: Fits, face: Face, gs: seq<Option<Gyrate>>, us: seq<Option<string>>): seq<Combo>
  {
    if |gs| == 0 then []
    else GyrateCombos(fits, face, gs[..|gs| - 1], us) + UsingCombos(fits, face, gs[|gs| - 1], us)
  }

  /** The combinations over a list of faces, face-major. */
  function FaceCombos(fits: Fits, fs: seq<Face>, gs: seq<Option<Gyrate>>, us: seq<Option<string>>): seq<Combo>
  {
    if |fs| == 0 then []
    else FaceCombos(fits, fs[..|fs| - 1], gs, us) + GyrateCombos(fits, fs[|fs| - 1], gs, us)
  }

  /**
   * The faces that can be augmented, in order: the face option source.
   * `AugmentableFacesInOrder` gives the order.
   */
  function AugmentableFaces(fits: Fits, faces: seq<Face>): (r: seq<Face>)
    ensures |r| <= |faces|
    ensures forall f :: f in r <==> f in faces && Augmentable(fits, f)
  {
    if |faces| == 0 then []
    else
      var rest := AugmentableFaces(fits, faces[..|faces| - 1]);
      var last := faces[|faces| - 1];
      assert forall f :: f in faces <==> f in faces[..|faces| - 1] || f == last;
      rest + (if Augmentable(fits, last) then [last] else [])
  }

  /**
   * The augmentable faces are the face list with the positions of the others
   * removed, so by `WithoutKeepsOrder` they keep their relative order: the
   * `j`-th of them sits at the `j`-th position not rejected.
   */
  lemma {:induction false} AugmentableFacesInOrder(fits: Fits, faces: seq<Face>)
    ensures AugmentableFaces(fits, faces) == Without(faces, Rejected(fits, faces))
    ensures var r := AugmentableFaces(fits, faces); var at := Kept(|faces|, Rejected(fits, faces));
      && |r| == |at|
      && (forall j :: 0 <= j < |r| ==> at[j] < |faces| && r[j] == faces[at[j]])
      && (forall a, b :: 0 <= a < b < |at| ==> at[a] < at[b])
  {
    WithoutKeepsOrder(faces, Rejected(fits, faces));
    KeptExactly(|faces|, Rejected(fits, faces));
    if |faces| > 0 {
      var n := |faces| - 1;
      AugmentableFacesInOrder(fits, faces[..n]);
      assert forall i :: 0 <= i < n ==> faces[..n][i] == faces[i];
      WithoutAgrees(faces[..n], Rejected(fits, faces[..n]), Rejected(fits, faces));
    }
  }

  /** The positions of the faces that cannot be augmented. */
  function Rejected(fits: Fits, faces: seq<Face>): set<nat>
  {
    set i: nat | i < |faces| && !Augmentable(fits, faces[i])
  }

  /** A combination for one face and gyrate value is one of the passing using options. */
  lemma {:induction false} UsingCombosExactly(fits: Fits, face: Face, g: Option<Gyrate>, us: seq<Option<string>>, c: Combo)
    ensures |UsingCombos(fits, face, g, us)| <= |us|
    ensures c in UsingCombos(fits, face, g, us) <==>
      c.face == face && c.gyrate == g && c.using in us && UsingPasses(fits, face, c.using)
  {
    if |us| > 0 {
      var init := us[..|us| - 1];
      UsingCombosExactly(fits, face, g, init, c);
      assert forall u :: u in us <==> u in init || u == us[|us| - 1];
    }
  }

  /** A combination for one face is one of its gyrate values with one of the passing using options. */
  lemma {:induction false} GyrateCombosExactly(fits: Fits, face: Face, gs: seq<Option<Gyrate>>, us: seq<Option<string>>, c: Combo)
    ensures |GyrateCombos(fits, face, gs, us)| <= |gs| * |us|
    ensures c in GyrateCombos(fits, face, gs, us) <==>
      c.face == face && c.gyrate in gs && c.using in us && UsingPasses(fits, face, c.using)
  {
    if |gs| > 0 {
      var init := gs[..|gs| - 1];
      GyrateCombosExactly(fits, face, init, us, c);
      UsingCombosExactly(fits, face, gs[|gs| - 1], us, c);
      assert forall g :: g in gs <==> g in init || g == gs[|gs| - 1];
      MulSucc(|init|, |us|);
    }
  }

  /** The combinations over a list of faces are every face, gyrate value and passing code, and no more. */
  lemma {:induction false} FaceCombosExactly(fits: Fits, fs: seq<Face>, gs: seq<Option<Gyrate>>, us: seq<Option<string>>, c: Combo)
    ensures |FaceCombos(fits, fs, gs, us)| <= |fs| * (|gs| * |us|)
    ensures c in FaceCombos(fits, fs, gs, us) <==>
      c.face in fs && c.gyrate in gs && c.using in us && UsingPasses(fits, c.face, c.using)
  {
    if |fs| > 0 {
      var init := fs[..|fs| - 1];
      FaceCombosExactly(fits, init, gs, us, c);
      GyrateCombosExactly(fits, fs[|fs| - 1], gs, us, c);
      assert forall f :: f in fs <==> f in init || f == fs[|fs| - 1];
      MulSucc(|init|, |gs| * |us|);
    }
  }

  /**
   * The combinations are face-major: those of a list of faces followed by
   * more faces are the combinations of the first list, then those of the rest.
   */
  lemma {:induction false} FaceCombosAppend(fits: Fits, fs: seq<Face>, more: seq<Face>, gs: seq<Option<Gyrate>>, us: seq<Option<string>>)
    ensures FaceCombos(fits, fs + more, gs, us) == FaceCombos(fits, fs, gs, us) + FaceCombos(fits, more, gs, us)
  {
    if |more| > 0 {
      var init := more[..|more| - 1];
      FaceCombosAppend(fits, fs, init, gs, us);
      assert (fs + more)[..|fs + more| - 1] == fs + init;
      assert (fs + more)[|fs + more| - 1] == more[|more| - 1];
    } else {
      assert fs + more == fs;
    }
  }

  /** The combinations for a single face all carry that face. */
  lemma SingleFaceCombos(fits: Fits, f: Face, gs: seq<Option<Gyrate>>, us: seq<Option<string>>)
    ensures forall c :: c in FaceCombos(fits, [f], gs, us) ==> c.face == f
  {
    forall c | c in FaceCombos(fits, [f], gs, us)
      ensures c.face == f
    {
      FaceCombosExactly(fits, [f], gs, us, c);
    }
  }

  /** The codes offered are all well formed, so the filter never meets an unknown prefix. */
  lemma UsingOptsKnown(name: Naming, info: Spec, fits: Fits, face: Face)
    ensures forall u :: u in UsingOpts(name, info) && Truthy(u) ==> AugmentableWith(fits, face, u.value).Ok?
  {
    forall u | u in UsingOpts(name, info) && Truthy(u)
      ensures GetUsingType(u.value).Some?
    {
      var codes := GetUsingOpts(name, info).value;
      var i :| 0 <= i < |codes| && UsingOpts(name, info)[i] == u;
      UsingOptsAlternatives(name, info);
      assert u.value in codes;
    }
  }

  /**
   * `allOptionCombos`: for each face that can be augmented, each gyrate
   * option and each `using` option, the combination, when the code is absent
   * or its augmentee fits the face.
   */
  method AllOptionCombos(fits: Fits, name: Naming, info: Spec, faces: seq<Face>) returns (combos: seq<Combo>)
    ensures combos == FaceCombos(fits, AugmentableFaces(fits, faces), GyrateOpts(name, info), UsingOpts(name, info))
  {
    combos := CombosOver(fits, AugmentableFaces(fits, faces), GyrateOpts(name, info), UsingOpts(name, info));
  }

  /** The outer loop of `allOptionCombos`: face by face. */
  method CombosOver(fits: Fits, fs: seq<Face>, gs: seq<Option<Gyrate>>, us: seq<Option<string>>) returns (combos: seq<Combo>)
    ensures combos == FaceCombos(fits, fs, gs, us)
  {
    combos := [];
    for i := 0 to |fs|
      invariant combos == FaceCombos(fits, fs[..i], gs, us)
    {
      var more := FaceOptionCombos(fits, fs[i], gs, us);
      FaceCombosStep(fits, fs, gs, us, i);
      combos := combos + more;
    }
    assert fs[..|fs|] == fs;
  }

  /** The middle loop of `allOptionCombos`: one face, gyrate value by gyrate value. */
  method FaceOptionCombos(fits: Fits, face: Face, gs: seq<Option<Gyrate>>, us: seq<Option<string>>) returns (combos: seq<Combo>)
    ensures combos == GyrateCombos(fits, face, gs, us)
  {
    combos := [];
    for j := 0 to |gs|
      invariant combos == GyrateCombos(fits, face, gs[..j], us)
    {
      var more := GyrateOptionCombos(fits, face, gs[j], us);
      GyrateCombosStep(fits, face, gs, us, j);
      combos := combos + more;
    }
    assert gs[..|gs|] == gs;
  }

  /** The inner loop of `allOptionCombos`: one face and gyrate value, code by code. */
  method GyrateOptionCombos(fits: Fits, face: Face, g: Option<Gyrate>, us: seq<Option<string>>) returns (combos: seq<Combo>)
    ensures combos == UsingCombos(fits, face, g, us)
  {
    combos := [];
    for k := 0 to |us|
      invariant combos == UsingCombos(fits, face, g, us[..k])
    {
      var pass := UsingFilter(fits, face, us[k]);
      UsingCombosStep(fits, face, g, us, k);
      if pass {
        combos := combos + [Combo(g, us[k], face)];
      }
    }
    assert us[..|us|] == us;
  }

  /** The test in the innermost loop of `allOptionCombos`: no code, or `canAugmentWithType` holds. */
  method UsingFilter(fits: Fits, face: Face, u: Option<string>) returns (pass: bool)
    ensures pass <==> !Truthy(u) || AugmentableWith(fits, face, u.value) == Ok(true)
  {
    pass := true;
    if Truthy(u) {
      var res := CanAugmentWithType(fits, face, u.value);
      pass := res == Ok(true);
    }
  }

  /** One more code in the innermost loop of `allOptionCombos`. */
  lemma UsingCombosStep(fits: Fits, face: Face, g: Option<Gyrate>, us: seq<Option<string>>, k: nat)
    requires k < |us|
    ensures UsingCombos(fits, face, g, us[..k + 1])
            == UsingCombos(fits, face, g, us[..k]) + (if UsingPasses(fits, face, us[k]) then [Combo(g, us[k], face)] else [])
  {
    assert us[..k + 1][..k] == us[..k];
  }

  /** One more gyrate value in the middle loop of `allOptionCombos`. */
  lemma GyrateCombosStep(fits: Fits, face: Face, gs: seq<Option<Gyrate>>, us: seq<Option<string>>, j: nat)
    requires j < |gs|
    ensures GyrateCombos(fits, face, gs[..j + 1], us) == GyrateCombos(fits, face, gs[..j], us) + UsingCombos(fits, face, gs[j], us)
  {
    assert gs[..j + 1][..j] == gs[..j];
  }

  /** One more face in the outer loop of `allOptionCombos`. */
  lemma FaceCombosStep(fits: Fits, fs: seq<Face>, gs: seq<Option<Gyrate>>, us: seq<Option<string>>, i: nat)
    requires i < |fs|
    ensures FaceCombos(fits, fs[..i + 1], gs, us) == FaceCombos(fits, fs[..i], gs, us) + GyrateCombos(fits, fs[i], gs, us)
  {
    assert fs[..i + 1][..i] == fs[..i];
  }

  /**
   * Every offered combination is for a face that can be augmented, with a
   * gyrate value among the gyrate options and a code among the using options
   * that is absent or fits the face; every such combination is offered; and
   * there are at most faces × gyrate options × using options of them.
   */
  lemma AllOptionCombosExactly(fits: Fits, name: Naming, info: Spec, faces: seq<Face>, c: Combo)
    ensures var combos := FaceCombos(fits, AugmentableFaces(fits, faces), GyrateOpts(name, info), UsingOpts(name, info));
      && |combos| <= |faces| * (|GyrateOpts(name, info)| * |UsingOpts(name, info)|)
      && (c in combos <==>
            && c.face in faces && Augmentable(fits, c.face)
            && c.gyrate in GyrateOpts(name, info) && c.using in UsingOpts(name, info)
            && (!Truthy(c.using) || AugmentableWith(fits, c.face, c.using.value) == Ok(true)))
  {
    var fs := AugmentableFaces(fits, faces);
    var gs, us := GyrateOpts(name, info), UsingOpts(name, info);
    FaceCombosExactly(fits, fs, gs, us, c);
    AugmentableCombosBound(fits, faces, gs, us);
  }

  /** Filtering the faces first only lowers the bound on the number of combinations. */
  lemma AugmentableCombosBound(fits: Fits, faces: seq<Face>, gs: seq<Option<Gyrate>>, us: seq<Option<string>>)
    ensures |FaceCombos(fits, AugmentableFaces(fits, faces), gs, us)| <= |faces| * (|gs| * |us|)
  {
    var fs := AugmentableFaces(fits, faces);
    var m := |gs| * |us|;
    FaceCombosExactly(fits, fs, gs, us, Combo(None, None, Face(0, [])));
    MulMono(|fs|, |faces|, m);
  }

  /** One more row of `m`. */
  lemma MulSucc(a: nat, m: nat)
    ensures (a + 1) * m == a * m + m
  {
  }

  /** Multiplication by a natural number is monotone. */
  lemma MulMono(a: nat, b: nat, c: nat)
    requires a <= b
    ensures a * c <= b * c
  {
  }

  /** The selection state of a face in the picker. */
  datatype SelectionState = Selected | Selectable

  /** The state of one face: selected if it is the chosen face, else selectable when it can take the augmentee. */
  function FaceSelectionState(fits: Fits, f: Face, face: Option<Face>, using: Option<string>): Result<Option<SelectionState>, AugmentError>
  {
    if face.Some? && f == face.value then Ok(Some(Selected))
    else if !Truthy(using) then Ok(if Augmentable(fits, f) then Some(Selectable) else None)
    else
      match AugmentableWith(fits, f, using.value)
      case Err(e) => Err(e)
      case Ok(b) => Ok(if b then Some(Selectable) else None)
  }

  /**
   * `faceSelectionStates`: one state per face, in order; the code's prefix
   * is checked for every face that is not the chosen one, so an unknown
   * prefix makes it throw.
   */
  function FaceSelectionStates(fits: Fits, faces: seq<Face>, face: Option<Face>, using: Option<string>): (r: Result<seq<Option<SelectionState>>, AugmentError>)
    ensures r.Ok? ==> |r.value| == |faces|
    ensures r.Ok? ==> forall i :: 0 <= i < |faces| ==> FaceSelectionState(fits, faces[i], face, using) == Ok(r.value[i])
    ensures r.Err? ==> exists i :: 0 <= i < |faces| && FaceSelectionState(fits, faces[i], face, using).Err?
  {
    if |faces| == 0 then Ok([])
    else
      match FaceSelectionState(fits, faces[0], face, using)
      case Err(e) => Err(e)
      case Ok(s) =>
        match FaceSelectionStates(fits, faces[1..], face, using)
        case Err(e) =>
          var i :| 0 <= i < |faces[1..]| && FaceSelectionState(fits, faces[1..][i], face, using).Err?;
          assert faces[1..][i] == faces[i + 1];
          Err(e)
        case Ok(rest) =>
          assert forall i :: 1 <= i < |faces| ==> faces[i] == faces[1..][i - 1];
          Ok([s] + rest)
  }

  /**
   * The meaning of one face's state: the chosen face is selected whatever
   * else holds; any other face is selectable exactly when it can be
   * augmented (without a code) or takes the code's augmentee (with one).
   */
  lemma FaceSelectionStateMeaning(fits: Fits, f: Face, face: Option<Face>, using: Option<string>)
    ensures face == Some(f) ==> FaceSelectionState(fits, f, face, using) == Ok(Some(Selected))
    ensures face != Some(f) && !Truthy(using) ==>
      (FaceSelectionState(fits, f, face, using) == Ok(Some(Selectable)) <==> Augmentable(fits, f))
    ensures face != Some(f) && Truthy(using) && GetUsingType(using.value).Some? ==>
      (FaceSelectionState(fits, f, face, using) == Ok(Some(Selectable)) <==> AugmentableWith(fits, f, using.value) == Ok(true))
    ensures FaceSelectionState(fits, f, face, using).Ok? ==> FaceSelectionState(fits, f, face, using).value != Some(Selected) || face == Some(f)
  {
  }

  /** With a well-formed code, or none, the selection states are always produced. */
  lemma FaceSelectionStatesTotal(fits: Fits, faces: seq<Face>, face: Option<Face>, using: Option<string>)
    requires Truthy(using) ==> GetUsingType(using.value).Some?
    ensures FaceSelectionStates(fits, faces, face, using).Ok?
  {
    forall i | 0 <= i < |faces|
      ensures FaceSelectionState(fits, faces[i], face, using).Ok?
    {
    }
  }

  /** The names of the operation's options. */
  datatype OptionName = GyrateOption | UsingOption | FaceOption

  /** The values `allOptions` lists for one option. */
  datatype OptionValues = Gyrates(gyrates: seq<Gyrate>) | Usings(usings: seq<string>) | Faces(faces: seq<Face>)

  /** `allOptions`: the gyrate values, the codes, or the faces that can be augmented. */
  function AllOptions(fits: Fits, name: Naming, info: Spec, faces: seq<Face>, option: OptionName): OptionValues
  {
    match option
    case GyrateOption => Gyrates(if HasGyrateOpts(name, info) then [Ortho, Gyro] else [])
    case UsingOption => Usings(match GetUsingOpts(name, info) case Some(codes) => codes case None => [])
    case FaceOption => Faces(AugmentableFaces(fits, faces))
  }

  /** The defaults the operation proposes. */
  datatype DefaultOpts = DefaultOpts(gyrate: Option<Gyrate>, using: Option<string>)

  /** `defaultOptions`: "gyro" when there are gyrate options, and the first code when there is a choice of codes. */
  function DefaultOptions(name: Naming, info: Spec): DefaultOpts
  {
    var codes := match GetUsingOpts(name, info) case Some(cs) => cs case None => [];
    DefaultOpts(if HasGyrateOpts(name, info) then Some(Gyro) else None,
                if |codes| > 1 && codes[0] != "" then Some(codes[0]) else None)
  }

  /**
   * Every default is one of the values `allOptions` lists for that option, and
   * a default exists whenever a choice does: "gyro" for the gyrate option and
   * the first offered code for the code option.
   */
  lemma DefaultsAreOptions(fits: Fits, name: Naming, info: Spec, faces: seq<Face>)
    ensures DefaultOptions(name, info).gyrate.Some? <==> |AllOptions(fits, name, info, faces, GyrateOption).gyrates| > 0
    ensures DefaultOptions(name, info).gyrate.Some? ==>
      DefaultOptions(name, info).gyrate.value in AllOptions(fits, name, info, faces, GyrateOption).gyrates
    ensures DefaultOptions(name, info).using.Some? <==> |AllOptions(fits, name, info, faces, UsingOption).usings| > 1
    ensures DefaultOptions(name, info).using.Some? ==>
      DefaultOptions(name, info).using.value in AllOptions(fits, name, info, faces, UsingOption).usings
    ensures DefaultOptions(name, info).gyrate.Some? ==> DefaultOptions(name, info).gyrate.value == Gyro
    ensures DefaultOptions(name, info).using.Some? ==>
      DefaultOptions(name, info).using.value == AllOptions(fits, name, info, faces, UsingOption).usings[0]
      && DefaultOptions(name, info).using.value == GetUsingOpts(name, info).value[0]
  {
  }

  /** The options `getHitOption` is given: a chosen code, possibly absent. */
  datatype HitOptions = HitOptions(using: Option<string>)

  /**
   * `getHitOption`: the face under the pointer, when it can be augmented
   * (without a code) or takes the code's augmentee (with one); nothing when
   * there are no options. The ray picking that finds `hit` is not modelled.
   */
  function GetHitOption(fits: Fits, hit: Face, options: Option<HitOptions>): (r: Result<Option<Face>, AugmentError>)
    ensures options.None? ==> r == Ok(None)
    ensures r.Ok? && r.value.Some? ==> r.value.value == hit
    ensures options.Some? && !Truthy(options.value.using) ==> (r == Ok(Some(hit)) <==> Augmentable(fits, hit))
    ensures options.Some? && Truthy(options.value.using) ==>
      (r == Ok(Some(hit)) <==> AugmentableWith(fits, hit, options.value.using.value) == Ok(true))
  {
    if options.None? then Ok(None)
    else if !Truthy(options.value.using) then Ok(if Augmentable(fits, hit) then Some(hit) else None)
    else
      match AugmentableWith(fits, hit, options.value.using.value)
      case Err(e) => Err(e)
      case Ok(b) => Ok(if b then Some(hit) else None)
  }

  /** A face the pointer picks is one the picker shows as selectable, unless it is already the chosen face. */
  lemma HitOptionSelectable(fits: Fits, hit: Face, using: Option<string>, face: Option<Face>)
    requires GetHitOption(fits, hit, Some(HitOptions(using))) == Ok(Some(hit))
    ensures FaceSelectionState(fits, hit, face, using) == Ok(Some(if face == Some(hit) then Selected else Selectable))
  {
  }
}
