/**
 * The classification of a named solid, as a closed sum type. The spec
 * classes of the application are not part of this model; their predicate
 * methods (`isMono`, `isPara`, `isIcosahedral`, ...) are read off the
 * fields with their evident meaning.
 */
module Specs {
  import opened Wrappers

  /** The two kinds of prismatic solid. */
  datatype PrismType = Prism | Antiprism

  /** What a capstone is capped with. */
  datatype CapType = PyramidCap | CupolaCap | RotundaCap | CupolaRotundaCap

  /** The relative rotation of two caps, or of a cap against its neighbours. */
  datatype Gyrate = Ortho | Gyro

  /** The relative position of two augmentations on a composite solid. */
  datatype Align = Para | Meta

  /**
   * A spec: a Platonic or Archimedean solid (its symmetry family 3, 4 or 5
   * and the operation applied), a prism or antiprism, a capstone (one or two
   * caps on an optional prism or antiprism), a composite (augmentations,
   * diminishings and gyrations of a source solid), or an elementary solid
   * known by name.
   */
  datatype Spec =
    | Classical(family: nat, operation: string)
    | Prismatic(base: nat, prismType: PrismType)
    | Capstone(base: nat, capType: CapType, count: nat, elongation: Option<PrismType>, gyrate: Option<Gyrate>)
    | Composite(source: Spec, augmented: int, diminished: int, gyrated: int, align: Option<Align>)
    | Elementary(name: string)
  {
    predicate IsPrism() { Prismatic? && prismType == Prism }

    predicate IsAntiprism() { Prismatic? && prismType == Antiprism }

    /** A capstone with a single cap. */
    predicate IsMono() { Capstone? && count == 1 }

    predicate IsPyramid() { Capstone? && capType == PyramidCap }

    predicate IsDigonal() { Capstone? && base == 2 }

    predicate IsPentagonal() { Capstone? && base == 5 }

    /** A capstone elongated by an antiprism. */
    predicate IsGyroelongated() { Capstone? && elongation == Some(Antiprism) }

    /** A composite whose two augmentations are on opposite sides. */
    predicate IsPara() { Composite? && align == Some(Para) }

    /** A Platonic or Archimedean solid of the icosahedral family. */
    predicate IsIcosahedral() { Classical? && family == 5 }
  }

  /** `inc` of the cut-and-paste utilities: one more. */
  function Inc(n: int): (r: int)
    ensures r > n
  {
    n + 1
  }

  /** `dec` of the cut-and-paste utilities: one fewer. */
  function Dec(n: int): (r: int)
    ensures r < n
  {
    n - 1
  }
}
