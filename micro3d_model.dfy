/**
 * ru.woesss.j2me.micro3d.Model: the buffer sizes a MascotCapsule figure
 * allocates for its triangles and quads, and the material flags of its
 * polygons. Uploading to the GPU is not part of this model.
 */
module Micro3DModel {
  import JavaInt

  // ---------------------------------------------------------------- polygons

  const TRANSPARENT: int := 1
  const BLEND_HALF: int := 2
  const BLEND_ADD: int := 4
  const BLEND_SUB: int := 6
  const DOUBLE_FACE: int := 16
  const LIGHTING: int := 32
  const SPECULAR: int := 64

  /** `(material & DOUBLE_FACE) >> 4`: bit 4 of the Java int, as 0 or 1. */
  function DoubleFaceOf(material: int): (r: int)
    ensures r == 0 || r == 1
    ensures r == 1 <==> (material / DOUBLE_FACE) % 2 == 1
  {
    (material / 16) % 2
  }

  /** `material & BLEND_SUB`: bits 1 and 2 of the Java int. */
  function BlendModeOf(material: int): (r: int)
    ensures r in {0, BLEND_HALF, BLEND_ADD, BLEND_SUB}
  {
    ((material / 2) % 4) * 2
  }

  /**
   * The blend mode ignores every other flag: two materials that differ by
   * whole multiples of 8 or by the transparency bit blend alike, and adding
   * a blend mode to a material whose bits 1 and 2 are clear gives that mode.
   */
  lemma BlendModeIgnoresOtherFlags(material: int, k: int, blend: int)
    requires blend in {0, BLEND_HALF, BLEND_ADD, BLEND_SUB}
    requires (material / 2) % 4 == 0
    ensures BlendModeOf(material + 8 * k) == BlendModeOf(material)
    ensures BlendModeOf(material + blend) == blend
  {
    assert (material + 8 * k) / 2 == material / 2 + 4 * k;
    assert (material + blend) / 2 == material / 2 + blend / 2;
  }

  /** Model.Polygon: the material decoded once, when the polygon is built. */
  class Polygon {
    const indices: seq<int>
    const blendMode: int
    const doubleFace: int
    var texCoords: seq<int>
    var face: int
    var pattern: int

    constructor (material: int, texCoords: seq<int>, indices: seq<int>)
      ensures this.indices == indices && this.texCoords == texCoords
      ensures doubleFace == DoubleFaceOf(material) && blendMode == BlendModeOf(material)
      ensures face == -1 && pattern == 0
    {
      this.indices := indices;
      this.texCoords := texCoords;
      doubleFace := (material / 16) % 2;
      blendMode := ((material / 2) % 4) * 2;
      face := -1;
      pattern := 0;
    }
  }

  // ---------------------------------------------------------------- sizes

  /** Index entries for the given triangles and quads: 3 per triangle, 6 per quad (two triangles). */
  function IndexCount(triangles: nat, quads: nat): nat
  {
    3 * triangles + 6 * quads
  }

  /** The index count splits between textured and coloured polygons, and never falls short of the textured part. */
  lemma IndexCountSplits(polyT3: nat, polyT4: nat, polyC3: nat, polyC4: nat)
    ensures IndexCount(polyT3 + polyC3, polyT4 + polyC4) == IndexCount(polyT3, polyT4) + IndexCount(polyC3, polyC4)
    ensures IndexCount(polyT3, polyT4) <= IndexCount(polyT3 + polyC3, polyT4 + polyC4)
  {
  }

  /**
   * Model. The counts come from the figure's header. Counts whose buffer
   * sizes overflow a Java int are excluded by the constructor's requires:
   * there the wrapped size either makes the allocation throw (when it is
   * negative) or silently allocates a buffer of the wrong length.
   * Float buffers hold `real`; the infinite sentinel stored in the last
   * vertex slot is left out.
   */
  class Model {
    const numPatterns: int
    const hasPolyC: bool
    const hasPolyT: bool
    const texCoordArray: array<int>
    const originalVertices: array<real>
    const polygonsC: array<Polygon?>
    const polygonsT: array<Polygon?>
    const vertices: array<real>
    const vertexArrayCapacity: int
    const subMeshesLengthsT: array3<int>
    const subMeshesLengthsC: array2<int>
    const numVerticesPolyT: int
    const indices: array<int>
    const bones: array<int>
    const hasBlendModeT: array<bool>
    const hasBlendModeC: array<bool>
    var modifiedSinceFlush: bool

    /** The relations between the sizes that the constructor fixes. */
    ghost predicate Valid()
      reads this
    {
      && numVerticesPolyT <= indices.Length
      && vertexArrayCapacity == 3 * indices.Length
      && texCoordArray.Length == 5 * indices.Length
      && vertices.Length == originalVertices.Length + 3
      && (hasPolyT <==> polygonsT.Length > 0)
      && (hasPolyC <==> polygonsC.Length > 0)
    }

    constructor (numVertices: nat, numBones: nat, patterns: int, numTextures: nat,
                 polyT3: nat, polyT4: nat, polyC3: nat, polyC4: nat)
      requires JavaInt.IsInt(5 * IndexCount(polyT3 + polyC3, polyT4 + polyC4))
      requires JavaInt.IsInt(3 * numVertices + 3) && JavaInt.IsInt(56 * numBones)
      ensures Valid()
      ensures numPatterns == patterns
      ensures numVerticesPolyT == IndexCount(polyT3, polyT4)
      ensures indices.Length == IndexCount(polyT3 + polyC3, polyT4 + polyC4)
      ensures polygonsC.Length == polyC3 + polyC4 && polygonsT.Length == polyT3 + polyT4
      ensures originalVertices.Length == 3 * numVertices
      ensures subMeshesLengthsT.Length0 == 4 && subMeshesLengthsT.Length1 == numTextures && subMeshesLengthsT.Length2 == 2
      ensures subMeshesLengthsC.Length0 == 4 && subMeshesLengthsC.Length1 == 2
      ensures bones.Length == numBones * (12 + 2) * 4
      ensures hasBlendModeC.Length == 4 && hasBlendModeT.Length == 4
      ensures modifiedSinceFlush
    {
      numPatterns := patterns;
      subMeshesLengthsT := new int[4, numTextures, 2];
      subMeshesLengthsC := new int[4, 2];
      numVerticesPolyT := polyT3 * 3 + polyT4 * 6;
      var count := (polyT3 + polyC3) * 3 + (polyT4 + polyC4) * 6;
      indices := new int[count];
      vertexArrayCapacity := count * 3;
      polygonsC := new Polygon?[polyC3 + polyC4];
      polygonsT := new Polygon?[polyT3 + polyT4];
      hasPolyT := polyT3 + polyT4 > 0;
      hasPolyC := polyC3 + polyC4 > 0;
      texCoordArray := new int[count * 5];
      originalVertices := new real[numVertices * 3];
      hasBlendModeC := new bool[4];
      hasBlendModeT := new bool[4];
      var i := numVertices * 3 + 3;
      vertices := new real[i];
      bones := new int[numBones * (12 + 2) * 4];
      modifiedSinceFlush := true;
    }
  }
}
