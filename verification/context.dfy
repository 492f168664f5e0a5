/** The two JSON documents every stage reads: the asset spec produced by the
    language model and the world context supplied by the caller. Only the keys
    the modelled code looks at are represented; a key the code reads with a
    default is an `Option`, and a missing nested object behaves like an empty
    one (all its keys absent). */
module Context {
  import opened Common

  datatype Vec3 = Vec3(x: real, y: real, z: real)

  /** `materials[i]["pbr"]`; a missing "pbr" object is `Pbr(None, None, None)`. */
  datatype Pbr = Pbr(baseColor: Option<string>, metallic: Option<real>, roughness: Option<real>)

  datatype Material = Material(pbr: Pbr)

  /** `asset_spec["object"]` */
  datatype ObjectInfo = ObjectInfo(
    name: Option<string>,
    category: Option<string>,
    description: Option<string>,
    sizeM: map<string, real>,       // "size_m"; missing is the empty map
    materials: seq<Material>)       // missing is the empty list

  /** `asset_spec["generation_plan"]` (with its "quality_targets"). */
  datatype GenerationPlan = GenerationPlan(
    preferredGenerator: Option<string>,
    promptForGenerator: Option<string>,
    maxTris: Option<real>)          // "quality_targets"."max_tris"

  /** A partial position or rotation: each coordinate may be missing. */
  datatype PartialVec = PartialVec(x: Option<real>, y: Option<real>, z: Option<real>)

  /** `asset_spec["placement"]` */
  datatype PlacementSpec = PlacementSpec(
    targetSurfaceId: Option<string>,
    position: PartialVec,           // "pose"."position"
    rotationDeg: PartialVec,        // "pose"."rotation_euler_deg"
    clearanceM: Option<real>,
    anchors: Option<seq<string>>,
    collisionAllowed: Option<bool>)

  datatype AssetSpec = AssetSpec(
    obj: ObjectInfo,
    plan: GenerationPlan,
    placement: PlacementSpec)

  /** A surface's "bbox" and "pose" entries that placement reads.
      `otherKeys` records whether the surface object has any key besides the
      entries represented here (an empty "bbox" object, a "type", ...). */
  datatype Surface = Surface(
    id: Option<string>,
    maxY: Option<real>,
    height: Option<real>,
    centerX: Option<real>,
    centerZ: Option<real>,
    poseY: Option<real>,
    otherKeys: bool)
  {
    /** Python truthiness of the surface dict: it is truthy unless empty. */
    predicate Truthy() {
      id.Some? || maxY.Some? || height.Some? || centerX.Some? || centerZ.Some? || poseY.Some? || otherKeys
    }
  }

  /** An occupied region's "bbox" in the XZ plane. */
  datatype Region = Region(
    minX: Option<real>, maxX: Option<real>,
    minZ: Option<real>, maxZ: Option<real>)

  datatype WorldContext = WorldContext(
    worldId: Option<string>,
    units: Option<string>,
    upAxis: Option<string>,
    surfaces: seq<Surface>,         // missing is the empty list
    occupiedRegions: seq<Region>,   // missing is the empty list
    gravity: Option<real>)          // "physics"."gravity"
}
