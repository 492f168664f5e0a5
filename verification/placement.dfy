/** World placement of a generated asset (pipeline/utils/placement.py): pick
    the target surface, resolve the position (spec position, surface-centre
    substitution, snap of the up axis to the surface top plus clearance), test
    the object's footprint against occupied regions in the XZ plane, and
    assemble the world patch document with its defaults and warnings.

    The 4x4 transform matrix (trigonometry) is not part of this model. */
module Placement {
  import opened Common
  import opened Context
  import Checks

  // ---------------------------------------------------------------------------
  // Mesh extents
  // ---------------------------------------------------------------------------

  const FallbackExtent: real := 0.5

  function MinR(a: real, b: real): real { if a <= b then a else b }
  function MaxR(a: real, b: real): real { if a >= b then a else b }

  /** The axis-aligned box around all of `ms` (what the extents of
      `trimesh.util.concatenate(ms)` measure): it contains every mesh's box
      and each of its faces is a face of some mesh's box. */
  function UnionBox(ms: seq<Checks.MeshFacts>): (b: (Vec3, Vec3))
    requires |ms| > 0
    ensures forall i :: 0 <= i < |ms| ==>
      b.0.x <= ms[i].lo.x && b.0.y <= ms[i].lo.y && b.0.z <= ms[i].lo.z &&
      ms[i].hi.x <= b.1.x && ms[i].hi.y <= b.1.y && ms[i].hi.z <= b.1.z
    ensures exists i :: 0 <= i < |ms| && b.0.x == ms[i].lo.x
    ensures exists i :: 0 <= i < |ms| && b.1.x == ms[i].hi.x
    ensures exists i :: 0 <= i < |ms| && b.0.y == ms[i].lo.y
    ensures exists i :: 0 <= i < |ms| && b.1.y == ms[i].hi.y
    ensures exists i :: 0 <= i < |ms| && b.0.z == ms[i].lo.z
    ensures exists i :: 0 <= i < |ms| && b.1.z == ms[i].hi.z
  {
    var m := ms[|ms| - 1];
    if |ms| == 1 then (m.lo, m.hi)
    else
      var b := UnionBox(ms[..|ms| - 1]);
      (Vec3(MinR(b.0.x, m.lo.x), MinR(b.0.y, m.lo.y), MinR(b.0.z, m.lo.z)),
       Vec3(MaxR(b.1.x, m.hi.x), MaxR(b.1.y, m.hi.y), MaxR(b.1.z, m.hi.z)))
  }

  /** `_get_mesh_extents`: the box sides of the loaded mesh, of all meshes of
      a scene together, or 0.5 on every axis when loading raised, the scene
      holds no mesh or the object is of another type. */
  function MeshExtents(load: Checks.LoadOutcome): Vec3 {
    var fallback := Vec3(FallbackExtent, FallbackExtent, FallbackExtent);
    if load.LoadRaised? then fallback
    else if load.scene.SingleMesh? then load.scene.mesh.Extents()
    else if load.scene.SceneGraph? then
      var ms := Checks.TrimeshesIn(load.scene.geometry);
      if |ms| == 0 then fallback
      else
        var b := UnionBox(ms);
        Vec3(b.1.x - b.0.x, b.1.y - b.0.y, b.1.z - b.0.z)
    else fallback
  }

  /** Extents are never negative when every mesh's bounds are ordered. */
  lemma MeshExtentsNonNegative(load: Checks.LoadOutcome)
    requires load.LoadedScene? && load.scene.SingleMesh? ==>
      var m := load.scene.mesh; m.lo.x <= m.hi.x && m.lo.y <= m.hi.y && m.lo.z <= m.hi.z
    requires load.LoadedScene? && load.scene.SceneGraph? ==>
      forall m :: m in Checks.TrimeshesIn(load.scene.geometry) ==>
        m.lo.x <= m.hi.x && m.lo.y <= m.hi.y && m.lo.z <= m.hi.z
    ensures var e := MeshExtents(load); e.x >= 0.0 && e.y >= 0.0 && e.z >= 0.0
  {
    if load.LoadedScene? && load.scene.SceneGraph? {
      var ms := Checks.TrimeshesIn(load.scene.geometry);
      if |ms| > 0 {
        var b := UnionBox(ms);
        assert ms[0] in ms;
        assert b.0.x <= ms[0].lo.x <= ms[0].hi.x <= b.1.x;
        assert b.0.y <= ms[0].lo.y <= ms[0].hi.y <= b.1.y;
        assert b.0.z <= ms[0].lo.z <= ms[0].hi.z <= b.1.z;
      }
    }
  }

  // ---------------------------------------------------------------------------
  // Surface lookup
  // ---------------------------------------------------------------------------

  /** Python truthiness of the requested surface id. */
  predicate IdGiven(sid: Option<string>) {
    sid.Some? && sid.value != ""
  }

  /** The index of the first surface whose id is `sid` (|surfaces| if none). */
  function FirstMatch(surfaces: seq<Surface>, sid: string): (i: nat)
    ensures i <= |surfaces|
    ensures forall j :: 0 <= j < i ==> surfaces[j].id != Some(sid)
    ensures i < |surfaces| ==> surfaces[i].id == Some(sid)
  {
    if surfaces == [] then 0
    else if surfaces[0].id == Some(sid) then 0
    else 1 + FirstMatch(surfaces[1..], sid)
  }

  /** The surface `_find_surface` picks. */
  function SurfaceFor(surfaces: seq<Surface>, sid: Option<string>): (r: Option<Surface>)
    ensures r.None? <==> surfaces == []
    ensures r.Some? ==> r.value in surfaces
    ensures IdGiven(sid) && (exists i :: 0 <= i < |surfaces| && surfaces[i].id == sid) ==>
      r == Some(surfaces[FirstMatch(surfaces, sid.value)]) && r.value.id == sid
    ensures surfaces != [] && !(IdGiven(sid) && exists i :: 0 <= i < |surfaces| && surfaces[i].id == sid) ==>
      r == Some(surfaces[0])
  {
    if surfaces == [] then None
    else if IdGiven(sid) && FirstMatch(surfaces, sid.value) < |surfaces| then
      Some(surfaces[FirstMatch(surfaces, sid.value)])
    else Some(surfaces[0])
  }

  /** `_find_surface`: a linear search with early return. */
  method FindSurface(surfaces: seq<Surface>, sid: Option<string>) returns (r: Option<Surface>)
    ensures r == SurfaceFor(surfaces, sid)
  {
    if surfaces == [] {
      return None;
    }
    if IdGiven(sid) {
      var i := 0;
      while i < |surfaces|
        invariant 0 <= i <= |surfaces|
        invariant forall j :: 0 <= j < i ==> surfaces[j].id != sid
      {
        if surfaces[i].id == sid {
          assert FirstMatch(surfaces, sid.value) == i;
          return Some(surfaces[i]);
        }
        i := i + 1;
      }
    }
    return Some(surfaces[0]);
  }

  // ---------------------------------------------------------------------------
  // Position
  // ---------------------------------------------------------------------------

  /** The world's up axis, upper-cased, "Y" when absent. */
  function UpAxis(world: WorldContext): string {
    UpperString(world.upAxis.GetOr("Y"))
  }

  /** The surface top: `max_y` when truthy, else `pose.y + height`, else 0. */
  function SurfaceTop(s: Surface): real {
    if s.maxY.Some? && s.maxY.value != 0.0 then s.maxY.value
    else s.poseY.GetOr(0.0) + s.height.GetOr(0.0)
  }

  /** A spec vector (position or rotation) with missing coordinates read as 0.0. */
  function FilledVec(p: PartialVec): Vec3 {
    Vec3(p.x.GetOr(0.0), p.y.GetOr(0.0), p.z.GetOr(0.0))
  }

  /** Whether the surface takes part (`if surface:`). */
  predicate Snaps(surface: Option<Surface>) {
    surface.Some? && surface.value.Truthy()
  }

  /** The value of `_resolve_position`, written as one expression. */
  function Resolved(specPos: PartialVec, surface: Option<Surface>, clearance: real, up: string): Vec3 {
    var p := FilledVec(specPos);
    if !Snaps(surface) then p
    else
      var s := surface.value;
      var x := if p.x == 0.0 && s.centerX.Some? then s.centerX.value else p.x;
      var z := if p.z == 0.0 && s.centerZ.Some? then s.centerZ.value else p.z;
      var top := SurfaceTop(s) + clearance;
      if up == "Y" then Vec3(x, top, z)
      else if up == "Z" then Vec3(x, p.y, top)
      else Vec3(x, p.y, z)
  }

  /** `_resolve_position`: starts from the spec position and overwrites its
      coordinates one by one. The mesh's half height is computed by the source
      but never used, so it is not a parameter here. */
  method ResolvePosition(specPos: PartialVec, surface: Option<Surface>, clearance: real, up: string)
    returns (pos: Vec3)
    ensures pos == Resolved(specPos, surface, clearance, up)
  {
    pos := Vec3(specPos.x.GetOr(0.0), specPos.y.GetOr(0.0), specPos.z.GetOr(0.0));
    if Snaps(surface) {
      var s := surface.value;
      var top := SurfaceTop(s);
      if pos.x == 0.0 && s.centerX.Some? {
        pos := pos.(x := s.centerX.value);
      }
      if pos.z == 0.0 && s.centerZ.Some? {
        pos := pos.(z := s.centerZ.value);
      }
      if up == "Y" {
        pos := pos.(y := top + clearance);
      } else if up == "Z" {
        pos := pos.(z := top + clearance);
      }
    }
  }

  /** Without a (non-empty) surface the spec position is returned, missing
      coordinates being 0.0. */
  lemma NoSurfaceKeepsSpec(specPos: PartialVec, surface: Option<Surface>, clearance: real, up: string)
    requires !Snaps(surface)
    ensures Resolved(specPos, surface, clearance, up) == Vec3(specPos.x.GetOr(0.0), specPos.y.GetOr(0.0), specPos.z.GetOr(0.0))
  {
  }

  /** With a surface, the up-axis coordinate ("Y" or "Z", in either case) is
      the surface top plus the clearance; any other axis name snaps nothing. */
  lemma SnapToSurfaceTop(specPos: PartialVec, surface: Option<Surface>, clearance: real, world: WorldContext)
    requires Snaps(surface)
    ensures var r := Resolved(specPos, surface, clearance, UpAxis(world));
      (world.upAxis.None? || world.upAxis == Some("y") || world.upAxis == Some("Y")) ==>
        r.y == SurfaceTop(surface.value) + clearance
    ensures var r := Resolved(specPos, surface, clearance, UpAxis(world));
      (world.upAxis == Some("z") || world.upAxis == Some("Z")) ==>
        r.z == SurfaceTop(surface.value) + clearance && r.y == specPos.y.GetOr(0.0)
    ensures var r := Resolved(specPos, surface, clearance, UpAxis(world));
      UpAxis(world) != "Y" && UpAxis(world) != "Z" ==>
        r.y == specPos.y.GetOr(0.0) && r.y == FilledVec(specPos).y
  {
    assert UpperString("y") == "Y" && UpperString("Y") == "Y";
    assert UpperString("z") == "Z" && UpperString("Z") == "Z";
  }

  /** x (and z unless z is the up axis) is the bbox centre exactly when the
      spec value is 0.0 (or missing) and the centre key is present. */
  lemma CentreSubstitution(specPos: PartialVec, surface: Option<Surface>, clearance: real, up: string)
    requires Snaps(surface)
    ensures var r := Resolved(specPos, surface, clearance, up); var s := surface.value;
      r.x == (if specPos.x.GetOr(0.0) == 0.0 && s.centerX.Some? then s.centerX.value else specPos.x.GetOr(0.0))
    ensures var r := Resolved(specPos, surface, clearance, up); var s := surface.value;
      up != "Z" ==>
        r.z == (if specPos.z.GetOr(0.0) == 0.0 && s.centerZ.Some? then s.centerZ.value else specPos.z.GetOr(0.0))
  {
  }

  /** A `max_y` of 0 is falsy and falls through to the pose-based top, exactly
      as if it were absent. */
  lemma ZeroMaxYFallsThrough(s: Surface)
    requires s.maxY == Some(0.0)
    ensures SurfaceTop(s) == SurfaceTop(s.(maxY := None))
    ensures SurfaceTop(s) == s.poseY.GetOr(0.0) + s.height.GetOr(0.0)
  {
  }

  // ---------------------------------------------------------------------------
  // Occupied regions
  // ---------------------------------------------------------------------------

  /** The object's footprint p +- extent/2 strictly overlaps the region on both
      x and z (missing region bounds read as 0). */
  predicate Overlaps(pos: Vec3, ext: Vec3, r: Region) {
    var hx := ext.x / 2.0;
    var hz := ext.z / 2.0;
    pos.x + hx > r.minX.GetOr(0.0) && pos.x - hx < r.maxX.GetOr(0.0) &&
    pos.z + hz > r.minZ.GetOr(0.0) && pos.z - hz < r.maxZ.GetOr(0.0)
  }

  predicate AnyOverlap(pos: Vec3, ext: Vec3, regions: seq<Region>) {
    exists i :: 0 <= i < |regions| && Overlaps(pos, ext, regions[i])
  }

  /** `_check_occupied`: a linear search with early return. */
  method CheckOccupied(pos: Vec3, ext: Vec3, regions: seq<Region>) returns (hit: bool)
    ensures hit <==> AnyOverlap(pos, ext, regions)
  {
    var hx := ext.x / 2.0;
    var hz := ext.z / 2.0;
    var i := 0;
    while i < |regions|
      invariant 0 <= i <= |regions|
      invariant forall j :: 0 <= j < i ==> !Overlaps(pos, ext, regions[j])
    {
      var r := regions[i];
      var overlapX := pos.x + hx > r.minX.GetOr(0.0) && pos.x - hx < r.maxX.GetOr(0.0);
      var overlapZ := pos.z + hz > r.minZ.GetOr(0.0) && pos.z - hz < r.maxZ.GetOr(0.0);
      if overlapX && overlapZ {
        return true;
      }
      i := i + 1;
    }
    return false;
  }

  /** The y coordinate and the y extent play no part, and no region means no
      overlap. */
  lemma OverlapIgnoresY(pos: Vec3, ext: Vec3, regions: seq<Region>, y: real, ey: real)
    ensures AnyOverlap(pos, ext, regions) == AnyOverlap(pos.(y := y), ext.(y := ey), regions)
    ensures !AnyOverlap(pos, ext, [])
  {
    if AnyOverlap(pos, ext, regions) {
      var i :| 0 <= i < |regions| && Overlaps(pos, ext, regions[i]);
      assert Overlaps(pos.(y := y), ext.(y := ey), regions[i]);
    }
    if AnyOverlap(pos.(y := y), ext.(y := ey), regions) {
      var i :| 0 <= i < |regions| && Overlaps(pos.(y := y), ext.(y := ey), regions[i]);
      assert Overlaps(pos, ext, regions[i]);
    }
  }

  /** Geometric meaning, one direction: for a footprint of positive size and
      an ordered region, an overlap means some point lies inside the open
      footprint and the closed region on both axes. */
  lemma OverlapHasCommonPoint(pos: Vec3, ext: Vec3, r: Region) returns (px: real, pz: real)
    requires ext.x > 0.0 && ext.z > 0.0
    requires r.minX.GetOr(0.0) <= r.maxX.GetOr(0.0) && r.minZ.GetOr(0.0) <= r.maxZ.GetOr(0.0)
    requires Overlaps(pos, ext, r)
    ensures pos.x - ext.x / 2.0 < px < pos.x + ext.x / 2.0
    ensures r.minX.GetOr(0.0) <= px <= r.maxX.GetOr(0.0)
    ensures pos.z - ext.z / 2.0 < pz < pos.z + ext.z / 2.0
    ensures r.minZ.GetOr(0.0) <= pz <= r.maxZ.GetOr(0.0)
  {
    var lo := MaxR(pos.x - ext.x / 2.0, r.minX.GetOr(0.0));
    var hi := MinR(pos.x + ext.x / 2.0, r.maxX.GetOr(0.0));
    px := (lo + hi) / 2.0;
    var loz := MaxR(pos.z - ext.z / 2.0, r.minZ.GetOr(0.0));
    var hiz := MinR(pos.z + ext.z / 2.0, r.maxZ.GetOr(0.0));
    pz := (loz + hiz) / 2.0;
  }

  /** Geometric meaning, other direction: a common point means an overlap. */
  lemma CommonPointOverlaps(pos: Vec3, ext: Vec3, r: Region, px: real, pz: real)
    requires pos.x - ext.x / 2.0 < px < pos.x + ext.x / 2.0
    requires r.minX.GetOr(0.0) <= px <= r.maxX.GetOr(0.0)
    requires pos.z - ext.z / 2.0 < pz < pos.z + ext.z / 2.0
    requires r.minZ.GetOr(0.0) <= pz <= r.maxZ.GetOr(0.0)
    ensures Overlaps(pos, ext, r)
  {
  }

  // ---------------------------------------------------------------------------
  // Warnings and the patch document
  // ---------------------------------------------------------------------------

  const OverlapWarning: string := "Proposed position overlaps an occupied region – manual adjustment may be needed"
  const NoSurfaceWarning: string := "No target surface found – position inferred from spec only"

  /** `_collect_warnings`: the overlap warning first, then the missing-surface
      warning (for `surface is None`, not for an empty surface). */
  method CollectWarnings(collisionWarn: bool, surface: Option<Surface>) returns (w: seq<string>)
    ensures OverlapWarning in w <==> collisionWarn
    ensures NoSurfaceWarning in w <==> surface.None?
    ensures |w| == (if collisionWarn then 1 else 0) + (if surface.None? then 1 else 0)
    ensures collisionWarn ==> w[0] == OverlapWarning
    ensures surface.None? ==> w[|w| - 1] == NoSurfaceWarning
  {
    w := [];
    if collisionWarn {
      w := w + [OverlapWarning];
    }
    if surface.None? {
      w := w + [NoSurfaceWarning];
    }
  }

  datatype WorldPatch = WorldPatch(
    schemaVersion: string,
    worldId: string,
    name: string,
    category: string,
    assetUri: string,
    position: Vec3,
    rotationDeg: Vec3,
    scale: Vec3,
    targetSurfaceId: string,
    clearanceM: real,
    anchors: seq<string>,
    collisionAllowed: bool,
    gravity: real,
    isStatic: bool,
    collisionMesh: string,
    warnings: seq<string>)

  /** `compute_world_patch` without the transform matrix. */
  method ComputeWorldPatch(glbPath: string, load: Checks.LoadOutcome, spec: AssetSpec, world: WorldContext)
    returns (patch: WorldPatch)
    ensures patch.schemaVersion == "1.0" && patch.assetUri == glbPath
    ensures patch.worldId == world.worldId.GetOr("unknown")
    ensures patch.name == spec.obj.name.GetOr("generated_asset")
    ensures patch.category == spec.obj.category.GetOr("prop")
    ensures patch.scale == Vec3(1.0, 1.0, 1.0)
    ensures patch.rotationDeg == FilledVec(spec.placement.rotationDeg)
    ensures patch.targetSurfaceId ==
      (if IdGiven(spec.placement.targetSurfaceId) then spec.placement.targetSurfaceId.value else "unknown")
    ensures patch.clearanceM == spec.placement.clearanceM.GetOr(0.02)
    ensures patch.anchors == spec.placement.anchors.GetOr(["sit_flat"])
    ensures patch.collisionAllowed == spec.placement.collisionAllowed.GetOr(false)
    ensures patch.gravity == world.gravity.GetOr(9.81)
    ensures patch.isStatic && patch.collisionMesh == "convex_hull"
    ensures patch.position == Resolved(spec.placement.position,
      SurfaceFor(world.surfaces, spec.placement.targetSurfaceId), patch.clearanceM, UpAxis(world))
    ensures OverlapWarning in patch.warnings <==>
      !patch.collisionAllowed && AnyOverlap(patch.position, MeshExtents(load), world.occupiedRegions)
    ensures NoSurfaceWarning in patch.warnings <==> world.surfaces == []
    ensures patch.warnings ==
      (if !patch.collisionAllowed && AnyOverlap(patch.position, MeshExtents(load), world.occupiedRegions)
       then [OverlapWarning] else [])
      + (if world.surfaces == [] then [NoSurfaceWarning] else [])
  {
    var placement := spec.placement;
    var extents := MeshExtents(load);
    var surface := FindSurface(world.surfaces, placement.targetSurfaceId);
    var clearance := placement.clearanceM.GetOr(0.02);
    var position := ResolvePosition(placement.position, surface, clearance, UpAxis(world));
    var rotation := FilledVec(placement.rotationDeg);
    var collisionOk := placement.collisionAllowed.GetOr(false);
    var collisionWarn := false;
    if !collisionOk {
      collisionWarn := CheckOccupied(position, extents, world.occupiedRegions);
    }
    var warnings := CollectWarnings(collisionWarn, surface);
    patch := WorldPatch(
      "1.0",
      world.worldId.GetOr("unknown"),
      spec.obj.name.GetOr("generated_asset"),
      spec.obj.category.GetOr("prop"),
      glbPath,
      position,
      rotation,
      Vec3(1.0, 1.0, 1.0),
      if IdGiven(placement.targetSurfaceId) then placement.targetSurfaceId.value else "unknown",
      clearance,
      placement.anchors.GetOr(["sit_flat"]),
      collisionOk,
      world.gravity.GetOr(9.81),
      true,
      "convex_hull",
      warnings);
  }
}
