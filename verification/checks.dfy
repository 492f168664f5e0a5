/** Automated validation of a cleaned GLB (pipeline/validation/checks.py).
    `RunAllChecks` runs twelve checks in a fixed order, turns an exception in
    a check into a failing entry, carries the mesh loaded by `check_can_load`
    forward to the later checks, and derives a rounded score, a summary line
    and an overall verdict that only six "hard" checks decide.

    Everything trimesh and pygltflib compute (loading, face counts, bounds,
    areas, normals) is an input: `Env` and `MeshFacts`. */
module Checks {
  import opened Common
  import opened Context

  // ---------------------------------------------------------------------------
  // Inputs produced by the mesh libraries
  // ---------------------------------------------------------------------------

  /** What trimesh reports about one mesh. */
  datatype MeshFacts = MeshFacts(
    faceCount: nat,
    allTriangles: bool,               // every face has three vertices
    isVolume: bool,
    zeroNormalCount: nat,             // face normals of norm < 1e-6 (0 without normals)
    windingConsistent: Option<bool>,  // None when reading the property raised
    degenerateCount: nat,             // faces of area < 1e-10
    lo: Vec3,                         // mesh.bounds[0]
    hi: Vec3,                         // mesh.bounds[1]
    isWatertight: bool,
    vertexColourCount: nat)
  {
    /** `mesh.bounding_box.extents`: the sides of the axis-aligned box. */
    function Extents(): Vec3 {
      Vec3(hi.x - lo.x, hi.y - lo.y, hi.z - lo.z)
    }
  }

  datatype Geometry = TrimeshGeometry(mesh: MeshFacts) | OtherGeometry

  /** What `trimesh.load(..., force="scene")` returned. */
  datatype Scene = SingleMesh(mesh: MeshFacts) | SceneGraph(geometry: seq<Geometry>) | OtherObject

  datatype LoadOutcome = LoadRaised(error: string) | LoadedScene(scene: Scene)

  /** What pygltflib reports for the GLB's texture and image arrays. */
  datatype TextureInspection = GltfRaised(error: string) | GltfCounts(textures: nat, images: nat)

  datatype CheckKind =
    | FileExists | CanLoad | Polycount | NoInvertedNormals | NoNgons | NoDegenerateFaces
    | BboxVsSpec | RealisticScale | TexturesPresent | PivotAtBase | Watertight | WorldUnitMatch

  /** The environment of one validation run. `faults` names the checks whose
      library calls raise an exception the check itself does not catch, with
      the exception's text. `check_textures_present` catches every exception
      of its own, so an environment that names it describes no real run. */
  datatype Env = Env(
    path: string,
    fileNonEmpty: bool,               // glb_path.exists() and st_size > 0
    load: LoadOutcome,
    gltf: TextureInspection,
    faults: map<CheckKind, string>)

  // ---------------------------------------------------------------------------
  // Results
  // ---------------------------------------------------------------------------

  /** One failing axis of the bounding-box check. */
  datatype AxisError = AxisError(axis: string, meshVal: real, specVal: real, relErr: real)

  /** A check's message. Messages that Python formats from floats are kept as
      the values they are formatted from. */
  datatype Message =
    | Text(text: string)
    | PolycountReport(tris: nat, maxTris: real)
    | BboxFailures(failures: seq<AxisError>)
    | ScaleReport(extents: Vec3, units: string, maxM: real)
    | PivotReport(lateralSq: real, baseY: real, threshold: real)
    | UnitMismatch(maxExtent: real)
    | UnitReport(units: string, maxExtent: real)

  datatype CheckResult = CheckResult(name: string, passed: bool, message: Message, meshRef: Option<MeshFacts>)

  /** What calling a check produced: its result dict, or an exception. */
  datatype Outcome = Returned(result: CheckResult) | Raised(error: string)

  /** A report entry: the result dict without its "mesh_ref". The loop pops
      that key only when it is not None, so the entry of a failing
      `check_can_load` still carries `"mesh_ref": None`; entries here do not
      record that key. */
  datatype Entry = Entry(name: string, passed: bool, message: Message)

  datatype Report = Report(passed: bool, score: real, checks: seq<Entry>, summary: string)

  // ---------------------------------------------------------------------------
  // The fixed check list
  // ---------------------------------------------------------------------------

  const Order: seq<CheckKind> := [
    FileExists, CanLoad, Polycount, NoInvertedNormals, NoNgons, NoDegenerateFaces,
    BboxVsSpec, RealisticScale, TexturesPresent, PivotAtBase, Watertight, WorldUnitMatch
  ]

  /** The Python function name of each check (`fn.__name__`). */
  function CheckName(k: CheckKind): string {
    match k
    case FileExists => "check_file_exists"
    case CanLoad => "check_can_load"
    case Polycount => "check_polycount"
    case NoInvertedNormals => "check_no_inverted_normals"
    case NoNgons => "check_no_ngons"
    case NoDegenerateFaces => "check_no_degenerate_faces"
    case BboxVsSpec => "check_bbox_vs_spec"
    case RealisticScale => "check_realistic_scale"
    case TexturesPresent => "check_textures_present"
    case PivotAtBase => "check_pivot_at_base"
    case Watertight => "check_watertight"
    case WorldUnitMatch => "check_world_unit_match"
  }

  const HardFailNames: set<string> := {
    "check_file_exists", "check_can_load", "check_no_inverted_normals",
    "check_bbox_vs_spec", "check_realistic_scale", "check_textures_present"
  }

  const DefaultMaxTris: real := 80000.0
  const BboxToleranceFrac: real := 0.30
  const HardMinM: real := 0.01
  const HardMaxM: real := 10.0

  // ---------------------------------------------------------------------------
  // Mesh extraction
  // ---------------------------------------------------------------------------

  /** The trimesh geometries of a scene graph, in order. */
  function TrimeshesIn(gs: seq<Geometry>): (r: seq<MeshFacts>)
    ensures |r| <= |gs|
    ensures forall m :: m in r <==> TrimeshGeometry(m) in gs
  {
    if gs == [] then []
    else
      var init := gs[..|gs| - 1];
      assert gs == init + [gs[|gs| - 1]];
      TrimeshesIn(init) + (if gs[|gs| - 1].TrimeshGeometry? then [gs[|gs| - 1].mesh] else [])
  }

  /** The meshes `_extract_meshes` returns for a loaded object. */
  function MeshesOf(scene: Scene): seq<MeshFacts> {
    match scene
    case SingleMesh(m) => [m]
    case SceneGraph(gs) => TrimeshesIn(gs)
    case OtherObject => []
  }

  /** `_extract_meshes` */
  method ExtractMeshes(scene: Scene) returns (meshes: seq<MeshFacts>)
    ensures meshes == MeshesOf(scene)
    ensures scene.SceneGraph? ==> forall m :: m in meshes <==> TrimeshGeometry(m) in scene.geometry
  {
    match scene {
      case SingleMesh(m) =>
        meshes := [m];
      case OtherObject =>
        meshes := [];
      case SceneGraph(gs) =>
        meshes := [];
        var i := 0;
        while i < |gs|
          invariant 0 <= i <= |gs|
          invariant meshes == TrimeshesIn(gs[..i])
        {
          assert gs[..i + 1][..i] == gs[..i];
          if gs[i].TrimeshGeometry? {
            meshes := meshes + [gs[i].mesh];
          }
          i := i + 1;
        }
        assert gs[..|gs|] == gs;
    }
  }

  /** `_load_first_mesh`: the first mesh of the file, or None when loading
      raised or produced no mesh. */
  function FirstMesh(env: Env): Option<MeshFacts> {
    match env.load
    case LoadRaised(_) => None
    case LoadedScene(s) => if |MeshesOf(s)| > 0 then Some(MeshesOf(s)[0]) else None
  }

  /** `if mesh is None: mesh = _load_first_mesh(glb_path)` */
  function MeshOr(env: Env, mesh: Option<MeshFacts>): Option<MeshFacts> {
    if mesh.Some? then mesh else FirstMesh(env)
  }

  // ---------------------------------------------------------------------------
  // Numeric helpers
  // ---------------------------------------------------------------------------

  function Abs(x: real): real {
    if x < 0.0 then -x else x
  }

  function Max3(v: Vec3): (m: real)
    ensures m >= v.x && m >= v.y && m >= v.z
    ensures m == v.x || m == v.y || m == v.z
  {
    if v.x >= v.y && v.x >= v.z then v.x else if v.y >= v.z then v.y else v.z
  }

  function Min3(v: Vec3): (m: real)
    ensures m <= v.x && m <= v.y && m <= v.z
    ensures m == v.x || m == v.y || m == v.z
  {
    if v.x <= v.y && v.x <= v.z then v.x else if v.y <= v.z then v.y else v.z
  }

  function Units(world: WorldContext): string {
    world.units.GetOr("meters")
  }

  function MaxTris(spec: AssetSpec): real {
    spec.plan.maxTris.GetOr(DefaultMaxTris)
  }

  /** `float(spec_size.get(axis, 0))` */
  function SizeOf(sizeM: map<string, real>, axis: string): real {
    if axis in sizeM then sizeM[axis] else 0.0
  }

  // ---------------------------------------------------------------------------
  // The twelve checks
  // ---------------------------------------------------------------------------

  function NoMesh(name: string): CheckResult {
    CheckResult(name, false, Text("Could not load mesh"), None)
  }

  function CheckFileExists(env: Env): CheckResult {
    CheckResult("check_file_exists", env.fileNonEmpty,
      if env.fileNonEmpty then Text(env.path) else Text("File missing or empty: " + env.path), None)
  }

  /** `check_can_load`: the only check that hands a mesh on. */
  function CheckCanLoad(env: Env): (r: CheckResult)
    ensures r.meshRef.Some? <==> r.passed
    ensures r.meshRef.Some? ==> r.meshRef == FirstMesh(env)
    ensures r.passed <==> FirstMesh(env).Some?
  {
    match env.load
    case LoadRaised(e) => CheckResult("check_can_load", false, Text(e), None)
    case LoadedScene(s) =>
      var ms := MeshesOf(s);
      var ok := |ms| > 0;
      CheckResult("check_can_load", ok, Text(NatToString(|ms|) + " mesh(es) loaded"),
        if ok then Some(ms[0]) else None)
  }

  function CheckPolycount(env: Env, spec: AssetSpec, mesh: Option<MeshFacts>): CheckResult {
    match MeshOr(env, mesh)
    case None => NoMesh("check_polycount")
    case Some(m) =>
      CheckResult("check_polycount", m.faceCount as real <= MaxTris(spec),
        PolycountReport(m.faceCount, MaxTris(spec)), None)
  }

  function CheckNoInvertedNormals(env: Env, mesh: Option<MeshFacts>): CheckResult {
    match MeshOr(env, mesh)
    case None => NoMesh("check_no_inverted_normals")
    case Some(m) =>
      if !m.isVolume then
        CheckResult("check_no_inverted_normals",
          (m.zeroNormalCount as real) < (m.faceCount as real) * 0.05,
          Text(NatToString(m.zeroNormalCount) + " degenerate normals out of " + NatToString(m.faceCount)),
          None)
      else
        // a winding property that raises gets the benefit of the doubt
        var consistent := m.windingConsistent.GetOr(true);
        CheckResult("check_no_inverted_normals", consistent,
          Text(if consistent then "winding consistent" else "inconsistent winding detected"), None)
  }

  function CheckNoNgons(env: Env, mesh: Option<MeshFacts>): CheckResult {
    match MeshOr(env, mesh)
    case None => NoMesh("check_no_ngons")
    case Some(m) =>
      CheckResult("check_no_ngons", m.allTriangles,
        Text(if m.allTriangles then "all triangles" else "ngons detected"), None)
  }

  function CheckNoDegenerateFaces(env: Env, mesh: Option<MeshFacts>): CheckResult {
    match MeshOr(env, mesh)
    case None => NoMesh("check_no_degenerate_faces")
    case Some(m) =>
      CheckResult("check_no_degenerate_faces",
        (m.degenerateCount as real) < (m.faceCount as real) * 0.01,
        Text(NatToString(m.degenerateCount) + "/" + NatToString(m.faceCount) + " degenerate faces"),
        None)
  }

  /** The failure the bounding-box check records for one axis, if any. */
  function AxisFailure(sizeM: map<string, real>, axis: string, meshVal: real): Option<AxisError> {
    var specVal := SizeOf(sizeM, axis);
    if specVal <= 0.0 then None
    else
      var relErr := Abs(meshVal - specVal) / specVal;
      if relErr > BboxToleranceFrac then Some(AxisError(axis, meshVal, specVal, relErr)) else None
  }

  function Axes(e: Vec3): seq<(string, real)> {
    [("x", e.x), ("y", e.y), ("z", e.z)]
  }

  /** The failures recorded for the given axes, in order. */
  function FailuresOf(sizeM: map<string, real>, axes: seq<(string, real)>): seq<AxisError> {
    if axes == [] then []
    else
      var last := axes[|axes| - 1];
      FailuresOf(sizeM, axes[..|axes| - 1])
        + (match AxisFailure(sizeM, last.0, last.1) case Some(f) => [f] case None => [])
  }

  /** The loop of `check_bbox_vs_spec` that collects the failing axes. */
  method CollectBboxFailures(sizeM: map<string, real>, extents: Vec3) returns (failures: seq<AxisError>)
    ensures failures == FailuresOf(sizeM, Axes(extents))
  {
    var axes := Axes(extents);
    failures := [];
    var i := 0;
    while i < |axes|
      invariant 0 <= i <= |axes|
      invariant failures == FailuresOf(sizeM, axes[..i])
    {
      assert axes[..i + 1][..i] == axes[..i];
      var f := AxisFailure(sizeM, axes[i].0, axes[i].1);
      if f.Some? {
        failures := failures + [f.value];
      }
      i := i + 1;
    }
    assert axes[..|axes|] == axes;
  }

  function CheckBboxVsSpec(env: Env, spec: AssetSpec, mesh: Option<MeshFacts>): CheckResult {
    match MeshOr(env, mesh)
    case None => NoMesh("check_bbox_vs_spec")
    case Some(m) =>
      if spec.obj.sizeM == map[] then
        CheckResult("check_bbox_vs_spec", true, Text("No size_m in spec – skipped"), None)
      else
        var failures := FailuresOf(spec.obj.sizeM, Axes(m.Extents()));
        var ok := |failures| == 0;
        CheckResult("check_bbox_vs_spec", ok,
          if ok then Text("within tolerance") else BboxFailures(failures), None)
  }

  /** 1.0 for a world in meters, 0.01 (cm to m) for any other unit. */
  function ScaleMult(units: string): real {
    if units == "meters" then 1.0 else 0.01
  }

  function CheckRealisticScale(env: Env, world: WorldContext, mesh: Option<MeshFacts>): CheckResult {
    match MeshOr(env, mesh)
    case None => NoMesh("check_realistic_scale")
    case Some(m) =>
      var e := m.Extents();
      var mult := ScaleMult(Units(world));
      var maxM := Max3(e) * mult;
      var minM := Min3(e) * mult;
      CheckResult("check_realistic_scale", HardMinM <= minM && maxM <= HardMaxM,
        ScaleReport(e, Units(world), maxM), None)
  }

  /** `check_textures_present`: its own try block turns any failure into a
      failing result, so it never raises. */
  function CheckTexturesPresent(env: Env): CheckResult {
    match env.gltf
    case GltfRaised(e) =>
      CheckResult("check_textures_present", false, Text("Could not inspect GLB textures: " + e), None)
    case GltfCounts(t, i) =>
      match env.load
      case LoadRaised(e) =>
        CheckResult("check_textures_present", false, Text("Could not inspect GLB textures: " + e), None)
      case LoadedScene(s) =>
        var hasTextures := t > 0 && i > 0;
        var hasVertexColours := exists m :: m in MeshesOf(s) && m.vertexColourCount > 0;
        CheckResult("check_textures_present", hasTextures || hasVertexColours,
          Text(NatToString(t) + " texture(s), " + NatToString(i) + " image(s), vertex_colors="
            + BoolToString(hasVertexColours)),
          None)
  }

  /** The pivot threshold: 30% of the largest extent, or of 1.0 when no extent is positive. */
  function PivotThreshold(e: Vec3): (t: real)
    ensures t > 0.0
  {
    (if Max3(e) > 0.0 then Max3(e) else 1.0) * BboxToleranceFrac
  }

  /** `sqrt(cx^2 + cz^2) < t`, written without the square root: for a
      positive `t` both sides of the comparison may be squared. */
  predicate LateralWithin(cx: real, cz: real, t: real) {
    cx * cx + cz * cz < t * t
  }

  /** `check_pivot_at_base`. The source compares `sqrt(cx^2 + cz^2)` with a
      positive threshold; for a positive threshold that is the same as
      comparing `cx^2 + cz^2` with the threshold squared. */
  function CheckPivotAtBase(env: Env, mesh: Option<MeshFacts>): CheckResult {
    match MeshOr(env, mesh)
    case None => NoMesh("check_pivot_at_base")
    case Some(m) =>
      var cx := (m.lo.x + m.hi.x) / 2.0;
      var cz := (m.lo.z + m.hi.z) / 2.0;
      var baseY := m.lo.y;
      var threshold := PivotThreshold(m.Extents());
      CheckResult("check_pivot_at_base",
        LateralWithin(cx, cz, threshold) && Abs(baseY) < threshold,
        PivotReport(cx * cx + cz * cz, baseY, threshold), None)
  }

  function CheckWatertight(env: Env, mesh: Option<MeshFacts>): CheckResult {
    match MeshOr(env, mesh)
    case None => CheckResult("check_watertight", true, Text("Could not load – skipped"), None)
    case Some(m) =>
      CheckResult("check_watertight", true,
        Text(if m.isWatertight then "watertight" else "NOT watertight (soft warning)"), None)
  }

  function CheckWorldUnitMatch(env: Env, world: WorldContext, mesh: Option<MeshFacts>): CheckResult {
    match MeshOr(env, mesh)
    case None => CheckResult("check_world_unit_match", true, Text("Could not load – skipped"), None)
    case Some(m) =>
      var maxExt := Max3(m.Extents());
      if Units(world) == "meters" && maxExt > 100.0 then
        CheckResult("check_world_unit_match", false, UnitMismatch(maxExt), None)
      else
        CheckResult("check_world_unit_match", true, UnitReport(Units(world), maxExt), None)
  }

  /** Calling check `k` with the carried mesh. */
  function RunCheck(k: CheckKind, env: Env, spec: AssetSpec, world: WorldContext, mesh: Option<MeshFacts>): (o: Outcome)
    ensures o.Returned? ==> o.result.name == CheckName(k)
    ensures o.Returned? && o.result.meshRef.Some? ==> k == CanLoad && o.result.meshRef == FirstMesh(env)
  {
    if k in env.faults then Raised(env.faults[k])
    else
      Returned(match k
        case FileExists => CheckFileExists(env)
        case CanLoad => CheckCanLoad(env)
        case Polycount => CheckPolycount(env, spec, mesh)
        case NoInvertedNormals => CheckNoInvertedNormals(env, mesh)
        case NoNgons => CheckNoNgons(env, mesh)
        case NoDegenerateFaces => CheckNoDegenerateFaces(env, mesh)
        case BboxVsSpec => CheckBboxVsSpec(env, spec, mesh)
        case RealisticScale => CheckRealisticScale(env, world, mesh)
        case TexturesPresent => CheckTexturesPresent(env)
        case PivotAtBase => CheckPivotAtBase(env, mesh)
        case Watertight => CheckWatertight(env, mesh)
        case WorldUnitMatch => CheckWorldUnitMatch(env, world, mesh))
  }

  // ---------------------------------------------------------------------------
  // Aggregation
  // ---------------------------------------------------------------------------

  /** The report entry for one call: an exception becomes a failing entry
      named after the check. */
  function EntryFor(k: CheckKind, o: Outcome): Entry {
    match o
    case Raised(e) => Entry(CheckName(k), false, Text("Exception: " + e))
    case Returned(r) => Entry(r.name, r.passed, r.message)
  }

  /** The carried mesh after a call: replaced when the result holds a mesh_ref. */
  function NextMesh(o: Outcome, mesh: Option<MeshFacts>): Option<MeshFacts> {
    if o.Returned? && o.result.meshRef.Some? then o.result.meshRef else mesh
  }

  /** The mesh passed to the i-th check. */
  function Carried(env: Env, spec: AssetSpec, world: WorldContext, i: nat): Option<MeshFacts>
    requires i <= |Order|
  {
    if i == 0 then None
    else
      var prev := Carried(env, spec, world, i - 1);
      NextMesh(RunCheck(Order[i - 1], env, spec, world, prev), prev)
  }

  function PassedCount(entries: seq<Entry>): (n: nat)
    ensures n <= |entries|
  {
    if entries == [] then 0
    else PassedCount(entries[..|entries| - 1]) + (if entries[|entries| - 1].passed then 1 else 0)
  }

  /** `all(r["passed"] for r in results if r["name"] in hard_fail_names)` */
  predicate HardPass(entries: seq<Entry>) {
    forall i :: 0 <= i < |entries| && entries[i].name in HardFailNames ==> entries[i].passed
  }

  /** Round-half-even of num/den to an integer. */
  function RoundHalfEven(num: int, den: int): int
    requires den > 0
  {
    var q := num / den;
    var r := num % den;
    if 2 * r > den then q + 1
    else if 2 * r < den then q
    else if q % 2 == 0 then q
    else q + 1
  }

  /** `round(k / n, 3)`. The exact ratio is rounded to thousandths; for the
      report's twelve checks 1000k/12 is never halfway between two integers,
      so the binary-float error of `k / n` cannot change the result. */
  function RoundedScore(k: nat, n: nat): real
    requires n > 0
  {
    RoundHalfEven(1000 * k, n) as real / 1000.0
  }

  function Summary(k: nat, n: nat): string {
    NatToString(k) + "/" + NatToString(n) + " checks passed"
  }

  /** `run_all_checks` */
  method RunAllChecks(env: Env, spec: AssetSpec, world: WorldContext) returns (report: Report)
    ensures |report.checks| == |Order|
    ensures forall i :: 0 <= i < |Order| ==>
      report.checks[i] == EntryFor(Order[i], RunCheck(Order[i], env, spec, world, Carried(env, spec, world, i)))
    ensures forall i :: 0 <= i < |Order| ==> report.checks[i].name == CheckName(Order[i])
    ensures forall i :: 0 <= i < |Order| && Order[i] in env.faults ==>
      report.checks[i] == Entry(CheckName(Order[i]), false, Text("Exception: " + env.faults[Order[i]]))
    ensures report.passed <==> HardPass(report.checks)
    ensures report.score == RoundedScore(PassedCount(report.checks), |Order|)
    ensures report.summary == Summary(PassedCount(report.checks), |Order|)
  {
    var results: seq<Entry> := [];
    var mesh: Option<MeshFacts> := None;
    var i := 0;
    while i < |Order|
      invariant 0 <= i <= |Order|
      invariant |results| == i
      invariant mesh == Carried(env, spec, world, i)
      invariant forall j :: 0 <= j < i ==>
        results[j] == EntryFor(Order[j], RunCheck(Order[j], env, spec, world, Carried(env, spec, world, j)))
    {
      var k := Order[i];
      var outcome := RunCheck(k, env, spec, world, mesh);
      mesh := NextMesh(outcome, mesh);
      results := results + [EntryFor(k, outcome)];
      i := i + 1;
    }
    forall j | 0 <= j < |Order| ensures results[j].name == CheckName(Order[j]) {
      EntryShape(Order[j], env, spec, world, Carried(env, spec, world, j));
    }
    forall j | 0 <= j < |Order| && Order[j] in env.faults
      ensures results[j] == Entry(CheckName(Order[j]), false, Text("Exception: " + env.faults[Order[j]]))
    {
      EntryShape(Order[j], env, spec, world, Carried(env, spec, world, j));
    }
    var passedCount := PassedCount(results);
    var total := |results|;
    report := Report(HardPass(results), RoundedScore(passedCount, total), results, Summary(passedCount, total));
  }

  // ---------------------------------------------------------------------------
  // Properties
  // ---------------------------------------------------------------------------

  /** Every call yields an entry named after its check; one that raised yields
      a failing entry whose message is "Exception: " and the exception text. */
  lemma EntryShape(k: CheckKind, env: Env, spec: AssetSpec, world: WorldContext, mesh: Option<MeshFacts>)
    ensures EntryFor(k, RunCheck(k, env, spec, world, mesh)).name == CheckName(k)
    ensures k in env.faults ==>
      EntryFor(k, RunCheck(k, env, spec, world, mesh)) == Entry(CheckName(k), false, Text("Exception: " + env.faults[k]))
  {
  }

  /** Carrying the mesh forward is only an optimisation: every check sees the
      first mesh of the file, whether it was carried or reloaded. */
  lemma {:induction false} CarriedIsFirstMesh(env: Env, spec: AssetSpec, world: WorldContext, i: nat)
    requires i <= |Order|
    ensures Carried(env, spec, world, i) == None || Carried(env, spec, world, i) == FirstMesh(env)
    ensures MeshOr(env, Carried(env, spec, world, i)) == FirstMesh(env)
  {
    if i > 0 {
      CarriedIsFirstMesh(env, spec, world, i - 1);
    }
  }

  /** From the third check on, the carried mesh is the one `check_can_load`
      handed on (none when it raised or found no mesh). */
  lemma {:induction false} CarriedAfterCanLoad(env: Env, spec: AssetSpec, world: WorldContext, i: nat)
    requires 2 <= i <= |Order|
    ensures Carried(env, spec, world, i) ==
      (if CanLoad in env.faults then None else CheckCanLoad(env).meshRef)
  {
    if i == 2 {
      var o0 := RunCheck(Order[0], env, spec, world, None);
      assert Order[0] == FileExists && Order[1] == CanLoad;
      assert !(o0.Returned? && o0.result.meshRef.Some?);
      assert Carried(env, spec, world, 1) == None;
    } else {
      CarriedAfterCanLoad(env, spec, world, i - 1);
      var prev := Carried(env, spec, world, i - 1);
      var o := RunCheck(Order[i - 1], env, spec, world, prev);
      assert Order[i - 1] != CanLoad;
      assert !(o.Returned? && o.result.meshRef.Some?);
    }
  }

  /** The verdict is decided by the six hard checks (positions 0, 1, 3, 6, 7
      and 8 of the list) and by nothing else. */
  lemma HardPassOfReport(entries: seq<Entry>)
    requires |entries| == |Order|
    requires forall i :: 0 <= i < |Order| ==> entries[i].name == CheckName(Order[i])
    ensures HardPass(entries) <==>
      entries[0].passed && entries[1].passed && entries[3].passed
      && entries[6].passed && entries[7].passed && entries[8].passed
  {
    if entries[0].passed && entries[1].passed && entries[3].passed
      && entries[6].passed && entries[7].passed && entries[8].passed
    {
      forall i | 0 <= i < |entries| && entries[i].name in HardFailNames
        ensures entries[i].passed
      {
        assert i == 0 || i == 1 || i == 3 || i == 6 || i == 7 || i == 8;
      }
    }
    assert entries[0].name in HardFailNames && entries[1].name in HardFailNames;
    assert entries[3].name in HardFailNames && entries[6].name in HardFailNames;
    assert entries[7].name in HardFailNames && entries[8].name in HardFailNames;
  }

  /** Flipping the outcome of a soft check never changes the verdict. */
  lemma SoftCheckCannotDecide(entries: seq<Entry>, i: nat, b: bool)
    requires i < |entries| && entries[i].name !in HardFailNames
    ensures HardPass(entries[i := entries[i].(passed := b)]) == HardPass(entries)
  {
    var flipped := entries[i := entries[i].(passed := b)];
    if HardPass(entries) {
      forall j | 0 <= j < |flipped| && flipped[j].name in HardFailNames ensures flipped[j].passed {
        assert j != i;
      }
    }
    if HardPass(flipped) {
      forall j | 0 <= j < |entries| && entries[j].name in HardFailNames ensures entries[j].passed {
        assert j != i && flipped[j] == entries[j];
      }
    }
  }

  /** The rounded quotient is the integer nearest to num/den. */
  lemma RoundHalfEvenNearest(num: int, den: int)
    requires den > 0
    ensures var q := RoundHalfEven(num, den); -den <= 2 * (num - q * den) <= den
  {
    var q := num / den;
    var r := num % den;
    assert num == q * den + r;
    assert (q + 1) * den == q * den + den;
  }

  /** The score in thousandths: the integer nearest to 1000k/n. */
  function ScoreMilli(k: nat, n: nat): int
    requires n > 0
  {
    RoundHalfEven(1000 * k, n)
  }

  /** Euclidean division is determined by quotient and remainder. */
  lemma DivUnique(num: int, den: int, q: int, r: int)
    requires den > 0 && 0 <= r < den && num == q * den + r
    ensures num / den == q && num % den == r
  {
    var q', r' := num / den, num % den;
    assert num == q' * den + r';
    if q' < q {
      MulCancelLess(q', q, den);
    } else if q < q' {
      MulCancelLess(q, q', den);
    }
  }

  lemma {:induction false} MulCancelLess(a: int, b: int, n: int)
    requires n > 0 && a < b
    ensures a * n + n <= b * n
    decreases b - a
  {
    if a + 1 < b {
      MulCancelLess(a, b - 1, n);
    }
    assert (b - 1) * n + n == b * n;
  }

  /** An upper bound on a quotient from an upper bound on the dividend. */
  lemma QuotientBelow(num: int, den: int, c: int)
    requires den > 0 && num < (c + 1) * den
    ensures num / den <= c
  {
    var q := num / den;
    if c + 1 <= q {
      MulCancelLess(c, q, den);
    }
  }

  /** A lower bound on a quotient from a lower bound on the dividend. */
  lemma QuotientAbove(num: int, den: int, c: int)
    requires den > 0 && c * den <= num
    ensures c <= num / den
  {
    var q := num / den;
    if q < c {
      MulCancelLess(q, c, den);
    }
  }

  /** When every check passes the score is 1000 thousandths. */
  lemma ScoreAllPassed(n: nat)
    requires n > 0
    ensures ScoreMilli(n, n) == 1000
  {
    DivUnique(1000 * n, n, 1000, 0);
  }

  /** With k <= n the score lies in [0, 1000]. */
  lemma ScoreMilliBounds(k: nat, n: nat)
    requires 0 < n && k <= n
    ensures 0 <= ScoreMilli(k, n) <= 1000
  {
    var num := 1000 * k;
    QuotientAbove(num, n, 0);
    QuotientBelow(num, n, 1000);
    var q, r := num / n, num % n;
    assert num == q * n + r;
    assert q == 1000 ==> r == 0;
  }

  /** With at most 1000 checks, a failed check keeps the score below 1000. */
  lemma ScoreBelowAll(k: nat, n: nat)
    requires k < n <= 1000
    ensures ScoreMilli(k, n) < 1000
  {
    var num := 1000 * k;
    assert num < 1000 * n;
    QuotientBelow(num, n, 999);
    var q, r := num / n, num % n;
    assert num == q * n + r;
    assert q == 999 ==> r == 0;
  }

  /** The score is the pass ratio rounded to thousandths: 1000 * score is
      within one half of 1000k/n, lies in [0, 1000], is 1000 exactly when
      every check passed and below 1000 otherwise (for up to 1000 checks). */
  lemma ScoreIsRoundedRatio(k: nat, n: nat)
    requires 0 < n && k <= n
    ensures RoundedScore(k, n) == ScoreMilli(k, n) as real / 1000.0
    ensures -(n as int) <= 2 * (1000 * k - ScoreMilli(k, n) * n) <= n
    ensures 0 <= ScoreMilli(k, n) <= 1000
    ensures k == n ==> RoundedScore(k, n) == 1.0
    ensures k < n <= 1000 ==> RoundedScore(k, n) < 1.0
  {
    RoundHalfEvenNearest(1000 * k, n);
    ScoreMilliBounds(k, n);
    if k == n {
      ScoreAllPassed(n);
    }
    if k < n <= 1000 {
      ScoreBelowAll(k, n);
    }
  }

  /** A report never counts more passes than checks. */
  lemma SummaryCounts(entries: seq<Entry>)
    requires |entries| == |Order|
    ensures PassedCount(entries) <= |Order|
    ensures Summary(PassedCount(entries), |entries|) == NatToString(PassedCount(entries)) + "/12 checks passed"
  {
    assert NatToString(12) == "12";
  }

  // --- the individual rules, stated for the first mesh of the file ---

  /** Polycount passes iff a mesh loaded and its face count is at most
      `max_tris`, 80000 when the spec gives none. */
  lemma PolycountRule(env: Env, spec: AssetSpec, mesh: Option<MeshFacts>)
    requires mesh == None || mesh == FirstMesh(env)
    ensures CheckPolycount(env, spec, mesh).passed <==>
      FirstMesh(env).Some? && (FirstMesh(env).value.faceCount as real) <=
        (if spec.plan.maxTris.Some? then spec.plan.maxTris.value else 80000.0)
  {
  }

  /** With a size in the spec, the bounding-box check fails iff some axis with
      a positive spec size deviates by more than 30% of it. Without a mesh it
      fails, even when size_m is empty. */
  lemma BboxRule(env: Env, spec: AssetSpec, mesh: Option<MeshFacts>)
    requires mesh == None || mesh == FirstMesh(env)
    ensures FirstMesh(env).None? ==> !CheckBboxVsSpec(env, spec, mesh).passed
    ensures FirstMesh(env).Some? && spec.obj.sizeM == map[] ==> CheckBboxVsSpec(env, spec, mesh).passed
    ensures FirstMesh(env).Some? && spec.obj.sizeM != map[] ==>
      (CheckBboxVsSpec(env, spec, mesh).passed <==>
        forall a :: a in Axes(FirstMesh(env).value.Extents()) ==> WithinTolerance(spec.obj.sizeM, a.0, a.1))
  {
    if FirstMesh(env).Some? && spec.obj.sizeM != map[] {
      var axes := Axes(FirstMesh(env).value.Extents());
      var sizeM := spec.obj.sizeM;
      FailuresEmptyIff(sizeM, axes);
    }
  }

  /** An axis passes when its spec size is not positive, or when
      |mesh - spec| <= 0.30 * spec. */
  predicate WithinTolerance(sizeM: map<string, real>, axis: string, meshVal: real) {
    var s := SizeOf(sizeM, axis);
    s <= 0.0 || Abs(meshVal - s) <= BboxToleranceFrac * s
  }

  lemma AxisFailureIff(sizeM: map<string, real>, axis: string, meshVal: real)
    ensures AxisFailure(sizeM, axis, meshVal).None? <==> WithinTolerance(sizeM, axis, meshVal)
  {
    var s := SizeOf(sizeM, axis);
    if s > 0.0 {
      var d := Abs(meshVal - s);
      assert (d / s) * s == d;
      if d / s > BboxToleranceFrac {
        assert (d / s) * s > BboxToleranceFrac * s;
      } else {
        assert (d / s) * s <= BboxToleranceFrac * s;
      }
    }
  }

  lemma {:induction false} FailuresEmptyIff(sizeM: map<string, real>, axes: seq<(string, real)>)
    ensures FailuresOf(sizeM, axes) == [] <==> forall a :: a in axes ==> WithinTolerance(sizeM, a.0, a.1)
  {
    if axes != [] {
      var init := axes[..|axes| - 1];
      var last := axes[|axes| - 1];
      FailuresEmptyIff(sizeM, init);
      AxisFailureIff(sizeM, last.0, last.1);
      assert axes == init + [last];
      assert forall a :: a in axes <==> a in init || a == last;
    }
  }

  /** Realistic scale: in a world of meters every extent must lie in
      [0.01, 10]; in any other unit (taken as cm) in [1, 1000]. */
  lemma RealisticScaleRule(env: Env, world: WorldContext, mesh: Option<MeshFacts>)
    requires mesh == None || mesh == FirstMesh(env)
    ensures FirstMesh(env).None? ==> !CheckRealisticScale(env, world, mesh).passed
    ensures FirstMesh(env).Some? ==>
      var e := FirstMesh(env).value.Extents();
      (CheckRealisticScale(env, world, mesh).passed <==>
        if Units(world) == "meters" then
          0.01 <= e.x <= 10.0 && 0.01 <= e.y <= 10.0 && 0.01 <= e.z <= 10.0
        else
          1.0 <= e.x <= 1000.0 && 1.0 <= e.y <= 1000.0 && 1.0 <= e.z <= 1000.0)
  {
  }

  /** Degenerate faces: fewer than 1% of the faces; a mesh without faces fails. */
  lemma DegenerateRule(env: Env, mesh: Option<MeshFacts>)
    requires mesh == None || mesh == FirstMesh(env)
    ensures CheckNoDegenerateFaces(env, mesh).passed <==>
      FirstMesh(env).Some? && 100 * FirstMesh(env).value.degenerateCount < FirstMesh(env).value.faceCount
    ensures FirstMesh(env).Some? && FirstMesh(env).value.faceCount == 0 ==>
      !CheckNoDegenerateFaces(env, mesh).passed
  {
  }

  lemma OriginWithin(t: real)
    requires t > 0.0
    ensures LateralWithin(0.0, 0.0, t)
  {
  }

  /** Pivot: a mesh whose x/z centre is the origin and whose base is at y = 0
      passes (the state `cleanup_and_bake` leaves it in). */
  lemma PivotAtOriginPasses(env: Env, mesh: Option<MeshFacts>)
    requires mesh == None || mesh == FirstMesh(env)
    requires FirstMesh(env).Some?
    requires var m := FirstMesh(env).value; m.lo.y == 0.0 && m.lo.x + m.hi.x == 0.0 && m.lo.z + m.hi.z == 0.0
    ensures CheckPivotAtBase(env, mesh).passed
  {
    var m := FirstMesh(env).value;
    assert MeshOr(env, mesh) == Some(m);
    OriginWithin(PivotThreshold(m.Extents()));
    assert (m.lo.x + m.hi.x) / 2.0 == 0.0;
    assert (m.lo.z + m.hi.z) / 2.0 == 0.0;
  }

  /** The soft checks: watertightness never fails, and unit match fails only in
      a meters world whose mesh has an extent above 100. */
  lemma SoftRules(env: Env, world: WorldContext, mesh: Option<MeshFacts>)
    requires mesh == None || mesh == FirstMesh(env)
    ensures CheckWatertight(env, mesh).passed
    ensures !CheckWorldUnitMatch(env, world, mesh).passed <==>
      FirstMesh(env).Some? && Units(world) == "meters" && Max3(FirstMesh(env).value.Extents()) > 100.0
  {
  }

  /** A passing verdict means the file was found and loaded with a mesh, and
      that none of the six hard checks raised. */
  lemma RunVerdict(env: Env, spec: AssetSpec, world: WorldContext, entries: seq<Entry>)
    requires |entries| == |Order|
    requires forall i :: 0 <= i < |Order| ==>
      entries[i] == EntryFor(Order[i], RunCheck(Order[i], env, spec, world, Carried(env, spec, world, i)))
    ensures HardPass(entries) ==> env.fileNonEmpty && FirstMesh(env).Some?
    ensures HardPass(entries) ==>
      forall i :: 0 <= i < |Order| && CheckName(Order[i]) in HardFailNames ==> Order[i] !in env.faults
  {
    if HardPass(entries) {
      forall i | 0 <= i < |Order| && CheckName(Order[i]) in HardFailNames
        ensures Order[i] !in env.faults && entries[i].passed
      {
        EntryShape(Order[i], env, spec, world, Carried(env, spec, world, i));
      }
      assert Order[0] == FileExists && Order[1] == CanLoad;
      assert CheckName(Order[0]) in HardFailNames && CheckName(Order[1]) in HardFailNames;
    }
  }
}
