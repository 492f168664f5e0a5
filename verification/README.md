# Asset pipeline decision core in Dafny

This project models the deterministic decision logic of a 3D-asset pipeline:
Gemini writes an asset spec, GPU generators produce candidate meshes, the
meshes are cleaned and baked, each candidate is validated and placed in a
world, and the best candidate is chosen. Everything around that logic is
outside the model: mesh processing, model inference, the network and the
job fan-out. Mesh-derived numbers are inputs to the model: extents, bounds,
face and degenerate-face counts, volume, winding and watertightness flags,
texture counts. Real-valued rules use Dafny `real`, which is exact.

The modules follow the source files:

- `common.dfy` (`Common`): the Python string and number behaviour the rules rely on. It covers `dict.get` defaults, ASCII case, Python's whitespace set, `str.strip`, `str(n)`, and `in` on strings.
- `context.dfy` (`Context`): the asset spec and world context, as read by the rules.
- `checks.dfy` (`Checks`): the twelve validation checks and `run_all_checks`. The loop is a method, proved against a per-position specification. That specification covers the check order, exceptions turned into failing entries, the carried mesh, the rounded score and the hard-fail verdict.
- `placement.dfy` (`Placement`): surface lookup, position resolution with snapping, the occupancy test, warnings and the world-patch document.
- `glb.dfy` (`Glb`): `_patch_glb_material` on bytes, following the GLB layout of chapter 4 ("GLB File Format Specification") of the Khronos glTF 2.0 specification. It covers the 12-byte header, chunk 0 of type JSON padded with spaces to 4 bytes, and the trailing chunks copied verbatim. The JSON parser and serialiser are function parameters. The document edit works on ordered JSON objects, as Python dicts keep insertion order.
- `cleanup.dfy` (`Cleanup`): `int(s, 16)` and the hex colour parsing of `_hex_to_linear_rgba`, the PBR default merge and the 0..255 clamp. It also has the steps of `main` as a `MeshState` class with decimation, scaling and pivot-shift methods.
- `router.dfy` (`Router`): generator name normalisation and dispatch with the TripoSR fallback, the missing-output error, the numpy seed mask and the visual prompt.
- `ranking.dfy` (`Ranking`): candidate results, `_rank_key` and the stable sort, the best candidate, the seed list.
- `protocol.dfy` (`Protocol`): the error classifiers, `_extract_retry_delay` as a leftmost regular-expression match, and the Stage A model cascade, a loop proved against a recursive specification. It also has the candidate directory names and server-sent-event frames, with a parser that reads a frame back.

## Model

| member | source | states |
|---|---|---|
| Checks.RunAllChecks | pipeline/validation/checks.py:24-86 | twelve entries in the fixed check order, each the entry of that check called with the carried mesh; a check that raises gives a failing entry named after it with message "Exception: " + text and the later checks still run; `passed` iff every hard-fail entry passed; score is the rounded pass ratio; summary "k/n checks passed" |
| Checks.ExtractMeshes | pipeline/validation/checks.py:394-404 | a Trimesh gives itself, a scene exactly its Trimesh geometries in order, any other object nothing |
| Checks.TrimeshesIn | pipeline/validation/checks.py:398-403 | a mesh is in the result iff it is a Trimesh geometry of the scene; never more entries than geometries |
| Checks.CheckCanLoad | pipeline/validation/checks.py:102-115 | passes iff the file loads with a first mesh; only a passing result carries a mesh_ref, and it is that first mesh |
| Checks.RunCheck | pipeline/validation/checks.py:32-53 | a returned result is named after its check; only `check_can_load` ever hands on a mesh |
| Checks.CollectBboxFailures | pipeline/validation/checks.py:215-228 | the loop over x, y, z collects exactly the failures of the per-axis rule, in axis order |
| Checks.PassedCount | pipeline/validation/checks.py:64 | the number of passed entries is at most the number of entries |
| Checks.PivotThreshold | pipeline/validation/checks.py:317-327 | the pivot threshold is positive, even for a mesh without positive extent |
| Checks.EntryShape | pipeline/validation/checks.py:47-60 | every call yields an entry with its check's name; a raising check yields the failing "Exception: ..." entry |
| Checks.CarriedIsFirstMesh | pipeline/validation/checks.py:47-53 | the carried mesh is either none or the file's first mesh, so every check sees the first mesh |
| Checks.CarriedAfterCanLoad | pipeline/validation/checks.py:47-53 | from the third check on, the carried mesh is what `check_can_load` handed on (none when it raised) |
| Checks.HardPassOfReport | pipeline/validation/checks.py:69-79 | the verdict is the conjunction of positions 0, 1, 3, 6, 7 and 8 of the check list |
| Checks.SoftCheckCannotDecide | pipeline/validation/checks.py:69-79 | flipping any entry whose name is not a hard-fail name leaves the verdict unchanged |
| Checks.RoundHalfEvenNearest | pipeline/validation/checks.py:84 | the rounded value is within one half of the exact quotient |
| Checks.ScoreIsRoundedRatio | pipeline/validation/checks.py:64-84 | score * 1000 is within one half of 1000k/n and lies in 0..1000; score 1.0 iff all passed (for up to 1000 checks) |
| Checks.SummaryCounts | pipeline/validation/checks.py:64-85 | passed count at most 12, and the summary reads "k/12 checks passed" |
| Checks.PolycountRule | pipeline/validation/checks.py:118-135 | passes iff a mesh loaded and face count <= max_tris, 80000 when the spec gives none |
| Checks.BboxRule | pipeline/validation/checks.py:205-234 | no mesh fails; empty size_m passes; otherwise passes iff every axis with positive spec size is within 30% of it |
| Checks.AxisFailureIff | pipeline/validation/checks.py:219-224 | an axis records a failure iff its spec size is positive and the relative error exceeds 0.30 |
| Checks.FailuresEmptyIff | pipeline/validation/checks.py:217-229 | no failures iff every axis is within tolerance |
| Checks.RealisticScaleRule | pipeline/validation/checks.py:237-264 | no mesh fails; in meters every extent in [0.01, 10]; in any other unit every extent in [1, 1000] |
| Checks.DegenerateRule | pipeline/validation/checks.py:187-202 | passes iff fewer than 1% of the faces are degenerate; a mesh with no faces fails |
| Checks.PivotAtOriginPasses | pipeline/validation/checks.py:308-336 | a mesh centred on x/z with its base at y = 0 passes the pivot check |
| Checks.SoftRules | pipeline/validation/checks.py:339-377 | watertight always passes; unit match fails iff a mesh loaded, units are "meters" and the largest extent exceeds 100 |
| Checks.RunVerdict | pipeline/validation/checks.py:24-86 | a passing verdict implies the file exists and loads with a mesh and that no hard check raised |
| Placement.UnionBox | pipeline/utils/placement.py:124-129 | the combined box contains every mesh's box and each of its faces is some mesh's face |
| Placement.MeshExtentsNonNegative | pipeline/utils/placement.py:117-135 | extents are non-negative, the 0.5 fallback included |
| Placement.FirstMatch | pipeline/utils/placement.py:143-146 | the index of the first surface with the id, all earlier ones differing |
| Placement.SurfaceFor | pipeline/utils/placement.py:138-148 | None iff there are no surfaces; the first surface with a truthy matching id, else the first surface |
| Placement.FindSurface | pipeline/utils/placement.py:138-148 | the search loop with early return picks the surface `SurfaceFor` describes |
| Placement.ResolvePosition | pipeline/utils/placement.py:151-198 | the step-by-step overwrites of `pos` produce the resolved position |
| Placement.NoSurfaceKeepsSpec | pipeline/utils/placement.py:168-174 | without a surface the position is the spec position with missing coordinates 0.0 |
| Placement.SnapToSurfaceTop | pipeline/utils/placement.py:164-196 | up axis "Y"/"y" (or absent) puts y at top + clearance; "Z"/"z" puts z there and keeps y; any other axis snaps nothing |
| Placement.CentreSubstitution | pipeline/utils/placement.py:186-190 | x (and z unless snapped) becomes the bbox centre exactly when the spec value is 0.0 and the centre key is present |
| Placement.ZeroMaxYFallsThrough | pipeline/utils/placement.py:179-184 | a `max_y` of 0 behaves as a missing one: the top is `pose.y + height` |
| Placement.CheckOccupied | pipeline/utils/placement.py:201-232 | true iff some region strictly overlaps the footprint on both x and z |
| Placement.OverlapIgnoresY | pipeline/utils/placement.py:207-226 | the y coordinate and y extent never matter; no regions means no overlap |
| Placement.OverlapHasCommonPoint | pipeline/utils/placement.py:211-226 | an overlap has a point inside the open footprint and the closed region |
| Placement.CommonPointOverlaps | pipeline/utils/placement.py:211-226 | such a common point implies an overlap |
| Placement.CollectWarnings | pipeline/utils/placement.py:279-285 | overlap warning iff collision flagged, no-surface warning iff no surface, overlap first |
| Placement.ComputeWorldPatch | pipeline/utils/placement.py:26-110 | every patch field and default: scale 1/1/1, surface id "unknown", clearance 0.02, anchors ["sit_flat"], gravity 9.81; the position; the warnings list is exactly the overlap warning (iff collisions are not allowed and a region overlaps) followed by the no-surface warning (iff there are no surfaces) |
| Glb.U32At | pipeline/blender/cleanup_and_bake.py:206 | a little-endian u32 read is below 2^32 |
| Glb.U32Bytes | pipeline/blender/cleanup_and_bake.py:237-241 | `struct.pack("<I")` gives four bytes that read back as the value |
| Glb.U32BytesOfU32At | pipeline/blender/cleanup_and_bake.py:206-241 | four bytes read as a u32 pack back into the same bytes |
| Glb.Lookup | pipeline/blender/cleanup_and_bake.py:221 | a found value is stored under the key; a missing key is on no field |
| Glb.Put | pipeline/blender/cleanup_and_bake.py:222-229 | after assignment the key reads the new value and every other key is unchanged |
| Glb.PutKeepsOrder | pipeline/blender/cleanup_and_bake.py:222-229 | existing keys keep their places; a new key goes last |
| Glb.PutSame | pipeline/blender/cleanup_and_bake.py:226-229 | storing the value a key already has changes nothing |
| Glb.PatchPbr | pipeline/blender/cleanup_and_bake.py:226-228 | the three factors are set and every other key is kept |
| Glb.PatchMaterial | pipeline/blender/cleanup_and_bake.py:224-229 | defined iff the material is an object whose pbr entry is absent or an object; then doubleSided false, the factors set, other keys kept |
| Glb.WithMaterials | pipeline/blender/cleanup_and_bake.py:221-222 | "materials" ends up truthy and every other key is unchanged |
| Glb.PatchJson | pipeline/blender/cleanup_and_bake.py:220-229 | a non-object document raises; the result is an object whose keys other than "materials" are unchanged |
| Glb.PatchJsonMaterials | pipeline/blender/cleanup_and_bake.py:220-229 | a missing or empty list becomes [{"name":"mat0"}]; material 0 gets the factors and doubleSided false; materials after 0 are untouched |
| Glb.PatchPbrIdempotent | pipeline/blender/cleanup_and_bake.py:226-228 | setting the factors twice equals setting them once |
| Glb.PatchMaterialIdempotent | pipeline/blender/cleanup_and_bake.py:224-229 | patching a patched material changes nothing |
| Glb.PatchJsonIdempotent | pipeline/blender/cleanup_and_bake.py:220-229 | patching a patched document changes nothing |
| Glb.Padded | pipeline/blender/cleanup_and_bake.py:232-234 | the JSON plus 0 to 3 spaces, its length a multiple of 4 |
| Glb.TrimSpaces | pipeline/blender/cleanup_and_bake.py:218 | the longest prefix not ending in a space, with only spaces removed |
| Glb.TrimSpacesOfPadding | pipeline/blender/cleanup_and_bake.py:218-234 | stripping removes exactly the padding from JSON that does not end in a space |
| Glb.AssembleLayout | pipeline/blender/cleanup_and_bake.py:236-243 | magic, version 2, total length equal to the output length, chunk length and JSON type, padded JSON, then the old trailing bytes |
| Glb.PatchGlb | pipeline/blender/cleanup_and_bake.py:189-243 | under 12 bytes or a wrong magic: unchanged; wrong chunk type: unchanged; a raising parse or edit: raised; a rebuilt total of 2^32 bytes or more: raised (`struct.error`); otherwise the rewritten layout |
| Glb.PatchDocument | pipeline/blender/cleanup_and_bake.py:220-229 | the in-place edits, step by step, give `PatchJson` |
| Glb.PatchGlbMaterial | pipeline/blender/cleanup_and_bake.py:201-243 | the early returns and concatenation, step by step, give `PatchGlb` |
| Glb.Repack | pipeline/blender/cleanup_and_bake.py:231-243 | raises when the total length does not fit a u32, otherwise assembles the file |
| Glb.ReadBack | pipeline/blender/cleanup_and_bake.py:217-243 | the output passes both header checks, its stripped JSON chunk is the serialised document and parses back to it, and its trailing bytes are the input's |
| Glb.PatchIdempotent | pipeline/blender/cleanup_and_bake.py:201-243 | patching the patched file again reproduces it byte for byte |
| Cleanup.HexDigit | pipeline/blender/cleanup_and_bake.py:58 | a value below 16 exactly for 0-9, a-f, A-F |
| Cleanup.ParseIgnoresWhitespace | pipeline/blender/cleanup_and_bake.py:58 | `int(s, 16)` parses what `s.strip()` keeps |
| Cleanup.ParseDigits | pipeline/blender/cleanup_and_bake.py:58 | hex digits parse to their base-16 value |
| Cleanup.ParseTwoDigits | pipeline/blender/cleanup_and_bake.py:58 | a two-digit slice parses to 16*d0 + d1, in 0..255 |
| Cleanup.ParseOneDigit | pipeline/blender/cleanup_and_bake.py:58 | a one-digit slice parses to that digit |
| Cleanup.ParseEmpty | pipeline/blender/cleanup_and_bake.py:58 | an empty slice raises |
| Cleanup.ParseNegative | pipeline/blender/cleanup_and_bake.py:58 | a '-' before hex digits gives the negated value |
| Cleanup.Expand | pipeline/blender/cleanup_and_bake.py:56-57 | a three-digit form doubles each digit; other lengths are unchanged |
| Cleanup.Slice | pipeline/blender/cleanup_and_bake.py:58 | a Python slice is clipped to the string |
| Cleanup.HexToLinearRgba | pipeline/blender/cleanup_and_bake.py:54-63 | defined iff the three channels parse; four components, alpha 1.0, each colour channel the transfer of channel/255 |
| Cleanup.SixDigitColour | pipeline/blender/cleanup_and_bake.py:54-58 | six digits after the '#': channels are the pairs at offsets 0, 2, 4, each in 0..255 |
| Cleanup.ThreeDigitColour | pipeline/blender/cleanup_and_bake.py:55-58 | three digits: each channel is 17 times its digit |
| Cleanup.ShortColourRaises | pipeline/blender/cleanup_and_bake.py:55-58 | 0, 1, 2 or 4 digits after the '#' raise |
| Cleanup.LongColourIgnoresTail | pipeline/blender/cleanup_and_bake.py:55-58 | only the first six digits matter |
| Cleanup.SignedDigitsParse | pipeline/blender/cleanup_and_bake.py:55-58 | "-d-d-d" parses to three negative channels |
| Cleanup.MergedPbr | pipeline/blender/cleanup_and_bake.py:150-156 | defaults "#808080", 0.0, 0.5, overridden by the first material's given values |
| Cleanup.MergedPbrFirstOnly | pipeline/blender/cleanup_and_bake.py:150-156 | only the first material counts; absent values keep the defaults |
| Cleanup.DefaultColourChannels | pipeline/blender/cleanup_and_bake.py:150-154 | the default colour gives channels 128, 128, 128 |
| Cleanup.Clamp255 | pipeline/blender/cleanup_and_bake.py:163 | the result is in 0..255, the value itself when in range, else the nearer bound |
| Cleanup.ColourBytes | pipeline/blender/cleanup_and_bake.py:163 | clamped channels, in-range ones unchanged, then alpha 255 |
| Cleanup.ClampMonotone | pipeline/blender/cleanup_and_bake.py:163 | clamping is idempotent and monotone |
| Cleanup.TruncToInt | pipeline/blender/cleanup_and_bake.py:75 | `int()` of a float truncates toward zero |
| Cleanup.DecimationIffPolycountFails | pipeline/blender/cleanup_and_bake.py:122-123 | decimation happens exactly when the polycount check would fail |
| Cleanup.DefaultDecimationLimit | pipeline/blender/cleanup_and_bake.py:75 | without max_tris, decimation happens iff faces > 80000 |
| Cleanup.AxisFactor | pipeline/blender/cleanup_and_bake.py:134-136 | a positive factor that maps the extent onto the target under the guard, else 1.0 |
| Cleanup.ScaleVector | pipeline/blender/cleanup_and_bake.py:130-137 | no scaling iff size_m is empty; all factors positive |
| Cleanup.PivotShiftCentres | pipeline/blender/cleanup_and_bake.py:142-146 | after the shift min y is 0 and the x/z centre is 0, with extents unchanged |
| Cleanup.CleanedMeshPassesPivotCheck | pipeline/blender/cleanup_and_bake.py:141-146 | a pivot-shifted mesh passes `check_pivot_at_base` |
| Cleanup.MeshState.constructor | pipeline/blender/cleanup_and_bake.py:96-122 | the repaired mesh's face count and bounds |
| Cleanup.MeshState.Decimate | pipeline/blender/cleanup_and_bake.py:122-127 | past the limit the mesh becomes the simplified mesh (its face count and bounds), except that a mesh without faces past a negative limit raises `ZeroDivisionError` and is left alone; otherwise nothing changes |
| Cleanup.MeshState.ApplyScale | pipeline/blender/cleanup_and_bake.py:138 | bounds scaled, face count kept |
| Cleanup.MeshState.ApplyTranslation | pipeline/blender/cleanup_and_bake.py:146 | bounds translated, face count kept |
| Cleanup.MeshState.Normalise | pipeline/blender/cleanup_and_bake.py:122-146 | raises exactly when decimation divides by zero, changing nothing; otherwise the decimation rule, each extent of the mesh after decimation becomes its target under the guard, else stays, and min y 0 and x/z centre 0 |
| Router.Dispatch | pipeline/generators/router.py:31-44 | a normalised table key selects its own generator; any other name selects TripoSR |
| Router.RunGenerator | pipeline/generators/router.py:31-47 | the mesh path iff the file exists, else RuntimeError "Generator '<key>' did not produce output at <path>" |
| Router.DispatchKeysRoundTrip | pipeline/generators/router.py:33-44 | each table key dispatches to its generator |
| Router.DispatchIgnoresSurroundingSpace | pipeline/generators/router.py:31-44 | a table key with any `str.isspace` characters around it (no-break space, ideographic space, ...) selects its own generator |
| Router.NormaliseIdempotent | pipeline/generators/router.py:31 | normalising twice equals once, so case and surrounding whitespace never change the dispatch |
| Router.NumpySeed | pipeline/generators/router.py:73 | the masked seed is in [0, 2^32), congruent to the seed, and equal to it when in range |
| Router.NumpySeedPeriodic | pipeline/generators/router.py:73 | seeds differing by a multiple of 2^32 give the same numpy seed |
| Router.Finish | pipeline/generators/router.py:352 | "metallic" iff metallic > 0.5, "matte" otherwise |
| Router.Texture | pipeline/generators/router.py:352 | "smooth" iff roughness < 0.3, "rough" otherwise |
| Router.BuildVisualPrompt | pipeline/generators/router.py:339-355 | the prompt neither begins nor ends with ',' or ' ' |
| Router.GenerationPrompt | pipeline/generators/router.py:75-78 | a non-empty `prompt_for_generator` verbatim, otherwise the built prompt |
| Router.PromptLayout | pipeline/generators/router.py:346-355 | a clean name and description appear as "{name}{mat}, {desc}" |
| Router.EmptyDescription | pipeline/generators/router.py:346-355 | an empty description leaves no trailing comma: the prompt is name + material phrase |
| Router.FirstMaterialOnly | pipeline/generators/router.py:346-353 | only the first material is described; no materials, no phrase |
| Ranking.KeyOrderMeaning | pipeline/modal_app.py:638-640 | a key ranks ahead iff it passed and the other did not, or same pass status and higher score |
| Ranking.SortByRank | pipeline/modal_app.py:642 | the sort keeps length and is a permutation |
| Ranking.SortSorted | pipeline/modal_app.py:642 | the sorted list is ordered by the key |
| Ranking.SortRanked | pipeline/modal_app.py:626-642 | on a list in id order, equal keys keep id order (stability) |
| Ranking.Seeds | pipeline/modal_app.py:596 | one seed per candidate |
| Ranking.SeedsDistinct | pipeline/modal_app.py:596 | seeds[i] = base + 1000 i, at least 1000 apart |
| Ranking.Results | pipeline/modal_app.py:626-635 | entry cid has id cid, seeds[cid] and reports[cid]; ids increase |
| Ranking.Best | pipeline/modal_app.py:642-643 | none iff no candidates (where Python raises); otherwise one of them |
| Ranking.BestRanksFirst | pipeline/modal_app.py:638-643 | the best ranks at least as high as all; if any passed, the best passed; it has the top score of its class |
| Ranking.BestFirstAmongTies | pipeline/modal_app.py:626-643 | among candidates with an equal key the best has the lowest id |
| Ranking.BestSeed | pipeline/modal_app.py:596-650 | the best seed is base + 1000 * best id, and the summary validation is that candidate's report |
| Protocol.ClassifiersAgree | pipeline/modal_app.py:208-226 | daily exhaustion implies rate limit; rate limit excludes not found; other exceptions are neither |
| Protocol.DailyMarkerDecides | pipeline/modal_app.py:224-226 | a message containing the daily-quota marker is daily exhaustion iff the status is 429 |
| Protocol.Search | pipeline/modal_app.py:200 | a match yields a non-negative number of seconds |
| Protocol.ExtractRetryDelay | pipeline/modal_app.py:196-206 | the delay is 60.0 or at least 2.0 |
| Protocol.DefaultWithoutKey | pipeline/modal_app.py:196-206 | a message without the key's quote character gives 60.0 |
| Protocol.NoQuoteNoMatch | pipeline/modal_app.py:200 | no quote character from a position on means no match from there |
| Protocol.WholeSecondsDelay | pipeline/modal_app.py:196-206 | "'retryDelay': '<n>s'" (any spaces) after a quote-free prefix gives n + 2.0 |
| Protocol.MatchWhole | pipeline/modal_app.py:200 | key, spaces, quote, digits and "s'" at a position match with the digits' value |
| Protocol.RunCascade | pipeline/modal_app.py:228-299 | the loop over models with `raw`/`last_exc` gives the cascade specification |
| Protocol.CascadeGenerated | pipeline/modal_app.py:228-292 | generated text is non-empty and comes from the first model that did not cascade; every earlier model hit a 404 or daily quota |
| Protocol.CascadeExhausted | pipeline/modal_app.py:228-299 | "all exhausted" iff every model cascaded, reporting the last model's error |
| Protocol.FailureMessage | pipeline/modal_app.py:254-299 | the empty-response message with the model name, and the all-exhausted message ending in the last error's text, or "None" |
| Protocol.SingleModel | pipeline/modal_app.py:193-299 | with the one configured model, exhaustion reports that model's error |
| Protocol.ZeroPad2 | pipeline/modal_app.py:398 | `{:02d}`: at least two digits whose value is the id; "0" and the digit below 10, plain `str` from 10 on |
| Protocol.CandidateDir | pipeline/modal_app.py:398 | "candidate_" followed by at least two characters |
| Protocol.CandidateDirReadBack | pipeline/modal_app.py:443 | the digits after "candidate_" read back as the id |
| Protocol.CandidateDirInjective | pipeline/modal_app.py:517 | different candidates never share a directory |
| Protocol.Sse | pipeline/modal_app.py:721-722 | a frame starts with "event: " and ends with a blank line |
| Protocol.SseRoundTrip | pipeline/modal_app.py:721-722 | a frame reads back as its event and data when neither contains a line break |

## Left out

- Mesh work is left out: loading, vertex merging, degenerate and duplicate face removal, winding and normal repair, quadric decimation and GLB export. These are library calls; their results (bounds, face counts, flags, the face count and bounds of the simplified mesh) are inputs.
- The sRGB/linear transfer with exponent 2.4 is not modelled (`to_lin` at cleanup_and_bake.py:60-61 and the inverse at 159-160). `HexToLinearRgba` takes it as a parameter. `round` and `int` on colour channels are not modelled either; `ColourBytes` takes the rounded integers as input.
- `_build_transform_matrix` (trigonometry, numpy) is not modelled. The world patch has no matrix field.
- `math.sqrt` in the pivot check is not modelled. The check compares squared distance with the squared positive threshold, which decides the same way.
- Floating-point rounding is not modelled: reals are exact. `round(score, 3)` is modelled as round-half-even of the exact ratio. Float formatting in messages is kept as structured message values, not strings.
- JSON parsing and serialisation are function parameters, as is `json.dumps` of event data. A JSON `null` is not told apart from an absent key, and values of the wrong JSON type (which make Python raise) are not modelled outside the GLB document edit.
- `int(s, 16)` and the regular expression accept only ASCII digits here. Python also accepts other Unicode digits, and underscores between digits in `int`. Whitespace is Python's full `str.isspace` set.
- Router.Dispatch: `str.lower` is modelled on ASCII letters only. The only other characters Python lowercases into ASCII are the Kelvin sign (to "k") and U+0130 (to "i" followed by a combining dot), and neither can complete a dispatch key, so the chosen generator is the same. The same holds for `str.upper` on the up axis in placement: no other character uppercases to "Y" or "Z".
- Checks.RunAllChecks: report entries never hold "mesh_ref". In the source the entry of a failing `check_can_load` keeps `"mesh_ref": None`, because the key is popped only when it is not None.
- Ranking.Results: the candidate's `world_patch` (modal_app.py:632, 651) is not part of the candidate record; the placement module models the patch itself.
- Glb.Lookup: reads the first binding of a key. `json.loads` keeps the last one, so the JSON parser parameter stands for a parser whose objects have no repeated keys, as Python dicts do.
- Python's `list.sort` is modelled on values, by a stable insertion sort. The in-place update is not modelled.
- The Gemini client, the tenacity retry decorator (three attempts, exponential wait) and `time.sleep` are left out. For each model the outcome of `_call` after retries is an input. `_is_retryable` is unused by the source and not modelled.
- Modal images, volumes, secrets, `.map`/`.starmap` fan-out, `asyncio`, the FastAPI routes, the streaming generator and the CLI are left out: they are I/O and concurrency.
- The GPU generators and the mock mesh writer are left out. The generator call is a parameter that reports a path and whether the file exists. The import-failure fallbacks in the Trellis and Shap-E runners depend on the environment.
- The half height computed in `_resolve_position` is never used by the code, although its docstring says the height is snapped with it. The model follows the code.
- `prompts/gemini_prompt.py` and `patch_triposr_isosurface.py` are not part of this model.
- Cleanup.DecimationIffPolycountFails: stated for a non-negative `max_tris` only. For a negative fractional limit, `int()` truncation toward zero makes the two rules differ.
- Protocol.WholeSecondsDelay: stated for a whole number of seconds after a prefix without quote characters. Fractional delays and earlier near-matches follow from `MatchAt`/`Search`, but no separate lemma states them.
- Protocol.CandidateDirInjective: stated for non-negative ids. The source only uses ids from `range`.
