/** The decision rules of the mesh cleanup step
    (pipeline/blender/cleanup_and_bake.py) that sit around the trimesh calls:
    the hex colour parsing of `_hex_to_linear_rgba`, the PBR default merge, the
    0..255 clamp of the vertex colour, and in `main` the decimation trigger,
    the per-axis scale guard and the pivot shift to the base centre.

    The mesh itself is reduced to what these rules read and change: its face
    count and its axis-aligned bounds. What the mesh library computes
    (decimation, the sRGB transfer curve, rounding) is an input. */
module Cleanup {
  import opened Common
  import opened Context
  import Checks

  // ---------------------------------------------------------------------------
  // Python's int(s, 16)
  // ---------------------------------------------------------------------------

  /** The value of one hexadecimal digit, either case. */
  function HexDigit(c: char): (r: Option<nat>)
    ensures r.Some? ==> r.value < 16
    ensures r.Some? <==> ('0' <= c <= '9' || 'a' <= c <= 'f' || 'A' <= c <= 'F')
  {
    if '0' <= c <= '9' then Some(c as int - '0' as int)
    else if 'a' <= c <= 'f' then Some(c as int - 'a' as int + 10)
    else if 'A' <= c <= 'F' then Some(c as int - 'A' as int + 10)
    else None
  }

  predicate AllHex(s: string) {
    forall i :: 0 <= i < |s| ==> HexDigit(s[i]).Some?
  }

  /** The value of a string of hexadecimal digits, most significant first. */
  function HexValue(s: string): nat
    requires AllHex(s)
  {
    if s == [] then 0 else 16 * HexValue(s[..|s| - 1]) + HexDigit(s[|s| - 1]).value
  }

  /** An optional leading sign: whether it is `-`, and what follows it. */
  function SignOf(t: string): (bool, string) {
    if t != [] && (t[0] == '-' || t[0] == '+') then (t[0] == '-', t[1..]) else (false, t)
  }

  /** The optional `0x`/`0X` base prefix that `int(s, 16)` accepts. */
  function DropBasePrefix(u: string): string {
    if |u| >= 2 && u[0] == '0' && (u[1] == 'x' || u[1] == 'X') then u[2..] else u
  }

  /** `int(s, 16)`: surrounding whitespace, an optional sign and an optional
      `0x` prefix around at least one hexadecimal digit. None stands for the
      `ValueError` raised on anything else. */
  function ParseInt16(s: string): Option<int> {
    if s != [] && IsSpace(s[0]) then ParseInt16(s[1..])
    else if s != [] && IsSpace(s[|s| - 1]) then ParseInt16(s[..|s| - 1])
    else ParseSigned(s)
  }

  /** `int(s, 16)` once the surrounding whitespace is gone. */
  function ParseSigned(t: string): Option<int> {
    var (neg, u) := SignOf(t);
    var ds := DropBasePrefix(u);
    if ds != [] && AllHex(ds) then
      var v: int := HexValue(ds);
      Some(if neg then -v else v)
    else
      None
  }

  /** Surrounding whitespace is ignored: `int(s, 16)` parses what
      `s.strip()` keeps. */
  lemma {:induction false} ParseIgnoresWhitespace(s: string)
    ensures ParseInt16(s) == ParseSigned(Strip(s, Whitespace))
    decreases |s|
  {
    if s != [] && IsSpace(s[0]) {
      WhitespaceIsSpace(s[0]);
      ParseIgnoresWhitespace(s[1..]);
      assert Strip(s, Whitespace) == Strip(s[1..], Whitespace);
    } else if s != [] && IsSpace(s[|s| - 1]) {
      WhitespaceIsSpace(s[0]);
      WhitespaceIsSpace(s[|s| - 1]);
      ParseIgnoresWhitespace(s[..|s| - 1]);
      StripDropsLast(s);
    } else if s != [] {
      WhitespaceIsSpace(s[0]);
      WhitespaceIsSpace(s[|s| - 1]);
      StripClean(s, Whitespace);
    }
  }

  /** With a non-space first character, a trailing space is dropped by
      `strip` either way. */
  lemma StripDropsLast(s: string)
    requires s != [] && s[0] !in Whitespace && s[|s| - 1] in Whitespace
    ensures Strip(s, Whitespace) == Strip(s[..|s| - 1], Whitespace)
  {
    assert TrimStart(s, Whitespace) == s;
    assert TrimStart(s[..|s| - 1], Whitespace) == s[..|s| - 1];
  }

  /** A hexadecimal digit is neither whitespace, a sign nor an `x`. */
  lemma HexDigitPlain(c: char)
    requires HexDigit(c).Some?
    ensures c !in Whitespace && c != '-' && c != '+' && c != 'x' && c != 'X'
  {
    WhitespaceIsSpace(c);
  }

  /** A bare string of hexadecimal digits parses to its value. */
  lemma ParseDigits(s: string)
    requires s != [] && AllHex(s)
    ensures ParseInt16(s) == Some(HexValue(s) as int)
  {
    HexDigitPlain(s[0]);
    HexDigitPlain(s[|s| - 1]);
    WhitespaceIsSpace(s[0]);
    WhitespaceIsSpace(s[|s| - 1]);
    assert SignOf(s) == (false, s);
    if |s| >= 2 {
      HexDigitPlain(s[1]);
    }
    assert DropBasePrefix(s) == s;
  }

  /** Two hexadecimal digits parse to their base-16 value, in 0..255. */
  lemma ParseTwoDigits(s: string)
    requires |s| == 2 && AllHex(s)
    ensures ParseInt16(s) == Some(16 * HexDigit(s[0]).value + HexDigit(s[1]).value)
    ensures 0 <= ParseInt16(s).value <= 255
  {
    ParseDigits(s);
    var p := s[..1];
    assert p[..0] == [];
    assert HexValue(p) == HexDigit(s[0]).value;
    assert s[..|s| - 1] == p;
  }

  /** One hexadecimal digit parses to its value. */
  lemma ParseOneDigit(s: string)
    requires |s| == 1 && AllHex(s)
    ensures ParseInt16(s) == Some(HexDigit(s[0]).value)
  {
    ParseDigits(s);
    assert s[..0] == [];
  }

  /** The empty slice raises. */
  lemma ParseEmpty()
    ensures ParseInt16("") == None
  {
  }

  // ---------------------------------------------------------------------------
  // _hex_to_linear_rgba
  // ---------------------------------------------------------------------------

  /** A Python slice `s[i:j]` with non-negative bounds: clipped to the string. */
  function Slice(s: string, i: nat, j: nat): (r: string)
    requires i <= j
    ensures |r| <= j - i
  {
    var a := if i <= |s| then i else |s|;
    var b := if j <= |s| then j else |s|;
    s[a..b]
  }

  /** `"".join(c * 2 for c in h)` when `h` has three characters. */
  function Expand(h: string): (r: string)
    ensures |h| == 3 ==> r == [h[0], h[0], h[1], h[1], h[2], h[2]]
    ensures |h| != 3 ==> r == h
  {
    if |h| == 3 then [h[0], h[0], h[1], h[1], h[2], h[2]] else h
  }

  /** `s.lstrip("#")` */
  function DropHashes(s: string): string {
    if s != [] && s[0] == '#' then DropHashes(s[1..]) else s
  }

  /** The digits `_hex_to_linear_rgba` reads: `#` stripped, a three-digit
      form doubled. */
  function HexBody(hexStr: string): string {
    Expand(DropHashes(hexStr))
  }

  /** The three integer channels `int(h[i:i+2], 16)` for i = 0, 2, 4 of the
      expanded digits `h`; None when one of them raises. */
  function BodyChannels(h: string): (r: Option<seq<int>>)
    ensures r.Some? ==> |r.value| == 3
  {
    var r := ParseInt16(Slice(h, 0, 2));
    var g := ParseInt16(Slice(h, 2, 4));
    var b := ParseInt16(Slice(h, 4, 6));
    if r.Some? && g.Some? && b.Some? then Some([r.value, g.value, b.value]) else None
  }

  /** The channels `_hex_to_linear_rgba` reads from a colour string. */
  function HexChannels(hexStr: string): (r: Option<seq<int>>)
    ensures r.Some? ==> |r.value| == 3
  {
    BodyChannels(HexBody(hexStr))
  }

  /** The channels are determined by the three parses. */
  lemma ChannelsOf(h: string, a: int, b: int, c: int)
    requires ParseInt16(Slice(h, 0, 2)) == Some(a)
    requires ParseInt16(Slice(h, 2, 4)) == Some(b)
    requires ParseInt16(Slice(h, 4, 6)) == Some(c)
    ensures BodyChannels(h) == Some([a, b, c])
  {
  }

  lemma SliceWithin(h: string, i: nat, j: nat)
    requires i <= j <= |h|
    ensures Slice(h, i, j) == h[i..j]
  {
  }

  /** `_hex_to_linear_rgba`: each channel divided by 255 and passed through
      the sRGB-to-linear curve `toLin` (a parameter), alpha 1.0. */
  function HexToLinearRgba(hexStr: string, toLin: real -> real): (r: Option<seq<real>>)
    ensures r.Some? <==> HexChannels(hexStr).Some?
    ensures r.Some? ==> |r.value| == 4 && r.value[3] == 1.0
    ensures r.Some? ==> var c := HexChannels(hexStr).value;
      r.value[..3] == [toLin(Unit(c[0])), toLin(Unit(c[1])), toLin(Unit(c[2]))]
  {
    match HexChannels(hexStr)
    case None => None
    case Some(c) => Some([toLin(Unit(c[0])), toLin(Unit(c[1])), toLin(Unit(c[2])), 1.0])
  }

  /** `c / 255.0` */
  function Unit(c: int): real {
    c as real / 255.0
  }

  /** Six hexadecimal digits after the `#`: the channels are the three
      base-16 pairs, each in 0..255. */
  lemma SixDigitColour(hexStr: string)
    requires var h := DropHashes(hexStr); |h| == 6 && AllHex(h)
    ensures var h := DropHashes(hexStr);
      HexChannels(hexStr) == Some([
        16 * HexDigit(h[0]).value + HexDigit(h[1]).value,
        16 * HexDigit(h[2]).value + HexDigit(h[3]).value,
        16 * HexDigit(h[4]).value + HexDigit(h[5]).value])
    ensures forall i :: 0 <= i < 3 ==> 0 <= HexChannels(hexStr).value[i] <= 255
  {
    var h := DropHashes(hexStr);
    assert HexBody(hexStr) == h;
    PairsOf(h);
  }

  /** The three pairs of six hexadecimal digits. */
  lemma PairsOf(h: string)
    requires |h| == 6 && AllHex(h)
    ensures BodyChannels(h) == Some([
        16 * HexDigit(h[0]).value + HexDigit(h[1]).value,
        16 * HexDigit(h[2]).value + HexDigit(h[3]).value,
        16 * HexDigit(h[4]).value + HexDigit(h[5]).value])
  {
    SliceWithin(h, 0, 2);
    SliceWithin(h, 2, 4);
    SliceWithin(h, 4, 6);
    ParseTwoDigits(h[0..2]);
    ParseTwoDigits(h[2..4]);
    ParseTwoDigits(h[4..6]);
    ChannelsOf(h, 16 * HexDigit(h[0]).value + HexDigit(h[1]).value,
      16 * HexDigit(h[2]).value + HexDigit(h[3]).value,
      16 * HexDigit(h[4]).value + HexDigit(h[5]).value);
  }

  /** Three hexadecimal digits: each digit is doubled, so each channel is
      17 times the digit. */
  lemma ThreeDigitColour(hexStr: string)
    requires var h := DropHashes(hexStr); |h| == 3 && AllHex(h)
    ensures var h := DropHashes(hexStr);
      HexChannels(hexStr) == Some([
        17 * HexDigit(h[0]).value, 17 * HexDigit(h[1]).value, 17 * HexDigit(h[2]).value])
  {
    var h := DropHashes(hexStr);
    var e := HexBody(hexStr);
    assert e == [h[0], h[0], h[1], h[1], h[2], h[2]];
    assert AllHex(e);
    PairsOf(e);
  }

  /** Zero, one, two or four digits after the `#` leave the blue slice
      empty, and `int("", 16)` raises. */
  lemma ShortColourRaises(hexStr: string)
    requires |DropHashes(hexStr)| in {0, 1, 2, 4}
    ensures HexChannels(hexStr) == None
  {
    var h := HexBody(hexStr);
    assert Slice(h, 4, 6) == [];
    ParseEmpty();
  }

  /** Digits beyond the sixth are never read. */
  lemma LongColourIgnoresTail(hexStr: string, tail: string)
    requires |DropHashes(hexStr)| >= 6
    ensures HexChannels(hexStr + tail) == HexChannels(hexStr)
  {
    var h := DropHashes(hexStr);
    DropHashesAppend(hexStr, tail);
    assert HexBody(hexStr + tail) == h + tail;
    assert HexBody(hexStr) == h;
    SameSlices(h + tail, h);
  }

  /** Bodies that agree on their first six characters give the same channels. */
  lemma SameSlices(h1: string, h2: string)
    requires |h1| >= 6 && |h2| >= 6 && h1[..6] == h2[..6]
    ensures BodyChannels(h1) == BodyChannels(h2)
  {
    assert Slice(h1, 0, 2) == h1[..6][0..2] == Slice(h2, 0, 2);
    assert Slice(h1, 2, 4) == h1[..6][2..4] == Slice(h2, 2, 4);
    assert Slice(h1, 4, 6) == h1[..6][4..6] == Slice(h2, 4, 6);
  }

  lemma {:induction false} DropHashesAppend(s: string, tail: string)
    requires DropHashes(s) != []
    ensures DropHashes(s + tail) == DropHashes(s) + tail
  {
    if s != [] && s[0] == '#' {
      assert (s + tail)[1..] == s[1..] + tail;
      DropHashesAppend(s[1..], tail);
    }
  }

  /** `int()` accepts a sign, so a "colour" such as "#-1-1-1" parses to
      negative channels rather than raising. */
  lemma SignedDigitsParse(hexStr: string)
    requires var h := DropHashes(hexStr);
      |h| == 6 && h[0] == h[2] == h[4] == '-'
      && HexDigit(h[1]).Some? && HexDigit(h[3]).Some? && HexDigit(h[5]).Some?
    ensures var h := DropHashes(hexStr);
      HexChannels(hexStr) == Some([
        -(HexDigit(h[1]).value as int), -(HexDigit(h[3]).value as int), -(HexDigit(h[5]).value as int)])
  {
    var h := DropHashes(hexStr);
    assert HexBody(hexStr) == h;
    SliceWithin(h, 0, 2);
    SliceWithin(h, 2, 4);
    SliceWithin(h, 4, 6);
    SignedDigit(h[0..2]);
    SignedDigit(h[2..4]);
    SignedDigit(h[4..6]);
    ChannelsOf(h, -(HexDigit(h[1]).value as int), -(HexDigit(h[3]).value as int), -(HexDigit(h[5]).value as int));
  }

  lemma SignedDigit(s: string)
    requires |s| == 2 && s[0] == '-' && HexDigit(s[1]).Some?
    ensures ParseInt16(s) == Some(-(HexDigit(s[1]).value as int))
  {
    var d := s[1..];
    assert d[..0] == [];
    ParseNegative(s);
  }

  /** `-` followed by hexadecimal digits parses to the negated value. */
  lemma ParseNegative(s: string)
    requires |s| >= 2 && s[0] == '-' && AllHex(s[1..])
    ensures ParseInt16(s) == Some(-(HexValue(s[1..]) as int))
  {
    var d := s[1..];
    WhitespaceIsSpace('-');
    HexDigitPlain(s[|s| - 1]);
    WhitespaceIsSpace(s[|s| - 1]);
    assert SignOf(s) == (true, d);
    HexDigitPlain(d[0]);
    if |d| >= 2 {
      HexDigitPlain(d[1]);
    }
    assert DropBasePrefix(d) == d;
  }

  // ---------------------------------------------------------------------------
  // PBR defaults and the vertex colour
  // ---------------------------------------------------------------------------

  const DefaultBaseColor: string := "#808080"
  const DefaultMetallic: real := 0.0
  const DefaultRoughness: real := 0.5

  datatype PbrValues = PbrValues(baseColor: string, metallic: real, roughness: real)

  /** `pbr_values`: the defaults, updated with the "pbr" object of the first
      spec material when there is one. */
  function MergedPbr(materials: seq<Material>): (p: PbrValues)
    ensures materials == [] ==> p == PbrValues(DefaultBaseColor, DefaultMetallic, DefaultRoughness)
    ensures materials != [] ==>
      var pbr := materials[0].pbr;
      (pbr.baseColor.Some? ==> p.baseColor == pbr.baseColor.value)
      && (pbr.metallic.Some? ==> p.metallic == pbr.metallic.value)
      && (pbr.roughness.Some? ==> p.roughness == pbr.roughness.value)
  {
    var p := PbrValues(DefaultBaseColor, DefaultMetallic, DefaultRoughness);
    if materials == [] then p
    else
      var pbr := materials[0].pbr;
      PbrValues(pbr.baseColor.GetOr(p.baseColor), pbr.metallic.GetOr(p.metallic),
        pbr.roughness.GetOr(p.roughness))
  }

  /** Only the first material is read, and a key it lacks keeps its default. */
  lemma MergedPbrFirstOnly(m: Material, rest1: seq<Material>, rest2: seq<Material>)
    ensures MergedPbr([m] + rest1) == MergedPbr([m] + rest2)
    ensures m.pbr.baseColor.None? ==> MergedPbr([m] + rest1).baseColor == DefaultBaseColor
    ensures m.pbr.metallic.None? ==> MergedPbr([m] + rest1).metallic == DefaultMetallic
    ensures m.pbr.roughness.None? ==> MergedPbr([m] + rest1).roughness == DefaultRoughness
  {
  }

  /** The default colour "#808080" is mid grey: 128 on every channel. */
  lemma DefaultColourChannels()
    ensures HexChannels(DefaultBaseColor) == Some([128, 128, 128])
  {
    var h := "808080";
    assert DefaultBaseColor[1..] == h;
    assert DropHashes(DefaultBaseColor) == h;
    assert HexDigit('8') == Some(8) && HexDigit('0') == Some(0);
    assert AllHex(h);
    SixDigitColour(DefaultBaseColor);
  }

  /** `max(0, min(255, v))` */
  function Clamp255(v: int): (c: int)
    ensures 0 <= c <= 255
    ensures 0 <= v <= 255 ==> c == v
    ensures v < 0 ==> c == 0
    ensures v > 255 ==> c == 255
  {
    if v < 0 then 0 else if v > 255 then 255 else v
  }

  /** `color_uint8`: the rounded channels `int(round(c * 255))` clamped, then
      alpha 255. */
  function ColourBytes(rounded: seq<int>): (r: seq<int>)
    ensures |r| == |rounded| + 1 && r[|rounded|] == 255
    ensures forall i :: 0 <= i < |r| ==> 0 <= r[i] <= 255
    ensures forall i :: 0 <= i < |rounded| && 0 <= rounded[i] <= 255 ==> r[i] == rounded[i]
  {
    seq(|rounded|, i requires 0 <= i < |rounded| => Clamp255(rounded[i])) + [255]
  }

  /** Clamping is idempotent and keeps the order of the channels. */
  lemma ClampMonotone(u: int, v: int)
    ensures Clamp255(Clamp255(u)) == Clamp255(u)
    ensures u <= v ==> Clamp255(u) <= Clamp255(v)
  {
  }

  // ---------------------------------------------------------------------------
  // Decimation, scale and pivot rules
  // ---------------------------------------------------------------------------

  /** Python's `int(x)` on a float: truncation toward zero. */
  function TruncToInt(x: real): (n: int)
    ensures x >= 0.0 ==> n as real <= x < n as real + 1.0
    ensures x < 0.0 ==> n as real - 1.0 < x <= n as real
  {
    if x >= 0.0 then x.Floor else -((-x).Floor)
  }

  /** `int(qt.get("max_tris", 80_000))` */
  function MaxTrisLimit(spec: AssetSpec): int {
    TruncToInt(Checks.MaxTris(spec))
  }

  /** `current_tris > max_tris` */
  predicate NeedsDecimation(faces: nat, spec: AssetSpec) {
    faces > MaxTrisLimit(spec)
  }

  /** For a non-negative limit, a mesh is decimated exactly when the
      polycount check would reject it (`faces <= max_tris` fails). */
  lemma DecimationIffPolycountFails(faces: nat, spec: AssetSpec)
    requires Checks.MaxTris(spec) >= 0.0
    ensures NeedsDecimation(faces, spec) <==> !(faces as real <= Checks.MaxTris(spec))
  {
  }

  /** The default limit is 80000 faces. */
  lemma DefaultDecimationLimit(faces: nat, spec: AssetSpec)
    requires spec.plan.maxTris.None?
    ensures NeedsDecimation(faces, spec) <==> faces > 80000
  {
  }

  const MinScalableExtent: real := 0.000001

  /** One component of `scale_vec`: target over extent when the target is
      positive and the extent above 1e-6, otherwise 1.0. */
  function AxisFactor(target: real, extent: real): (f: real)
    ensures f > 0.0
    ensures target > 0.0 && extent > MinScalableExtent ==> extent * f == target
    ensures !(target > 0.0 && extent > MinScalableExtent) ==> f == 1.0
  {
    if target > 0.0 && extent > MinScalableExtent then
      PositiveQuotient(target, extent);
      target / extent
    else 1.0
  }

  lemma PositiveQuotient(a: real, b: real)
    requires a > 0.0 && b > 0.0
    ensures a / b > 0.0 && b * (a / b) == a
  {
  }

  /** The scale vector of `main`, or None when `size_m` is empty and the mesh
      is not scaled. */
  function ScaleVector(sizeM: map<string, real>, extents: Vec3): (r: Option<Vec3>)
    ensures r.None? <==> sizeM == map[]
    ensures r.Some? ==> r.value.x > 0.0 && r.value.y > 0.0 && r.value.z > 0.0
  {
    if sizeM == map[] then None
    else Some(Vec3(
      AxisFactor(Checks.SizeOf(sizeM, "x"), extents.x),
      AxisFactor(Checks.SizeOf(sizeM, "y"), extents.y),
      AxisFactor(Checks.SizeOf(sizeM, "z"), extents.z)))
  }

  function Scale(v: Vec3, f: Vec3): Vec3 {
    Vec3(v.x * f.x, v.y * f.y, v.z * f.z)
  }

  function Translate(v: Vec3, t: Vec3): Vec3 {
    Vec3(v.x + t.x, v.y + t.y, v.z + t.z)
  }

  /** The translation `[-cx, -cy_min, -cz]` that puts the base centre of the
      box at the origin. */
  function PivotShift(lo: Vec3, hi: Vec3): Vec3 {
    Vec3(-(lo.x + hi.x) / 2.0, -lo.y, -(lo.z + hi.z) / 2.0)
  }

  /** After the shift the base is at y = 0 and the x/z centre is the origin,
      and the box keeps its extents. */
  lemma PivotShiftCentres(lo: Vec3, hi: Vec3)
    ensures var t := PivotShift(lo, hi);
      Translate(lo, t).y == 0.0
      && Translate(lo, t).x + Translate(hi, t).x == 0.0
      && Translate(lo, t).z + Translate(hi, t).z == 0.0
      && Translate(hi, t).x - Translate(lo, t).x == hi.x - lo.x
      && Translate(hi, t).y - Translate(lo, t).y == hi.y - lo.y
      && Translate(hi, t).z - Translate(lo, t).z == hi.z - lo.z
  {
  }

  /** A factor multiplies the side of a box. */
  lemma ScaleSide(lo: real, hi: real, f: real)
    ensures hi * f - lo * f == (hi - lo) * f
  {
  }

  /** A mesh that left the cleanup step passes the pivot check. */
  lemma CleanedMeshPassesPivotCheck(env: Checks.Env, mesh: Option<Checks.MeshFacts>, lo: Vec3, hi: Vec3)
    requires mesh == None || mesh == Checks.FirstMesh(env)
    requires Checks.FirstMesh(env).Some?
    requires var t := PivotShift(lo, hi);
      Checks.FirstMesh(env).value.lo == Translate(lo, t) && Checks.FirstMesh(env).value.hi == Translate(hi, t)
    ensures Checks.CheckPivotAtBase(env, mesh).passed
  {
    PivotShiftCentres(lo, hi);
    Checks.PivotAtOriginPasses(env, mesh);
  }

  /** `bounding_box.extents` of the box from `lo` to `hi`. */
  function BoxExtents(lo: Vec3, hi: Vec3): Vec3 {
    Vec3(hi.x - lo.x, hi.y - lo.y, hi.z - lo.z)
  }

  /** The mesh as `main` changes it after repair (vertex merging, degenerate
      and duplicate face removal): its face count and its bounds. */
  class MeshState {
    var faceCount: nat
    var lo: Vec3
    var hi: Vec3

    constructor (faceCount: nat, lo: Vec3, hi: Vec3)
      ensures this.faceCount == faceCount && this.lo == lo && this.hi == hi
    {
      this.faceCount := faceCount;
      this.lo := lo;
      this.hi := hi;
    }

    /** `mesh.bounding_box.extents` */
    function Extents(): Vec3
      reads this
    {
      BoxExtents(lo, hi)
    }

    /** The decimation step. `mesh.simplify_quadric_decimation` returns a new
        mesh that the mesh library decides: `simplified` is its face count and
        `sLo`/`sHi` its bounds. Below the limit the mesh stays as it is. Past
        a negative limit a mesh without faces makes `max_tris / current_tris`
        raise `ZeroDivisionError` (`raised`), and the mesh is left alone. */
    method Decimate(spec: AssetSpec, simplified: nat, sLo: Vec3, sHi: Vec3) returns (raised: bool)
      modifies this
      ensures raised <==> NeedsDecimation(old(faceCount), spec) && old(faceCount) == 0
      ensures NeedsDecimation(old(faceCount), spec) && !raised ==> faceCount == simplified && lo == sLo && hi == sHi
      ensures !NeedsDecimation(old(faceCount), spec) || raised ==>
        faceCount == old(faceCount) && lo == old(lo) && hi == old(hi)
    {
      raised := false;
      if faceCount > MaxTrisLimit(spec) {
        if faceCount == 0 {
          raised := true;
          return;
        }
        faceCount := simplified;
        lo := sLo;
        hi := sHi;
      }
    }

    /** `mesh.apply_scale(f)` for positive factors scales the bounds. */
    method ApplyScale(f: Vec3)
      requires f.x > 0.0 && f.y > 0.0 && f.z > 0.0
      modifies this
      ensures lo == Scale(old(lo), f) && hi == Scale(old(hi), f) && faceCount == old(faceCount)
    {
      lo := Scale(lo, f);
      hi := Scale(hi, f);
    }

    /** `mesh.apply_translation(t)` */
    method ApplyTranslation(t: Vec3)
      modifies this
      ensures lo == Translate(old(lo), t) && hi == Translate(old(hi), t) && faceCount == old(faceCount)
    {
      lo := Translate(lo, t);
      hi := Translate(hi, t);
    }

    /** Lines 122-146 of `main`: decimate past the limit, scale to the spec
        size, move the pivot to the base centre. The extents the scaling reads
        are those of the mesh after decimation. On every axis whose target is
        positive and whose extent exceeds 1e-6 the extent becomes the target;
        the others keep their extent. `raised` is the `ZeroDivisionError` of
        the decimation ratio, which aborts `main` before anything else. */
    method Normalise(spec: AssetSpec, simplified: nat, sLo: Vec3, sHi: Vec3) returns (raised: bool)
      modifies this
      ensures raised <==> NeedsDecimation(old(faceCount), spec) && old(faceCount) == 0
      ensures raised ==> faceCount == old(faceCount) && lo == old(lo) && hi == old(hi)
      ensures !raised ==>
        faceCount == (if NeedsDecimation(old(faceCount), spec) then simplified else old(faceCount))
      ensures !raised ==> lo.y == 0.0 && lo.x + hi.x == 0.0 && lo.z + hi.z == 0.0
      ensures !raised ==>
        var sizeM := spec.obj.sizeM;
        var e := if NeedsDecimation(old(faceCount), spec) then BoxExtents(sLo, sHi) else old(Extents());
        Extents().x == (if sizeM != map[] && Checks.SizeOf(sizeM, "x") > 0.0 && e.x > MinScalableExtent
          then Checks.SizeOf(sizeM, "x") else e.x)
        && Extents().y == (if sizeM != map[] && Checks.SizeOf(sizeM, "y") > 0.0 && e.y > MinScalableExtent
          then Checks.SizeOf(sizeM, "y") else e.y)
        && Extents().z == (if sizeM != map[] && Checks.SizeOf(sizeM, "z") > 0.0 && e.z > MinScalableExtent
          then Checks.SizeOf(sizeM, "z") else e.z)
    {
      raised := Decimate(spec, simplified, sLo, sHi);
      if raised {
        return;
      }
      var dLo, dHi := lo, hi;
      var e := Extents();
      var f := ScaleVector(spec.obj.sizeM, e);
      if f.Some? {
        ApplyScale(f.value);
        ScaleSide(dLo.x, dHi.x, f.value.x);
        ScaleSide(dLo.y, dHi.y, f.value.y);
        ScaleSide(dLo.z, dHi.z, f.value.z);
      }
      var scaledLo, scaledHi := lo, hi;
      ApplyTranslation(PivotShift(scaledLo, scaledHi));
      PivotShiftCentres(scaledLo, scaledHi);
    }
  }
}
