/** The material patch `_patch_glb_material` applies to an exported GLB
    (pipeline/blender/cleanup_and_bake.py). A GLB (chapter 4, "GLB File Format
    Specification", of the Khronos glTF 2.0 specification) starts with a
    12-byte little-endian header (magic 0x46546C67 "glTF", version, total
    length), followed by chunk 0 (length, type 0x4E4F534A "JSON", JSON text
    padded with spaces to a multiple of 4) and the BIN chunk.

    The patch parses the JSON chunk, gives material 0 the PBR factors and
    `doubleSided = false`, re-serialises it, re-pads it and rebuilds the file
    with the bytes after the old JSON chunk copied verbatim. The JSON parser and
    serialiser are parameters: `parse` stands for `json.loads` (None when it
    raises) and `dump` for `json.dumps(..., separators=(",", ":"))` encoded as
    UTF-8. */
module Glb {
  import opened Common

  newtype byte = x: int | 0 <= x < 256

  const Magic: nat := 0x46546C67
  const JsonChunkType: nat := 0x4E4F534A
  const U32Limit: nat := 0x1_0000_0000
  const Space: byte := 32

  // ---------------------------------------------------------------------------
  // Little-endian 32-bit fields (`struct` format "<I")
  // ---------------------------------------------------------------------------

  /** `struct.unpack_from("<I", data, off)` */
  function U32At(data: seq<byte>, off: nat): (v: nat)
    requires off + 4 <= |data|
    ensures v < U32Limit
  {
    data[off] as nat + 256 * data[off + 1] as nat
      + 65536 * data[off + 2] as nat + 16777216 * data[off + 3] as nat
  }

  /** `struct.pack("<I", v)`, defined for the values it accepts; decoding
      gives `v` back. */
  function U32Bytes(v: nat): (b: seq<byte>)
    requires v < U32Limit
    ensures |b| == 4 && U32At(b, 0) == v
  {
    var q1 := v / 256;
    var q2 := q1 / 256;
    var q3 := q2 / 256;
    assert v == v % 256 + 256 * (q1 % 256 + 256 * (q2 % 256 + 256 * q3));
    [(v % 256) as byte, (q1 % 256) as byte, (q2 % 256) as byte, q3 as byte]
  }

  /** One base-256 digit step: `lo + 256 * hi` splits back into `lo` and `hi`. */
  lemma ByteStep(lo: int, hi: int)
    requires 0 <= lo < 256 && 0 <= hi
    ensures (lo + 256 * hi) % 256 == lo && (lo + 256 * hi) / 256 == hi
  {
  }

  /** The other round trip: four bytes decode to a value that encodes to them. */
  lemma U32BytesOfU32At(data: seq<byte>, off: nat)
    requires off + 4 <= |data|
    ensures U32Bytes(U32At(data, off)) == data[off..off + 4]
  {
    var a, b, c, d := data[off] as int, data[off + 1] as int, data[off + 2] as int, data[off + 3] as int;
    var v := U32At(data, off);
    assert v == a + 256 * (b + 256 * (c + 256 * d));
    ByteStep(a, b + 256 * (c + 256 * d));
    ByteStep(b, c + 256 * d);
    ByteStep(c, d);
    ByteStep(d, 0);
  }

  /** A field read inside a larger buffer reads the field's own four bytes. */
  lemma U32AtSlice(data: seq<byte>, off: nat, b: seq<byte>)
    requires off + 4 <= |data| && |b| == 4 && data[off..off + 4] == b
    ensures U32At(data, off) == U32At(b, 0)
  {
    assert data[off] == b[0] && data[off + 1] == b[1] && data[off + 2] == b[2] && data[off + 3] == b[3];
  }

  // ---------------------------------------------------------------------------
  // JSON documents
  // ---------------------------------------------------------------------------

  /** A parsed JSON value. An object keeps its keys in insertion order, as a
      Python dict does. */
  datatype Json =
    | JNull
    | JBool(b: bool)
    | JNum(n: real)
    | JStr(s: string)
    | JArr(items: seq<Json>)
    | JObj(fields: seq<(string, Json)>)

  /** Python truthiness of a parsed JSON value. */
  predicate Truthy(j: Json) {
    match j
    case JNull => false
    case JBool(b) => b
    case JNum(n) => n != 0.0
    case JStr(s) => s != ""
    case JArr(a) => a != []
    case JObj(f) => f != []
  }

  /** `d.get(k)` */
  function Lookup(fields: seq<(string, Json)>, k: string): (r: Option<Json>)
    ensures r.Some? ==> (k, r.value) in fields
    ensures r.None? ==> forall i :: 0 <= i < |fields| ==> fields[i].0 != k
  {
    if fields == [] then None
    else if fields[0].0 == k then Some(fields[0].1)
    else Lookup(fields[1..], k)
  }

  /** `d[k] = v`: an existing key keeps its place, a new one goes last. */
  function Put(fields: seq<(string, Json)>, k: string, v: Json): (r: seq<(string, Json)>)
    ensures Lookup(r, k) == Some(v)
    ensures forall k' :: k' != k ==> Lookup(r, k') == Lookup(fields, k')
  {
    if fields == [] then [(k, v)]
    else if fields[0].0 == k then [(k, v)] + fields[1..]
    else [fields[0]] + Put(fields[1..], k, v)
  }

  /** Assignment keeps every existing key in its place and adds the key at
      the end exactly when it was missing. */
  lemma {:induction false} PutKeepsOrder(fields: seq<(string, Json)>, k: string, v: Json)
    ensures var r := Put(fields, k, v);
      |r| == (if Lookup(fields, k).Some? then |fields| else |fields| + 1)
      && (forall i :: 0 <= i < |fields| ==> r[i].0 == fields[i].0)
      && (Lookup(fields, k).None? ==> r[|fields|] == (k, v))
  {
    if fields != [] && fields[0].0 != k {
      var tail := Put(fields[1..], k, v);
      PutKeepsOrder(fields[1..], k, v);
      assert Put(fields, k, v) == [fields[0]] + tail;
      assert Lookup(fields, k) == Lookup(fields[1..], k);
      forall i | 1 <= i < |fields|
        ensures Put(fields, k, v)[i].0 == fields[i].0
      {
        assert Put(fields, k, v)[i] == tail[i - 1];
      }
    }
  }

  /** Storing the value a key already has changes nothing. */
  lemma {:induction false} PutSame(fields: seq<(string, Json)>, k: string, v: Json)
    requires Lookup(fields, k) == Some(v)
    ensures Put(fields, k, v) == fields
  {
    if fields[0].0 != k {
      PutSame(fields[1..], k, v);
    }
  }

  /** `setdefault(k, {})` followed by reading the value back. */
  function SetDefault(fields: seq<(string, Json)>, k: string): seq<(string, Json)> {
    if Lookup(fields, k).Some? then fields else Put(fields, k, JObj([]))
  }

  const DefaultMaterials: Json := JArr([JObj([("name", JStr("mat0"))])])

  function ColourJson(colour: seq<real>): (j: Json)
    ensures j.JArr? && |j.items| == |colour|
  {
    JArr(seq(|colour|, i requires 0 <= i < |colour| => JNum(colour[i])))
  }

  /** The three factor assignments on the "pbrMetallicRoughness" object. */
  function PatchPbr(pbr: seq<(string, Json)>, colour: seq<real>, metallic: real, roughness: real)
    : (r: seq<(string, Json)>)
    ensures Lookup(r, "baseColorFactor") == Some(ColourJson(colour))
    ensures Lookup(r, "metallicFactor") == Some(JNum(metallic))
    ensures Lookup(r, "roughnessFactor") == Some(JNum(roughness))
    ensures forall k :: k != "baseColorFactor" && k != "metallicFactor" && k != "roughnessFactor" ==>
      Lookup(r, k) == Lookup(pbr, k)
  {
    Put(Put(Put(pbr, "baseColorFactor", ColourJson(colour)), "metallicFactor", JNum(metallic)),
      "roughnessFactor", JNum(roughness))
  }

  /** The edit of material 0: `setdefault("pbrMetallicRoughness", {})`, the
      factors, `doubleSided = False`. None where Python raises: the material
      is not an object, or its "pbrMetallicRoughness" is not an object. */
  function PatchMaterial(mat: Json, colour: seq<real>, metallic: real, roughness: real): (r: Option<Json>)
    ensures r.Some? <==> (mat.JObj? &&
      (Lookup(mat.fields, "pbrMetallicRoughness").None? || Lookup(mat.fields, "pbrMetallicRoughness").value.JObj?))
    ensures r.Some? ==> r.value.JObj? && Lookup(r.value.fields, "doubleSided") == Some(JBool(false))
    ensures r.Some? ==> var pbr := Lookup(r.value.fields, "pbrMetallicRoughness");
      pbr.Some? && pbr.value.JObj?
      && Lookup(pbr.value.fields, "baseColorFactor") == Some(ColourJson(colour))
      && Lookup(pbr.value.fields, "metallicFactor") == Some(JNum(metallic))
      && Lookup(pbr.value.fields, "roughnessFactor") == Some(JNum(roughness))
    ensures r.Some? ==> forall k :: k != "pbrMetallicRoughness" && k != "doubleSided" ==>
      Lookup(r.value.fields, k) == Lookup(mat.fields, k)
  {
    if !mat.JObj? then None
    else
      var fields := SetDefault(mat.fields, "pbrMetallicRoughness");
      var pbr := Lookup(fields, "pbrMetallicRoughness").value;
      if !pbr.JObj? then None
      else
        Some(JObj(Put(Put(fields, "pbrMetallicRoughness", JObj(PatchPbr(pbr.fields, colour, metallic, roughness))),
          "doubleSided", JBool(false))))
  }

  /** The document's fields once a missing or falsy "materials" is replaced. */
  function WithMaterials(fields: seq<(string, Json)>): (r: seq<(string, Json)>)
    ensures Lookup(r, "materials").Some? && Truthy(Lookup(r, "materials").value)
    ensures forall k :: k != "materials" ==> Lookup(r, k) == Lookup(fields, k)
  {
    var before := Lookup(fields, "materials");
    if before.None? || !Truthy(before.value) then Put(fields, "materials", DefaultMaterials) else fields
  }

  /** The edit of lines 221-229 on the parsed document, or None where Python
      raises: the document is not an object, "materials" is truthy but not a
      list, or material 0 cannot be patched. */
  function PatchJson(doc: Json, colour: seq<real>, metallic: real, roughness: real): (r: Option<Json>)
    ensures !doc.JObj? ==> r.None?
    ensures r.Some? ==> r.value.JObj?
    ensures r.Some? ==> forall k :: k != "materials" ==> Lookup(r.value.fields, k) == Lookup(doc.fields, k)
  {
    if !doc.JObj? then None
    else
      var fields := WithMaterials(doc.fields);
      var mats := Lookup(fields, "materials").value;
      if !mats.JArr? then None
      else
        var mat := PatchMaterial(mats.items[0], colour, metallic, roughness);
        if mat.None? then None
        else Some(JObj(Put(fields, "materials", JArr([mat.value] + mats.items[1..]))))
  }

  /** What the edit does to "materials": a missing or falsy list becomes the
      single default material `{"name": "mat0"}`; material 0 is patched; the
      other materials are untouched. */
  lemma PatchJsonMaterials(doc: Json, colour: seq<real>, metallic: real, roughness: real)
    requires PatchJson(doc, colour, metallic, roughness).Some?
    ensures var before := Lookup(doc.fields, "materials");
      var after := Lookup(PatchJson(doc, colour, metallic, roughness).value.fields, "materials");
      after.Some? && after.value.JArr? && |after.value.items| >= 1
      && (before.None? || !Truthy(before.value) ==>
            |after.value.items| == 1 && Lookup(after.value.items[0].fields, "name") == Some(JStr("mat0")))
      && (before.Some? && Truthy(before.value) ==>
            before.value.JArr? && after.value.items[1..] == before.value.items[1..])
    ensures var after := Lookup(PatchJson(doc, colour, metallic, roughness).value.fields, "materials");
      var m0 := after.value.items[0];
      m0.JObj? && Lookup(m0.fields, "doubleSided") == Some(JBool(false))
      && var pbr := Lookup(m0.fields, "pbrMetallicRoughness");
      pbr.Some? && pbr.value.JObj?
      && Lookup(pbr.value.fields, "baseColorFactor") == Some(ColourJson(colour))
      && Lookup(pbr.value.fields, "metallicFactor") == Some(JNum(metallic))
      && Lookup(pbr.value.fields, "roughnessFactor") == Some(JNum(roughness))
  {
    var fields := WithMaterials(doc.fields);
    var mats := Lookup(fields, "materials").value;
    var before := Lookup(doc.fields, "materials");
    if before.None? || !Truthy(before.value) {
      assert mats == DefaultMaterials;
      var m := mats.items[0];
      assert Lookup(m.fields, "name") == Some(JStr("mat0"));
      assert Lookup(PatchMaterial(m, colour, metallic, roughness).value.fields, "name") == Some(JStr("mat0"));
    } else {
      assert mats == before.value;
    }
  }

  lemma PatchPbrIdempotent(pbr: seq<(string, Json)>, colour: seq<real>, metallic: real, roughness: real)
    ensures var once := PatchPbr(pbr, colour, metallic, roughness);
      PatchPbr(once, colour, metallic, roughness) == once
  {
    var once := PatchPbr(pbr, colour, metallic, roughness);
    PutSame(once, "baseColorFactor", ColourJson(colour));
    PutSame(once, "metallicFactor", JNum(metallic));
    PutSame(once, "roughnessFactor", JNum(roughness));
  }

  lemma PatchMaterialIdempotent(mat: Json, colour: seq<real>, metallic: real, roughness: real)
    requires PatchMaterial(mat, colour, metallic, roughness).Some?
    ensures var once := PatchMaterial(mat, colour, metallic, roughness).value;
      PatchMaterial(once, colour, metallic, roughness) == Some(once)
  {
    var once := PatchMaterial(mat, colour, metallic, roughness).value;
    var pbr := Lookup(once.fields, "pbrMetallicRoughness").value;
    var fields := SetDefault(mat.fields, "pbrMetallicRoughness");
    var pbr0 := Lookup(fields, "pbrMetallicRoughness").value;
    assert pbr == JObj(PatchPbr(pbr0.fields, colour, metallic, roughness));
    PatchPbrIdempotent(pbr0.fields, colour, metallic, roughness);
    PutSame(once.fields, "pbrMetallicRoughness", pbr);
    PutSame(once.fields, "doubleSided", JBool(false));
  }

  /** Patching a patched document changes nothing more. */
  lemma PatchJsonIdempotent(doc: Json, colour: seq<real>, metallic: real, roughness: real)
    requires PatchJson(doc, colour, metallic, roughness).Some?
    ensures var once := PatchJson(doc, colour, metallic, roughness).value;
      PatchJson(once, colour, metallic, roughness) == Some(once)
  {
    var once := PatchJson(doc, colour, metallic, roughness).value;
    var fields := WithMaterials(doc.fields);
    var mats := Lookup(fields, "materials").value;
    var m0 := PatchMaterial(mats.items[0], colour, metallic, roughness).value;
    PatchMaterialIdempotent(mats.items[0], colour, metallic, roughness);
    var newMats := JArr([m0] + mats.items[1..]);
    assert Lookup(once.fields, "materials") == Some(newMats);
    assert WithMaterials(once.fields) == once.fields;
    assert [m0] + newMats.items[1..] == newMats.items;
    PutSame(once.fields, "materials", newMats);
  }

  // ---------------------------------------------------------------------------
  // Byte layout
  // ---------------------------------------------------------------------------

  /** `b" " * n` */
  function Spaces(n: nat): (r: seq<byte>)
    ensures |r| == n && forall i :: 0 <= i < n ==> r[i] == Space
  {
    seq(n, _ => Space)
  }

  /** `new_json + b" " * pad` with `pad = (4 - len % 4) % 4`. */
  function Padded(b: seq<byte>): (p: seq<byte>)
    ensures |p| % 4 == 0 && |b| <= |p| <= |b| + 3
    ensures p[..|b|] == b
    ensures forall i :: |b| <= i < |p| ==> p[i] == Space
  {
    b + Spaces((4 - |b| % 4) % 4)
  }

  lemma PaddedDef(b: seq<byte>)
    ensures Padded(b) == b + Spaces((4 - |b| % 4) % 4)
  {
  }

  /** `b.rstrip(b"\x20")` */
  function TrimSpaces(b: seq<byte>): (r: seq<byte>)
    ensures |r| <= |b| && r == b[..|r|]
    ensures forall i :: |r| <= i < |b| ==> b[i] == Space
    ensures r == [] || r[|r| - 1] != Space
  {
    if b != [] && b[|b| - 1] == Space then TrimSpaces(b[..|b| - 1]) else b
  }

  /** Trailing spaces are exactly what `TrimSpaces` removes. */
  lemma {:induction false} TrimSpacesOfPadding(b: seq<byte>, n: nat)
    requires b == [] || b[|b| - 1] != Space
    ensures TrimSpaces(b + Spaces(n)) == b
  {
    if n > 0 {
      var s := b + Spaces(n);
      assert s[..|s| - 1] == b + Spaces(n - 1);
      TrimSpacesOfPadding(b, n - 1);
    } else {
      assert b + Spaces(0) == b;
    }
  }

  /** The header check passes: at least 12 bytes, and the magic. */
  predicate MagicOk(data: seq<byte>) {
    |data| >= 12 && U32At(data, 0) == Magic
  }

  /** Both checks pass: magic, and chunk 0 of type JSON. */
  predicate HeadersOk(data: seq<byte>) {
    MagicOk(data) && |data| >= 20 && U32At(data, 16) == JsonChunkType
  }

  /** `20 + chunk0_len` */
  function ChunkEnd(data: seq<byte>): nat
    requires |data| >= 20
  {
    20 + U32At(data, 12)
  }

  /** `data[20 : 20 + chunk0_len]` (clipped to the data, as a slice is). */
  function JsonChunk(data: seq<byte>): seq<byte>
    requires |data| >= 20
  {
    if ChunkEnd(data) <= |data| then data[20..ChunkEnd(data)] else data[20..]
  }

  /** `data[20 + chunk0_len:]`: the BIN chunk and anything after it. */
  function Rest(data: seq<byte>): seq<byte>
    requires |data| >= 20
  {
    if ChunkEnd(data) <= |data| then data[ChunkEnd(data)..] else []
  }

  /** The document after the edit, or None when parsing or the edit raises. */
  function PatchedDoc(data: seq<byte>, colour: seq<real>, metallic: real, roughness: real,
                      parse: seq<byte> -> Option<Json>): Option<Json>
    requires |data| >= 20
  {
    var doc := parse(TrimSpaces(JsonChunk(data)));
    if doc.None? then None else PatchJson(doc.value, colour, metallic, roughness)
  }

  /** What the patch does to the file. */
  datatype PatchOutcome =
    | Unchanged                      // returned early, file not rewritten
    | Rewritten(bytes: seq<byte>)    // the new file contents
    | Raised                         // struct.error, a JSON error or a TypeError

  /** The output layout: header, JSON chunk header, padded JSON, rest. */
  predicate IsRewrite(out: seq<byte>, json: seq<byte>, rest: seq<byte>) {
    var p := Padded(json);
    |out| == 20 + |p| + |rest| && |out| < U32Limit
    && U32At(out, 0) == Magic && U32At(out, 4) == 2 && U32At(out, 8) == |out|
    && U32At(out, 12) == |p| && U32At(out, 16) == JsonChunkType
    && out[20..20 + |p|] == p && out[20 + |p|..] == rest
  }

  function Assemble(p: seq<byte>, rest: seq<byte>): seq<byte>
    requires 20 + |p| + |rest| < U32Limit
  {
    U32Bytes(Magic) + U32Bytes(2) + U32Bytes(20 + |p| + |rest|) + U32Bytes(|p|) + U32Bytes(JsonChunkType) + p + rest
  }

  lemma AssembleLayout(json: seq<byte>, rest: seq<byte>)
    requires 20 + |Padded(json)| + |rest| < U32Limit
    ensures IsRewrite(Assemble(Padded(json), rest), json, rest)
  {
    var p := Padded(json);
    var h := U32Bytes(Magic) + U32Bytes(2) + U32Bytes(20 + |p| + |rest|) + U32Bytes(|p|) + U32Bytes(JsonChunkType);
    var out := Assemble(p, rest);
    assert out == h + (p + rest);
    assert |h| == 20;
    HeaderField(h, p + rest, 0, U32Bytes(Magic));
    HeaderField(h, p + rest, 4, U32Bytes(2));
    HeaderField(h, p + rest, 8, U32Bytes(20 + |p| + |rest|));
    HeaderField(h, p + rest, 12, U32Bytes(|p|));
    HeaderField(h, p + rest, 16, U32Bytes(JsonChunkType));
    assert out[20..] == p + rest;
  }

  /** A field of the header reads the same once the body is appended. */
  lemma HeaderField(h: seq<byte>, body: seq<byte>, off: nat, b: seq<byte>)
    requires off + 4 <= |h| && |b| == 4 && h[off..off + 4] == b
    ensures U32At(h + body, off) == U32At(b, 0)
  {
    assert (h + body)[off..off + 4] == h[off..off + 4];
    U32AtSlice(h + body, off, b);
  }

  /** `_patch_glb_material` on the file's bytes. */
  function PatchGlb(data: seq<byte>, colour: seq<real>, metallic: real, roughness: real,
                    parse: seq<byte> -> Option<Json>, dump: Json -> seq<byte>): (o: PatchOutcome)
    ensures !MagicOk(data) ==> o == Unchanged
    ensures MagicOk(data) && |data| < 20 ==> o == Raised
    ensures MagicOk(data) && |data| >= 20 && U32At(data, 16) != JsonChunkType ==> o == Unchanged
    ensures HeadersOk(data) && PatchedDoc(data, colour, metallic, roughness, parse).None? ==> o == Raised
    ensures o.Rewritten? ==>
      HeadersOk(data) && PatchedDoc(data, colour, metallic, roughness, parse).Some? &&
      IsRewrite(o.bytes, dump(PatchedDoc(data, colour, metallic, roughness, parse).value), Rest(data))
    ensures HeadersOk(data) && PatchedDoc(data, colour, metallic, roughness, parse).Some? &&
      20 + |Padded(dump(PatchedDoc(data, colour, metallic, roughness, parse).value))| + |Rest(data)| < U32Limit
      ==> o.Rewritten?
    ensures HeadersOk(data) && PatchedDoc(data, colour, metallic, roughness, parse).Some? &&
      20 + |Padded(dump(PatchedDoc(data, colour, metallic, roughness, parse).value))| + |Rest(data)| >= U32Limit
      ==> o == Raised
  {
    if |data| < 12 || U32At(data, 0) != Magic then Unchanged
    else if |data| < 20 then Raised
    else if U32At(data, 16) != JsonChunkType then Unchanged
    else
      var doc := PatchedDoc(data, colour, metallic, roughness, parse);
      if doc.None? then Raised
      else
        var p := Padded(dump(doc.value));
        var rest := Rest(data);
        if 20 + |p| + |rest| >= U32Limit then Raised
        else
          AssembleLayout(dump(doc.value), rest);
          Rewritten(Assemble(p, rest))
  }

  /** Lines 220-229, step by step: the in-place edits of the parsed document. */
  method PatchDocument(doc: Json, colour: seq<real>, metallic: real, roughness: real) returns (r: Option<Json>)
    ensures r == PatchJson(doc, colour, metallic, roughness)
  {
    if !doc.JObj? {
      return None;
    }
    var gltf := doc.fields;
    var before := Lookup(gltf, "materials");
    if before.None? || !Truthy(before.value) {
      gltf := Put(gltf, "materials", DefaultMaterials);
    }
    assert gltf == WithMaterials(doc.fields);
    var mats := Lookup(gltf, "materials").value;
    if !mats.JArr? || !mats.items[0].JObj? {
      return None;
    }
    var mat := mats.items[0].fields;
    mat := SetDefault(mat, "pbrMetallicRoughness");
    var pbrValue := Lookup(mat, "pbrMetallicRoughness").value;
    if !pbrValue.JObj? {
      return None;
    }
    var pbr := pbrValue.fields;
    pbr := Put(pbr, "baseColorFactor", ColourJson(colour));
    pbr := Put(pbr, "metallicFactor", JNum(metallic));
    pbr := Put(pbr, "roughnessFactor", JNum(roughness));
    assert pbr == PatchPbr(pbrValue.fields, colour, metallic, roughness);
    mat := Put(mat, "pbrMetallicRoughness", JObj(pbr));
    mat := Put(mat, "doubleSided", JBool(false));
    assert Some(JObj(mat)) == PatchMaterial(mats.items[0], colour, metallic, roughness);
    gltf := Put(gltf, "materials", JArr([JObj(mat)] + mats.items[1..]));
    return Some(JObj(gltf));
  }

  /** `_patch_glb_material`, step by step: the checks with early return, the
      in-place edits of the parsed document, then the concatenation. */
  method PatchGlbMaterial(data: seq<byte>, colour: seq<real>, metallic: real, roughness: real,
                          parse: seq<byte> -> Option<Json>, dump: Json -> seq<byte>)
    returns (o: PatchOutcome)
    ensures o == PatchGlb(data, colour, metallic, roughness, parse, dump)
  {
    if |data| < 12 {
      return Unchanged;
    }
    var magic := U32At(data, 0);
    if magic != Magic {
      return Unchanged;
    }
    if |data| < 20 {
      return Raised;
    }
    var chunk0Len := U32At(data, 12);
    var chunk0Type := U32At(data, 16);
    if chunk0Type != JsonChunkType {
      return Unchanged;
    }
    var jsonBytes := if 20 + chunk0Len <= |data| then data[20..20 + chunk0Len] else data[20..];
    assert jsonBytes == JsonChunk(data);
    var parsed := parse(TrimSpaces(jsonBytes));
    if parsed.None? {
      return Raised;
    }
    var patched := PatchDocument(parsed.value, colour, metallic, roughness);
    if patched.None? {
      return Raised;
    }
    assert patched == PatchedDoc(data, colour, metallic, roughness, parse);
    var rest := if 20 + chunk0Len <= |data| then data[20 + chunk0Len..] else [];
    assert rest == Rest(data);
    o := Repack(dump(patched.value), rest);
  }

  /** Lines 232-243: pad the new JSON, then build the header, the chunk header
      and the file. */
  method Repack(newJson: seq<byte>, rest: seq<byte>) returns (o: PatchOutcome)
    ensures 20 + |Padded(newJson)| + |rest| >= U32Limit ==> o == Raised
    ensures 20 + |Padded(newJson)| + |rest| < U32Limit ==> o == Rewritten(Assemble(Padded(newJson), rest))
  {
    var pad := (4 - |newJson| % 4) % 4;
    var padded := newJson + Spaces(pad);
    PaddedDef(newJson);
    var total := 12 + 8 + |padded| + |rest|;
    if total >= U32Limit {
      return Raised;
    }
    o := Rewritten(U32Bytes(Magic) + U32Bytes(2) + U32Bytes(total)
      + U32Bytes(|padded|) + U32Bytes(JsonChunkType) + padded + rest);
  }

  // ---------------------------------------------------------------------------
  // Reading the result back
  // ---------------------------------------------------------------------------

  /** The rewritten file is a GLB whose JSON chunk, once its padding is
      stripped, is the serialised patched document, and whose trailing bytes
      are those of the input. With a parser that inverts the serialiser, the
      patched document is read back. */
  lemma ReadBack(data: seq<byte>, colour: seq<real>, metallic: real, roughness: real,
                 parse: seq<byte> -> Option<Json>, dump: Json -> seq<byte>)
    requires PatchGlb(data, colour, metallic, roughness, parse, dump).Rewritten?
    requires var doc := PatchedDoc(data, colour, metallic, roughness, parse).value;
      (dump(doc) == [] || dump(doc)[|dump(doc)| - 1] != Space) && parse(dump(doc)) == Some(doc)
    ensures var out := PatchGlb(data, colour, metallic, roughness, parse, dump).bytes;
      var doc := PatchedDoc(data, colour, metallic, roughness, parse).value;
      HeadersOk(out) && U32At(out, 8) == |out|
      && TrimSpaces(JsonChunk(out)) == dump(doc)
      && parse(TrimSpaces(JsonChunk(out))) == Some(doc)
      && Rest(out) == Rest(data)
  {
    var out := PatchGlb(data, colour, metallic, roughness, parse, dump).bytes;
    var doc := PatchedDoc(data, colour, metallic, roughness, parse).value;
    var d := dump(doc);
    var p := Padded(d);
    assert JsonChunk(out) == p;
    assert p == d + Spaces(|p| - |d|);
    TrimSpacesOfPadding(d, |p| - |d|);
  }

  /** Patching the patched file again reproduces it byte for byte, given a
      parser that inverts the serialiser on the patched document and a
      serialisation that does not end in a space. */
  lemma PatchIdempotent(data: seq<byte>, colour: seq<real>, metallic: real, roughness: real,
                        parse: seq<byte> -> Option<Json>, dump: Json -> seq<byte>)
    requires PatchGlb(data, colour, metallic, roughness, parse, dump).Rewritten?
    requires var doc := PatchedDoc(data, colour, metallic, roughness, parse).value;
      (dump(doc) == [] || dump(doc)[|dump(doc)| - 1] != Space) && parse(dump(doc)) == Some(doc)
    ensures var out := PatchGlb(data, colour, metallic, roughness, parse, dump).bytes;
      PatchGlb(out, colour, metallic, roughness, parse, dump) == Rewritten(out)
  {
    var out := PatchGlb(data, colour, metallic, roughness, parse, dump).bytes;
    var doc := PatchedDoc(data, colour, metallic, roughness, parse).value;
    ReadBack(data, colour, metallic, roughness, parse, dump);
    var first := parse(TrimSpaces(JsonChunk(data))).value;
    PatchJsonIdempotent(first, colour, metallic, roughness);
    assert PatchedDoc(out, colour, metallic, roughness, parse) == Some(doc);
    var p := Padded(dump(doc));
    assert Assemble(p, Rest(out)) == out;
  }
}
