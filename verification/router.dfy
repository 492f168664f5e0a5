/** Generator dispatch and prompt building (pipeline/generators/router.py):
    the requested generator name is normalised and looked up among the three
    supported generators, an unknown name falls back to TripoSR, a missing
    output becomes a `RuntimeError`, and the text prompt is either the spec's
    own `prompt_for_generator` or one built from the object's name, first
    material and description.

    The generators themselves (GPU inference, file writes) are a parameter:
    for each generator, the mesh path it reports and whether that file
    exists afterwards. */
module Router {
  import opened Common
  import opened Context

  // ---------------------------------------------------------------------------
  // Dispatch
  // ---------------------------------------------------------------------------

  datatype Generator = TripoSR | Trellis | ShapE

  /** The key of each generator in the dispatch table. */
  function GeneratorKey(g: Generator): string {
    match g
    case TripoSR => "triposr"
    case Trellis => "trellis"
    case ShapE => "shap-e"
  }

  const DispatchKeys: set<string> := {"triposr", "trellis", "shap-e"}

  /** `generator.lower().strip()` */
  function NormaliseName(name: string): string {
    Strip(LowerString(name), Whitespace)
  }

  /** The generator `run_generator` calls: the one whose key is the
      normalised name, or TripoSR when no key matches. */
  function Dispatch(name: string): (g: Generator)
    ensures NormaliseName(name) in DispatchKeys ==> GeneratorKey(g) == NormaliseName(name)
    ensures NormaliseName(name) !in DispatchKeys ==> g == TripoSR
  {
    var key := NormaliseName(name);
    if key == "trellis" then Trellis
    else if key == "shap-e" then ShapE
    else TripoSR
  }

  /** What a generator reports: the mesh path it returns and whether that
      file exists once it returns. */
  datatype GeneratorRun = GeneratorRun(meshPath: string, present: bool)

  datatype GeneratorResult = MeshAt(path: string) | RuntimeError(message: string)

  /** `run_generator`: dispatch, then insist that the returned file exists. */
  function RunGenerator(generator: string, run: Generator -> GeneratorRun): (r: GeneratorResult)
    ensures var g := Dispatch(generator);
      (r.MeshAt? <==> run(g).present)
      && (r.MeshAt? ==> r.path == run(g).meshPath)
      && (r.RuntimeError? ==>
            r.message == ("Generator '" + GeneratorKey(g) + "' did not produce output at " + run(g).meshPath))
  {
    var g := Dispatch(generator);
    var key := GeneratorKey(g);
    var out := run(g);
    if !out.present then
      RuntimeError("Generator '" + key + "' did not produce output at " + out.meshPath)
    else
      MeshAt(out.meshPath)
  }

  /** Each table key dispatches to its own generator. */
  lemma DispatchKeysRoundTrip(g: Generator)
    ensures Dispatch(GeneratorKey(g)) == g
  {
    var k := GeneratorKey(g);
    assert LowerString(k) == k;
    assert k[0] !in Whitespace && k[|k| - 1] !in Whitespace;
    StripClean(k, Whitespace);
  }

  /** Lower-casing twice is lower-casing once. */
  lemma LowerIdempotent(s: string)
    ensures LowerString(LowerString(s)) == LowerString(s)
  {
  }

  /** A normalised name is its own normal form, so dispatch on it is the
      same as dispatch on the raw name: case and surrounding whitespace are
      ignored. */
  lemma NormaliseIdempotent(name: string)
    ensures NormaliseName(NormaliseName(name)) == NormaliseName(name)
    ensures Dispatch(NormaliseName(name)) == Dispatch(name)
  {
    var l := LowerString(name);
    var n := Strip(l, Whitespace);
    var i, j := StripSlice(l, Whitespace);
    assert n == l[i..j];
    assert LowerString(n) == n by {
      forall k | 0 <= k < |n|
        ensures Lower(n[k]) == n[k]
      {
        assert n[k] == Lower(name[i + k]);
      }
    }
    StripClean(n, Whitespace);
  }

  /** `lstrip` drops a prefix made of stripped characters and stops at the
      first character it keeps. */
  lemma {:induction false} TrimStartDropsPrefix(pre: string, s: string, cs: set<char>)
    requires forall k :: 0 <= k < |pre| ==> pre[k] in cs
    requires s != [] && s[0] !in cs
    ensures TrimStart(pre + s, cs) == s
  {
    if pre != [] {
      assert (pre + s)[1..] == pre[1..] + s;
      TrimStartDropsPrefix(pre[1..], s, cs);
    }
  }

  /** `rstrip` drops a suffix made of stripped characters and stops at the
      last character it keeps. */
  lemma {:induction false} TrimEndDropsSuffix(s: string, post: string, cs: set<char>)
    requires forall k :: 0 <= k < |post| ==> post[k] in cs
    requires s != [] && s[|s| - 1] !in cs
    ensures TrimEnd(s + post, cs) == s
  {
    if post != [] {
      var p := post[..|post| - 1];
      assert (s + post)[..|s + post| - 1] == s + p;
      TrimEndDropsSuffix(s, p, cs);
    }
  }

  /** A table key surrounded by any Python whitespace, such as a no-break
      space or an ideographic space, still selects its generator. */
  lemma DispatchIgnoresSurroundingSpace(g: Generator, pre: string, post: string)
    requires forall k :: 0 <= k < |pre| ==> IsSpace(pre[k])
    requires forall k :: 0 <= k < |post| ==> IsSpace(post[k])
    ensures Dispatch(pre + GeneratorKey(g) + post) == g
  {
    var key := GeneratorKey(g);
    var name := pre + key + post;
    forall k | 0 <= k < |pre| ensures pre[k] in Whitespace {
      WhitespaceIsSpace(pre[k]);
    }
    forall k | 0 <= k < |post| ensures post[k] in Whitespace {
      WhitespaceIsSpace(post[k]);
    }
    assert LowerString(name) == name by {
      forall k | 0 <= k < |name| ensures Lower(name[k]) == name[k] {
        if k < |pre| {
          assert name[k] == pre[k];
        } else if k >= |pre| + |key| {
          assert name[k] == post[k - |pre| - |key|];
        }
      }
    }
    assert key[0] !in Whitespace && key[|key| - 1] !in Whitespace;
    assert name == pre + (key + post);
    TrimStartDropsPrefix(pre, key + post, Whitespace);
    TrimEndDropsSuffix(key, post, Whitespace);
  }

  // ---------------------------------------------------------------------------
  // Seeds and prompts
  // ---------------------------------------------------------------------------

  const SeedModulus: int := 0x1_0000_0000

  /** `seed & 0xFFFFFFFF`: the low 32 bits of the two's-complement seed,
      which for a positive mask is the non-negative remainder modulo 2^32. */
  function NumpySeed(seed: int): (r: int)
    ensures 0 <= r < SeedModulus
    ensures (seed - r) % SeedModulus == 0
    ensures 0 <= seed < SeedModulus ==> r == seed
  {
    seed % SeedModulus
  }

  /** The 32-bit masking keeps exactly the difference from the seed modulo
      2^32: seeds that differ by a multiple of 2^32 give the same numpy seed. */
  lemma NumpySeedPeriodic(seed: int, k: int)
    ensures NumpySeed(seed + k * SeedModulus) == NumpySeed(seed)
  {
    var r := NumpySeed(seed);
    var q := seed / SeedModulus;
    assert seed == q * SeedModulus + r;
    assert seed + k * SeedModulus == (q + k) * SeedModulus + r;
    UniqueRemainder(seed + k * SeedModulus, q + k, r);
  }

  lemma UniqueRemainder(x: int, q: int, r: int)
    requires 0 <= r < SeedModulus && x == q * SeedModulus + r
    ensures x % SeedModulus == r
  {
    var q' := x / SeedModulus;
    var r' := x % SeedModulus;
    assert x == q' * SeedModulus + r';
    assert (q - q') * SeedModulus == r' - r;
  }

  /** `"metallic" if metal > 0.5 else "matte"` */
  function Finish(metallic: real): (w: string)
    ensures w == "metallic" <==> metallic > 0.5
    ensures w == "matte" <==> metallic <= 0.5
  {
    if metallic > 0.5 then "metallic" else "matte"
  }

  /** `"smooth" if rough < 0.3 else "rough"` */
  function Texture(roughness: real): (w: string)
    ensures w == "smooth" <==> roughness < 0.3
    ensures w == "rough" <==> roughness >= 0.3
  {
    if roughness < 0.3 then "smooth" else "rough"
  }

  /** `mat_desc`: empty without materials, otherwise the first material's
      colour and the two adjectives (metallic defaults to 0, roughness to
      0.5, the colour to ""). */
  function MaterialPhrase(materials: seq<Material>): string {
    if materials == [] then ""
    else
      var pbr := materials[0].pbr;
      ", " + pbr.baseColor.GetOr("") + " colored, " + Finish(pbr.metallic.GetOr(0.0))
        + ", " + Texture(pbr.roughness.GetOr(0.5))
  }

  const PromptTrim: set<char> := {',', ' '}

  /** `_build_visual_prompt` */
  function BuildVisualPrompt(obj: ObjectInfo): (p: string)
    ensures p == [] || (p[0] !in PromptTrim && p[|p| - 1] !in PromptTrim)
  {
    var name := obj.name.GetOr("object");
    var desc := obj.description.GetOr("");
    StripEnds(name + MaterialPhrase(obj.materials) + ", " + desc, PromptTrim);
    Strip(name + MaterialPhrase(obj.materials) + ", " + desc, PromptTrim)
  }

  /** The prompt a generator uses: `prompt_for_generator` when it is a
      non-empty string, the built prompt otherwise. */
  function GenerationPrompt(spec: AssetSpec): (p: string)
    ensures spec.plan.promptForGenerator.Some? && spec.plan.promptForGenerator.value != "" ==>
      p == spec.plan.promptForGenerator.value
    ensures spec.plan.promptForGenerator.None? || spec.plan.promptForGenerator.value == "" ==>
      p == BuildVisualPrompt(spec.obj)
  {
    match spec.plan.promptForGenerator
    case Some(s) => if s != "" then s else BuildVisualPrompt(spec.obj)
    case None => BuildVisualPrompt(spec.obj)
  }

  /** A name and description with no separator characters at their outer
      ends appear verbatim, joined by the material phrase and ", ". */
  lemma PromptLayout(obj: ObjectInfo)
    requires var name := obj.name.GetOr("object"); var desc := obj.description.GetOr("");
      name != [] && name[0] !in PromptTrim && desc != [] && desc[|desc| - 1] !in PromptTrim
    ensures BuildVisualPrompt(obj) ==
      obj.name.GetOr("object") + MaterialPhrase(obj.materials) + ", " + obj.description.GetOr("")
  {
    var s := obj.name.GetOr("object") + MaterialPhrase(obj.materials) + ", " + obj.description.GetOr("");
    assert s[0] == obj.name.GetOr("object")[0];
    StripClean(s, PromptTrim);
  }

  /** With an empty description no trailing comma is left: the prompt is the
      name followed by the material phrase. */
  lemma EmptyDescription(obj: ObjectInfo)
    requires obj.description.GetOr("") == ""
    requires var name := obj.name.GetOr("object");
      name != [] && name[0] !in PromptTrim && name[|name| - 1] !in PromptTrim
    ensures BuildVisualPrompt(obj) == obj.name.GetOr("object") + MaterialPhrase(obj.materials)
  {
    var x := obj.name.GetOr("object") + MaterialPhrase(obj.materials);
    var name := obj.name.GetOr("object");
    var phrase := MaterialPhrase(obj.materials);
    if phrase == [] {
      assert x == name;
    } else {
      var pbr := obj.materials[0].pbr;
      var texture := Texture(pbr.roughness.GetOr(0.5));
      // both "smooth" and "rough" end in 'h'
      assert texture[|texture| - 1] == 'h';
      assert x == (name + ", " + pbr.baseColor.GetOr("") + " colored, " + Finish(pbr.metallic.GetOr(0.0)) + ", ") + texture;
      assert x[|x| - 1] == 'h';
    }
    assert x[|x| - 1] !in PromptTrim;
    assert x + ", " + obj.description.GetOr("") == x + ", ";
    StripTrailing(x, ", ");
  }

  /** Separator characters appended to a clean string are all removed. */
  lemma {:induction false} StripTrailing(x: string, t: string)
    requires x != [] && x[0] !in PromptTrim && x[|x| - 1] !in PromptTrim
    requires forall k :: 0 <= k < |t| ==> t[k] in PromptTrim
    ensures Strip(x + t, PromptTrim) == x
  {
    assert TrimStart(x + t, PromptTrim) == x + t;
    TrimEndAll(x, t);
  }

  lemma {:induction false} TrimEndAll(x: string, t: string)
    requires x != [] && x[|x| - 1] !in PromptTrim
    requires forall k :: 0 <= k < |t| ==> t[k] in PromptTrim
    ensures TrimEnd(x + t, PromptTrim) == x
    decreases |t|
  {
    if t == [] {
      assert x + t == x;
    } else {
      var t' := t[..|t| - 1];
      assert (x + t)[..|x + t| - 1] == x + t';
      TrimEndAll(x, t');
    }
  }

  /** Only the first material is described, and without materials there is
      no material phrase. */
  lemma FirstMaterialOnly(m: Material, rest1: seq<Material>, rest2: seq<Material>)
    ensures MaterialPhrase([m] + rest1) == MaterialPhrase([m] + rest2)
    ensures MaterialPhrase([]) == ""
  {
  }
}
