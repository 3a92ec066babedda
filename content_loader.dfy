/**
 * `ContentLoader`: resolving an asset locator to a transport URL, loading a
 * GLB from it, and the material-repair pass run on every loaded model.
 * The glTF importer, `Shader.Find` and `UnityWebRequest.EscapeURL` are
 * parameters: the import's two outcomes, the set of shader names included in
 * the build, and an escaping function.
 */
module ContentLoader {
  import opened Results
  import opened Strings

  const GsScheme: string := "gs://"
  const PublicStorageHost: string := "https://storage.googleapis.com/"

  /** Shaders tried, in order, for the fallback material. */
  const FallbackShaderNames: seq<string> := ["Shader Graphs/glTF-pbrMetallicRoughness", "Universal Render Pipeline/Lit"]

  // ---------------------------------------------------------------- locators

  /** `TryGsToGcsHttps`: `gs://bucket/path` to the bucket's public HTTPS path.
      The bucket is everything up to the first `/` after the scheme. */
  function TryGsToGcsHttps(gs: string, escape: string -> string): (r: Option<string>)
    ensures r.Some? <==> StartsWithIgnoreCase(gs, GsScheme) && '/' in gs[|GsScheme|..]
    ensures r.Some? ==> exists bucket, path :: (gs[|GsScheme|..] == bucket + "/" + path
                                                && '/' !in bucket
                                                && r.value == PublicStorageHost + bucket + "/" + escape(path))
  {
    if !StartsWithIgnoreCase(gs, GsScheme) then None
    else
      var rest := gs[|GsScheme|..];
      var slash := IndexOf(rest, '/');
      if slash < 0 then None
      else
        var bucket, path := rest[..slash], rest[slash + 1..];
        assert rest == bucket + "/" + path;
        Some(PublicStorageHost + bucket + "/" + escape(path))
  }

  /** Any bucket without a slash and any path, under any letter case of the
      scheme, map to the public URL of that bucket and escaped path. */
  lemma GsLocatorRewrite(scheme: string, bucket: string, path: string, escape: string -> string)
    requires |scheme| == |GsScheme| && StartsWithIgnoreCase(scheme, GsScheme)
    requires '/' !in bucket
    ensures TryGsToGcsHttps(scheme + bucket + "/" + path, escape) == Some(PublicStorageHost + bucket + "/" + escape(path))
  {
    var gs := scheme + bucket + "/" + path;
    var rest := gs[|GsScheme|..];
    assert rest == bucket + "/" + path;
    assert rest[|bucket|] == '/';
    assert rest[..|bucket|] == bucket;
    var k := IndexOf(rest, '/');
    assert k == |bucket|;
    assert rest[k + 1..] == path;
  }

  datatype ResolveError =
    | EmptyUrl        // ArgumentException
    | NotSupported    // NotSupportedException: gs:// without a bucket/path split

  /** `ResolveUrlAsync` in a build without the Firebase SDK. */
  function ResolveUrl(url: string, escape: string -> string): (r: Result<string, ResolveError>)
    ensures r == Err(EmptyUrl) <==> IsNullOrWhiteSpace(url)
    ensures !IsNullOrWhiteSpace(url) && !StartsWithIgnoreCase(url, GsScheme) ==> r == Ok(url)
    ensures r == Err(NotSupported) <==> (!IsNullOrWhiteSpace(url) && StartsWithIgnoreCase(url, GsScheme)
                                          && '/' !in url[|GsScheme|..])
    ensures r.Ok? && StartsWithIgnoreCase(url, GsScheme) ==> r.value == TryGsToGcsHttps(url, escape).value
  {
    if IsNullOrWhiteSpace(url) then Err(EmptyUrl)
    else if !StartsWithIgnoreCase(url, GsScheme) then Ok(url)
    else match TryGsToGcsHttps(url, escape)
      case Some(https) => Ok(https)
      case None => Err(NotSupported)
  }

  /** A resolved URL resolves to itself: resolution never yields another locator. */
  lemma ResolveIsIdempotent(url: string, escape: string -> string)
    requires ResolveUrl(url, escape).Ok?
    ensures ResolveUrl(ResolveUrl(url, escape).value, escape) == ResolveUrl(url, escape)
  {
    var u := ResolveUrl(url, escape).value;
    if StartsWithIgnoreCase(url, GsScheme) {
      assert u[..|PublicStorageHost|] == PublicStorageHost;
      assert u[0] == 'h';
      assert !IsWhiteSpace(u[0]);
      assert FoldCase(u[0]) != FoldCase(GsScheme[0]);
    }
  }

  // ---------------------------------------------------------- material repair

  datatype Material = Material(name: string, shader: Option<string>)

  /** One entry of `Renderer.sharedMaterials`; null when the slot is empty. */
  type Slot = Option<Material>

  /** A slot that renders as the error colour: empty, or a material without shader. */
  predicate Broken(s: Slot) {
    s.None? || s.value.shader.None?
  }

  function FallbackMaterial(shader: string): Material {
    Material("AutoMat_" + shader, Some(shader))
  }

  /** The slots after repair with the fallback shader `shader`. */
  function Repaired(mats: seq<Slot>, shader: string): (r: seq<Slot>)
    ensures |r| == |mats|
    ensures forall i :: 0 <= i < |r| ==> !Broken(r[i])
    ensures forall i :: 0 <= i < |r| && !Broken(mats[i]) ==> r[i] == mats[i]
    ensures forall i :: 0 <= i < |r| && Broken(mats[i]) ==> r[i] == Some(FallbackMaterial(shader))
  {
    seq(|mats|, i requires 0 <= i < |mats| => if Broken(mats[i]) then Some(FallbackMaterial(shader)) else mats[i])
  }

  predicate NeedsRepair(mats: seq<Slot>) {
    exists i :: 0 <= i < |mats| && Broken(mats[i])
  }

  /** Repair is idempotent, and after it no renderer needs to be reassigned again. */
  lemma RepairIsIdempotent(mats: seq<Slot>, shader: string)
    ensures Repaired(Repaired(mats, shader), shader) == Repaired(mats, shader)
    ensures !NeedsRepair(Repaired(mats, shader))
    ensures !NeedsRepair(mats) ==> Repaired(mats, shader) == mats
  {
  }

  /** `Shader.Find` over the ordered fallback list: the first shader the build has. */
  method FindFallback(available: set<string>) returns (fallback: Option<string>)
    ensures fallback.Some? ==> exists k :: (0 <= k < |FallbackShaderNames|
                                            && FallbackShaderNames[k] == fallback.value
                                            && fallback.value in available
                                            && forall j :: 0 <= j < k ==> FallbackShaderNames[j] !in available)
    ensures fallback.None? <==> forall j :: 0 <= j < |FallbackShaderNames| ==> FallbackShaderNames[j] !in available
  {
    fallback := None;
    var k := 0;
    while k < |FallbackShaderNames|
      invariant 0 <= k <= |FallbackShaderNames|
      invariant forall j :: 0 <= j < k ==> FallbackShaderNames[j] !in available
    {
      var name := FallbackShaderNames[k];
      if name in available {
        fallback := Some(name);
        return;
      }
      k := k + 1;
    }
  }

  /** A renderer of the loaded model. `materials` is what `sharedMaterials` returns
      (a copy) and accepts; `assignments` counts the times it was assigned. */
  class Renderer {
    var materials: seq<Slot>
    ghost var assignments: nat

    constructor (materials: seq<Slot>)
      ensures this.materials == materials && assignments == 0
    {
      this.materials := materials;
      assignments := 0;
    }
  }

  /** The per-renderer loop of `FixNullMaterials`, on the copy `mats`. */
  method RepairSlots(mats: array<Slot>, shader: string) returns (changed: bool)
    modifies mats
    ensures mats[..] == Repaired(old(mats[..]), shader)
    ensures changed <==> NeedsRepair(old(mats[..]))
  {
    changed := false;
    for i := 0 to mats.Length
      invariant forall j :: 0 <= j < i ==> mats[j] == Repaired(old(mats[..]), shader)[j]
      invariant forall j :: i <= j < mats.Length ==> mats[j] == old(mats[j])
      invariant changed <==> exists j :: 0 <= j < i && Broken(old(mats[j]))
    {
      if mats[i].None? || mats[i].value.shader.None? {
        mats[i] := Some(FallbackMaterial(shader));
        changed := true;
      }
    }
  }

  /** The effect of `FixNullMaterials` on one renderer, given the fallback found. */
  ghost predicate RepairedBy(r: Renderer, oldMats: seq<Slot>, oldAssignments: nat, fallback: Option<string>)
    reads r
  {
    if fallback.None? then r.materials == oldMats && r.assignments == oldAssignments
    else
      && r.materials == Repaired(oldMats, fallback.value)
      && r.assignments == oldAssignments + (if NeedsRepair(oldMats) then 1 else 0)
  }

  /** `FixNullMaterials` over the renderers of a freshly instantiated model:
      returns the fallback shader it used, if it found one. */
  method FixNullMaterials(renderers: seq<Renderer>, available: set<string>) returns (fallback: Option<string>)
    requires forall i, j :: 0 <= i < j < |renderers| ==> renderers[i] != renderers[j]
    modifies set r | r in renderers
    ensures |renderers| == 0 ==> fallback.None?
    ensures |renderers| > 0 ==> fallback == FirstAvailable(available)
    ensures forall i :: 0 <= i < |renderers| ==>
      RepairedBy(renderers[i], old(renderers[i].materials), old(renderers[i].assignments), fallback)
  {
    if |renderers| == 0 {
      return None;
    }
    fallback := FindFallback(available);
    FirstAvailableIsFound(available, fallback);
    if fallback.None? {
      return;
    }
    var shader := fallback.value;
    for k := 0 to |renderers|
      invariant forall i :: 0 <= i < k ==>
        RepairedBy(renderers[i], old(renderers[i].materials), old(renderers[i].assignments), fallback)
      invariant forall i :: k <= i < |renderers| ==>
        renderers[i].materials == old(renderers[i].materials) && renderers[i].assignments == old(renderers[i].assignments)
    {
      var r := renderers[k];
      var mats := new Slot[|r.materials|](i requires 0 <= i < |r.materials| reads r => r.materials[i]);
      assert mats[..] == r.materials;
      var changed := RepairSlots(mats, shader);
      if changed {
        r.materials := mats[..];
        r.assignments := r.assignments + 1;
      }
    }
  }

  /** The first entry of the fallback list that the build has, if any. */
  function FirstAvailable(available: set<string>): Option<string> {
    if FallbackShaderNames[0] in available then Some(FallbackShaderNames[0])
    else if FallbackShaderNames[1] in available then Some(FallbackShaderNames[1])
    else None
  }

  lemma FirstAvailableIsFound(available: set<string>, fallback: Option<string>)
    requires fallback.Some? ==> exists k :: (0 <= k < |FallbackShaderNames|
                                             && FallbackShaderNames[k] == fallback.value
                                             && fallback.value in available
                                             && forall j :: 0 <= j < k ==> FallbackShaderNames[j] !in available)
    requires fallback.None? <==> forall j :: 0 <= j < |FallbackShaderNames| ==> FallbackShaderNames[j] !in available
    ensures fallback == FirstAvailable(available)
  {
  }

  // -------------------------------------------------------------------- load

  /** What the glTF importer does with the resolved URL. */
  datatype ImportOutcome = ImportOutcome(loaded: bool, instantiated: bool)

  datatype LoadError =
    | BlankUrl                      // ArgumentException before anything else
    | Unresolvable(ResolveError)    // thrown by ResolveUrlAsync
    | ImportFailed                  // glTFast Load returned false
    | InstantiateFailed             // InstantiateMainSceneAsync returned false

  /** `LoadGlb`: returns the resolved URL the model was imported from. The model's
      renderers are `renderers`; they are repaired before a successful return and
      left alone by every failure. */
  method LoadGlb(
    srcUrl: string, escape: string -> string, importer: ImportOutcome,
    renderers: seq<Renderer>, available: set<string>
  ) returns (r: Result<string, LoadError>)
    requires forall i, j :: 0 <= i < j < |renderers| ==> renderers[i] != renderers[j]
    modifies set x | x in renderers
    ensures IsNullOrWhiteSpace(srcUrl) ==> r == Err(BlankUrl)
    ensures !IsNullOrWhiteSpace(srcUrl) && ResolveUrl(srcUrl, escape).Err? ==> r == Err(Unresolvable(ResolveUrl(srcUrl, escape).error))
    ensures !IsNullOrWhiteSpace(srcUrl) && ResolveUrl(srcUrl, escape).Ok? && !importer.loaded ==> r == Err(ImportFailed)
    ensures !IsNullOrWhiteSpace(srcUrl) && ResolveUrl(srcUrl, escape).Ok? && importer.loaded && !importer.instantiated
            ==> r == Err(InstantiateFailed)
    ensures r.Ok? <==> !IsNullOrWhiteSpace(srcUrl) && ResolveUrl(srcUrl, escape).Ok? && importer.loaded && importer.instantiated
    ensures r.Ok? ==> r.value == ResolveUrl(srcUrl, escape).value
    ensures r.Ok? ==> forall i :: 0 <= i < |renderers| ==>
      RepairedBy(renderers[i], old(renderers[i].materials), old(renderers[i].assignments),
                 if |renderers| == 0 then None else FirstAvailable(available))
    ensures r.Err? ==> forall i :: 0 <= i < |renderers| ==>
      renderers[i].materials == old(renderers[i].materials) && renderers[i].assignments == old(renderers[i].assignments)
  {
    if IsNullOrWhiteSpace(srcUrl) {
      return Err(BlankUrl);
    }
    var resolved := ResolveUrl(srcUrl, escape);
    if resolved.Err? {
      return Err(Unresolvable(resolved.error));
    }
    var httpUrl := resolved.value;
    if !importer.loaded {
      return Err(ImportFailed);
    }
    if !importer.instantiated {
      return Err(InstantiateFailed);
    }
    var _ := FixNullMaterials(renderers, available);
    return Ok(httpUrl);
  }
}
